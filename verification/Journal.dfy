/** The ledger half of the service as values: what every profile and award operation does
    to the in-memory index, the global chain and the per-player logs, and what a restart
    rebuilds from the logs. */
module Journal {
  import opened Common
  import opened Order
  import opened BitVectors
  import opened Blockchain
  import opened LogVerifier
  import opened Registry

  const DEFAULT_DIM := 16384

  // ------------------------------------------------------------------- index

  datatype RewardState = RewardState(entitlements: seq<Entitlement>, achievements: seq<Achievement>)

  const NO_REWARDS := RewardState([], [])

  /** What the service keeps in memory about the transactions of its ledger. */
  datatype Index = Index(profiles: map<string, PlayerProfile>, rewards: map<string, RewardState>)

  const EMPTY_INDEX := Index(map[], map[])

  /** Profiles are filed under their own ids. */
  predicate OwnIds(ix: Index) {
    forall p | p in ix.profiles :: ix.profiles[p].playerId == p
  }

  /** `rewards.entry(player).or_default()`: a missing entry counts as empty. */
  function RewardsOf(rewards: map<string, RewardState>, player: string): RewardState {
    if player in rewards then rewards[player] else NO_REWARDS
  }

  function PushEntitlement(rewards: map<string, RewardState>, player: string, e: Entitlement)
    : map<string, RewardState>
  {
    var r := RewardsOf(rewards, player);
    rewards[player := r.(entitlements := r.entitlements + [e])]
  }

  function PushAchievement(rewards: map<string, RewardState>, player: string, a: Achievement)
    : map<string, RewardState>
  {
    var r := RewardsOf(rewards, player);
    rewards[player := r.(achievements := r.achievements + [a])]
  }

  /** What replay does with one transaction. */
  function ApplyTransaction(ix: Index, t: Transaction): Index {
    match t.details
    case ProfileChanged(change) => ix.(profiles := ix.profiles[change.profile.playerId := change.profile])
    case EntitlementGranted(e) => ix.(rewards := PushEntitlement(ix.rewards, t.playerId, e))
    case AchievementAwarded(a) => ix.(rewards := PushAchievement(ix.rewards, t.playerId, a))
  }

  function ApplyTransactions(ix: Index, txns: seq<Transaction>): Index {
    if txns == [] then ix
    else ApplyTransaction(ApplyTransactions(ix, txns[..|txns| - 1]), txns[|txns| - 1])
  }

  function ApplyBlocks(ix: Index, blocks: seq<Block>): Index {
    if blocks == [] then ix
    else ApplyTransactions(ApplyBlocks(ix, blocks[..|blocks| - 1]), blocks[|blocks| - 1].transactions)
  }

  // -------------------------------------------------------------- environment

  /** What the service is run with: the block hash, the digests of JSON details, which player
      ids parse as UUIDs (taken to be in canonical form). */
  datatype Env = Env(
    hash: Hasher,
    profileDigest: PlayerProfile -> string,
    awardDigest: TransactionData -> string,
    isUuid: string -> bool)

  /** When a process starts, and the application version it runs. */
  datatype Launch = Launch(at: string, version: string)

  /** An append succeeds, fails without the block (before or after the log file was created),
      or fails after the block reached the log (a mirror that fails after the canonical log
      was written). */
  datatype AppendOutcome = Appended | Dropped(created: bool) | WrittenThenFailed

  /** What one operation reads from outside: the fresh transaction id, the version of the
      running binary, the clock, and how storage answers. */
  datatype Inputs = Inputs(
    transactionId: string,
    version: string,
    claimAt: string, earnedAt: string, stampedAt: string, minedAt: string,
    append: AppendOutcome,
    firstSave: bool, secondSave: bool)

  // --------------------------------------------------------------------- book

  /** A chain always holds its genesis block. */
  type Chain = c: seq<Block> | c != [] witness [GenesisBlock("", "")]

  /** Index and global chain in memory, one append-only log per player on disk. */
  datatype Book = Book(index: Index, chain: Chain, logs: map<string, seq<Block>>)

  function LogOf(logs: map<string, seq<Block>>, player: string): seq<Block> {
    if player in logs then logs[player] else []
  }

  function AppendLog(logs: map<string, seq<Block>>, player: string, block: Block, outcome: AppendOutcome)
    : map<string, seq<Block>>
  {
    match outcome
    case Dropped(created) => if created then logs[player := LogOf(logs, player)] else logs
    case _ => logs[player := LogOf(logs, player) + [block]]
  }

  /** Mine a block for one transaction on top of the chain and append it to the player's log. */
  function AddRecord(env: Env, b: Book, t: Transaction, io: Inputs): Book
  {
    var block := Mined(env.hash, b.chain[|b.chain| - 1].blockHash, [t], io.minedAt, io.version);
    b.(chain := b.chain + [block],
       logs := if env.isUuid(t.playerId) then AppendLog(b.logs, t.playerId, block, io.append) else b.logs)
  }

  function ChangeTransaction(env: Env, profile: PlayerProfile, io: Inputs): Transaction {
    var digest := env.profileDigest(profile);
    Transaction(io.transactionId, profile.playerId, "profile_change", io.stampedAt, digest, "",
                ProfileChanged(ProfileChange(digest, profile)))
  }

  function AwardTransaction(env: Env, player: string, kind: string, details: TransactionData, io: Inputs): Transaction {
    Transaction(io.transactionId, player, kind, io.stampedAt, env.awardDigest(details), "", details)
  }

  /** `log_change`; a malformed player id is silently not written. */
  function LogChange(env: Env, b: Book, profile: PlayerProfile, io: Inputs): (Book, Result<()>)
  {
    (AddRecord(env, b, ChangeTransaction(env, profile, io), io),
     if env.isUuid(profile.playerId) && !io.append.Appended? then Err(Other) else Ok(()))
  }

  /** `create_profile`: an existing profile is replaced, its rewards are kept. */
  function CreateProfile(env: Env, b: Book, player: string, name: string, io: Inputs): (Book, Result<PlayerProfile>)
  {
    var profile := PlayerProfile(player, name, New(DEFAULT_DIM));
    var index := Index(b.index.profiles[player := profile],
                       b.index.rewards[player := RewardsOf(b.index.rewards, player)]);
    var (after, result) := LogChange(env, b.(index := index), profile, io);
    (after, if result.Ok? then Ok(profile) else Err(result.kind))
  }

  function ReplaceVector(env: Env, b: Book, player: string, vec: BitVec, io: Inputs): (Book, Result<()>)
    requires player in b.index.profiles
  {
    var profile := b.index.profiles[player].(profileVec := vec);
    LogChange(env, b.(index := b.index.(profiles := b.index.profiles[player := profile])), profile, io)
  }

  /** `set_vector` */
  function SetVector(env: Env, b: Book, player: string, vec: BitVec, io: Inputs): (Book, Result<()>)
  {
    if player in b.index.profiles then ReplaceVector(env, b, player, vec, io) else (b, Err(NotFound))
  }

  /** The dimensions `merge_vector` needs to agree, or it panics before changing anything. */
  predicate Mergeable(b: Book, player: string, vec: BitVec) {
    player in b.index.profiles ==> b.index.profiles[player].profileVec.dim == vec.dim
  }

  /** `merge_vector` */
  function MergeVector(env: Env, b: Book, player: string, vec: BitVec, io: Inputs): (Book, Result<()>)
    requires Mergeable(b, player, vec)
  {
    if player in b.index.profiles
    then ReplaceVector(env, b, player, Xor(b.index.profiles[player].profileVec, vec), io)
    else (b, Err(NotFound))
  }

  datatype AwardRecord = AwardRecord(
    playerId: string, transactionId: string, transactionType: string, timestamp: string,
    dataHash: string, blockHash: string, details: TransactionData)

  /** The receipt for the transaction of a block. */
  function Receipt(t: Transaction, block: Block): AwardRecord {
    AwardRecord(t.playerId, t.transactionId, t.transactionType, t.timestamp, t.dataHash, block.blockHash, t.details)
  }

  function GrantedEntitlement(def: EntitlementDefinition, quantity: nat, expirationDate: Option<string>): Entitlement {
    Entitlement(def.developer, def.game, def.entitlementId, def.version, def.itemType, def.itemId,
                quantity, def.description, expirationDate)
  }

  function AwardedAchievement(def: AchievementDefinition, io: Inputs): Achievement {
    Achievement(def.developer, def.game, def.achievementId, def.version, def.name, def.description,
                io.earnedAt, "")
  }

  /** The tail both award operations share: memory is already changed when storage answers. */
  function FinishAward(env: Env, b: Book, t: Transaction, io: Inputs): (Book, Result<AwardRecord>)
  {
    var after := AddRecord(env, b, t, io);
    (after,
     if env.isUuid(t.playerId) && io.append.Appended?
     then Ok(Receipt(t, after.chain[|b.chain|]))
     else Err(Other))
  }

  /** `award_entitlement` */
  function AwardEntitlement(env: Env, b: Book, player: string, def: EntitlementDefinition, quantity: nat,
                            expirationDate: Option<string>, io: Inputs): (Book, Result<AwardRecord>)
  {
    if player !in b.index.profiles then (b, Err(NotFound))
    else
      var e := GrantedEntitlement(def, quantity, expirationDate);
      var index := b.index.(rewards := PushEntitlement(b.index.rewards, player, e));
      FinishAward(env, b.(index := index), AwardTransaction(env, player, "entitlement", EntitlementGranted(e), io), io)
  }

  /** `award_achievement` */
  function AwardAchievement(env: Env, b: Book, player: string, def: AchievementDefinition, io: Inputs)
    : (Book, Result<AwardRecord>)
  {
    if player !in b.index.profiles then (b, Err(NotFound))
    else
      var a := AwardedAchievement(def, io);
      var index := b.index.(rewards := PushAchievement(b.index.rewards, player, a));
      FinishAward(env, b.(index := index), AwardTransaction(env, player, "achievement", AchievementAwarded(a), io), io)
  }

  // ------------------------------------------------------------------- replay

  /** Insertion from the right, after every block that is not later: a stable sort. */
  function InsertByTime(sorted: seq<Block>, b: Block): (r: seq<Block>)
    ensures |r| == |sorted| + 1
  {
    if sorted == [] || TextLe(sorted[|sorted| - 1].timestamp, b.timestamp) then sorted + [b]
    else InsertByTime(sorted[..|sorted| - 1], b) + [sorted[|sorted| - 1]]
  }

  /** `sort_by_key` on the timestamp. */
  function SortByTime(blocks: seq<Block>): seq<Block> {
    if blocks == [] then [] else InsertByTime(SortByTime(blocks[..|blocks| - 1]), blocks[|blocks| - 1])
  }

  predicate SortedByTime(blocks: seq<Block>) {
    forall i, j | 0 <= i <= j < |blocks| :: TextLe(blocks[i].timestamp, blocks[j].timestamp)
  }

  function HashesOf(blocks: seq<Block>): set<string> {
    set b | b in blocks :: b.blockHash
  }

  /** Keep the first block of every hash. */
  function DedupByHash(blocks: seq<Block>): seq<Block> {
    if blocks == [] then []
    else
      var init, b := blocks[..|blocks| - 1], blocks[|blocks| - 1];
      DedupByHash(init) + (if b.blockHash in HashesOf(init) then [] else [b])
  }

  /** Which reads of a restart fail. */
  datatype ReadFaults = ReadFaults(listing: bool, blocks: set<string>, claims: set<string>)

  const NO_FAULTS := ReadFaults(false, {}, {})

  /** `ids` lists the players that have a log file, each once, in any order. */
  predicate Lists(ids: seq<string>, logs: map<string, seq<Block>>) {
    && (forall p | p in ids :: p in logs)
    && (forall p | p in logs :: p in ids)
    && (forall i, j | 0 <= i < j < |ids| :: ids[i] != ids[j])
  }

  /** The verified blocks of the listed players, player after player. */
  function ReplayedBlocks(hash: Preimage -> string, logs: map<string, seq<Block>>, ids: seq<string>,
                          faults: ReadFaults): seq<Block>
  {
    if ids == [] then []
    else
      var id := ids[|ids| - 1];
      ReplayedBlocks(hash, logs, ids[..|ids| - 1], faults)
      + (if id in faults.blocks then [] else Verified(hash, GENESIS_HASH, LogOf(logs, id)))
  }

  /** The ledger half of `PlayerProfileService::new`. */
  function ReplayBook(env: Env, logs: map<string, seq<Block>>, ids: seq<string>, faults: ReadFaults, now: Launch)
    : Book
  {
    var blocks := if faults.listing then [] else ReplayedBlocks(env.hash, logs, ids, faults);
    Book(ApplyBlocks(EMPTY_INDEX, blocks),
         [GenesisBlock(now.at, now.version)] + DedupByHash(SortByTime(blocks)),
         logs)
  }
}
