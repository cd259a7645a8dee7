/** What every operation of the service changes and answers, field by field, whatever storage
    answers.  Nothing here is said through the functions that compute the new state. */
module Effects {
  import opened Common
  import BitWords
  import opened BitVectors
  import opened Blockchain
  import opened Registry
  import opened Journal

  // ------------------------------------------------------------------ the ledger

  predicate OpensWithZeros(hash: string) {
    |hash| >= 2 && hash[0] == '0' && hash[1] == '0'
  }

  /** The block mined for one transaction on top of `tip`: no smaller nonce would have done. */
  ghost predicate MinedFor(env: Env, tip: string, block: Block, t: Transaction, io: Inputs) {
    && block.previousBlockHash == tip && block.transactions == [t]
    && block.timestamp == io.minedAt && block.appVersion == io.version
    && block.blockHash == env.hash(Preimage(tip, [t], io.minedAt, io.version, block.nonce))
    && OpensWithZeros(block.blockHash)
    && forall n: nat | n < block.nonce :: !OpensWithZeros(env.hash(Preimage(tip, [t], io.minedAt, io.version, n)))
  }

  /** The chain gains one block, for this transaction; the block reaches the log of the
      transaction's player if its id parses and storage wrote it, and no other log. */
  ghost predicate Records(env: Env, b: Book, after: Book, t: Transaction, io: Inputs) {
    && |after.chain| == |b.chain| + 1 && after.chain[..|b.chain|] == b.chain
    && MinedFor(env, b.chain[|b.chain| - 1].blockHash, after.chain[|b.chain|], t, io)
    && (forall p: string :: LogOf(after.logs, p)
                            == LogOf(b.logs, p)
                               + (if p == t.playerId && env.isUuid(p) && !io.append.Dropped?
                                  then [after.chain[|b.chain|]] else []))
    && (forall p: string :: p in after.logs
                            <==> p in b.logs || (p == t.playerId && env.isUuid(p) && io.append != Dropped(false)))
  }

  lemma MinedForOne(env: Env, tip: string, t: Transaction, io: Inputs)
    ensures MinedFor(env, tip, Mined(env.hash, tip, [t], io.minedAt, io.version), t, io)
  {
    var block := Mined(env.hash, tip, [t], io.minedAt, io.version);
    forall n: nat | n < block.nonce
      ensures !OpensWithZeros(env.hash(Preimage(tip, [t], io.minedAt, io.version, n)))
    {
      WinsIsZeros(env.hash, BlockPreimage(block), n);
      assert n < NONCE_LIMIT;
    }
    WinsIsZeros(env.hash, BlockPreimage(block), block.nonce);
  }

  lemma WinsIsZeros(hash: Hasher, p: Preimage, n: nat)
    ensures Wins(hash, p, n) <==> n < NONCE_LIMIT && OpensWithZeros(hash(p.(nonce := n)))
  {
    var h := hash(p.(nonce := n));
    assert |h| >= 2 ==> h[..2] == [h[0], h[1]];
  }

  lemma AddRecordRecords(env: Env, b: Book, t: Transaction, io: Inputs)
    ensures var after := AddRecord(env, b, t, io);
      Records(env, b, after, t, io) && after.index == b.index
  {
    hide Mined, MinedFor;
    MinedForOne(env, b.chain[|b.chain| - 1].blockHash, t, io);
  }

  // -------------------------------------------------------------------- profiles

  /** No profile but this player's changes. */
  predicate OtherProfilesKept(a: Index, b: Index, player: string) {
    a.profiles - {player} == b.profiles - {player}
  }

  /** Everybody's entitlements and achievements stay. */
  ghost predicate RewardsKept(a: Index, b: Index) {
    forall p: string :: RewardsOf(a.rewards, p) == RewardsOf(b.rewards, p)
  }

  /** The transaction of a profile change carries the whole profile. */
  function ProfileEntry(env: Env, profile: PlayerProfile, io: Inputs): Transaction {
    Transaction(io.transactionId, profile.playerId, "profile_change", io.stampedAt, env.profileDigest(profile), "",
                ProfileChanged(ProfileChange(env.profileDigest(profile), profile)))
  }

  /** A change of a profile that parses fails exactly when its append fails. */
  predicate ChangeAnswer<T>(env: Env, id: string, io: Inputs, result: Result<T>) {
    && (result.Err? <==> env.isUuid(id) && !io.append.Appended?)
    && (result.Err? ==> result.kind == Other)
  }

  /** One profile is what changes, in memory and in a new block, even when the append fails. */
  ghost predicate ProfileBecomes(env: Env, b: Book, after: Book, player: string, profile: PlayerProfile, io: Inputs) {
    && player in after.index.profiles && after.index.profiles[player] == profile
    && OtherProfilesKept(b.index, after.index, player)
    && RewardsKept(b.index, after.index)
    && Records(env, b, after, ProfileEntry(env, profile, io), io)
  }

  /** A created profile has the given name and 16384 false bits; the player's rewards stay. */
  lemma CreatedProfile(env: Env, b: Book, player: string, name: string, io: Inputs)
    ensures var (after, result) := CreateProfile(env, b, player, name, io);
      && player in after.index.profiles && player in after.index.rewards
      && var profile := after.index.profiles[player];
         && profile.playerId == player && profile.name == name
         && WellFormed(profile.profileVec) && profile.profileVec.dim == 16384
         && (forall i: nat | i < 16384 :: !Bits(profile.profileVec)[i])
         && ProfileBecomes(env, b, after, player, profile, io)
         && ChangeAnswer(env, player, io, result)
         && (result.Ok? ==> result.value == profile)
  {
    hide New, Mined, MinedFor, AddRecord, Records;
    NewIsAllFalse(DEFAULT_DIM);
    assert New(DEFAULT_DIM).dim == DEFAULT_DIM by { NewDim(DEFAULT_DIM); }
    var profile := PlayerProfile(player, name, New(DEFAULT_DIM));
    var index := Index(b.index.profiles[player := profile],
                       b.index.rewards[player := RewardsOf(b.index.rewards, player)]);
    AddRecordRecords(env, b.(index := index), ProfileEntry(env, profile, io), io);
    RecordsIgnoresIndex(env, b, index, AddRecord(env, b.(index := index), ProfileEntry(env, profile, io), io),
                        ProfileEntry(env, profile, io), io);
  }

  lemma NewDim(dim: nat)
    ensures New(dim).dim == dim
  {
  }

  lemma RecordsIgnoresIndex(env: Env, b: Book, index: Index, after: Book, t: Transaction, io: Inputs)
    requires Records(env, b.(index := index), after, t, io)
    ensures Records(env, b, after, t, io)
  {
  }

  lemma ReplacedVector(env: Env, b: Book, player: string, vec: BitVec, io: Inputs)
    requires player in b.index.profiles
    ensures var (after, result) := ReplaceVector(env, b, player, vec, io);
      var prior := b.index.profiles[player];
      && ProfileBecomes(env, b, after, player, PlayerProfile(prior.playerId, prior.name, vec), io)
      && ChangeAnswer(env, prior.playerId, io, result)
  {
    hide Mined, MinedFor, AddRecord, Records;
    var prior := b.index.profiles[player];
    var profile := PlayerProfile(prior.playerId, prior.name, vec);
    var index := b.index.(profiles := b.index.profiles[player := profile]);
    AddRecordRecords(env, b.(index := index), ProfileEntry(env, profile, io), io);
    RecordsIgnoresIndex(env, b, index, AddRecord(env, b.(index := index), ProfileEntry(env, profile, io), io),
                        ProfileEntry(env, profile, io), io);
  }

  /** Setting a vector stores exactly that vector; name and id stay. */
  lemma VectorIsSet(env: Env, b: Book, player: string, vec: BitVec, io: Inputs)
    ensures var (after, result) := SetVector(env, b, player, vec, io);
      if player in b.index.profiles then
        var prior := b.index.profiles[player];
        && ProfileBecomes(env, b, after, player, PlayerProfile(prior.playerId, prior.name, vec), io)
        && ChangeAnswer(env, prior.playerId, io, result)
      else after == b && result == Err(NotFound)
  {
    hide ProfileBecomes, ReplaceVector;
    if player in b.index.profiles {
      ReplacedVector(env, b, player, vec, io);
    }
  }

  /** Every stored bit of a vector, padding included. */
  function StoredBits(v: BitVec): (bits: seq<bool>)
    ensures |bits| == 64 * |v.lanes|
    ensures forall i: nat | i < |bits| :: bits[i] == GetBit(v, i)
  {
    seq(64 * |v.lanes|, i requires 0 <= i < 64 * |v.lanes| => GetBit(v, i))
  }

  /** Bit by bit the merge of two vectors: true where exactly one of them is, as far as both go. */
  function Merged(a: seq<bool>, b: seq<bool>): (m: seq<bool>)
    ensures |m| == if |a| < |b| then |a| else |b|
    ensures forall i: nat | i < |m| :: m[i] <==> a[i] != b[i]
  {
    seq(if |a| < |b| then |a| else |b|, i requires 0 <= i < |a| && i < |b| => a[i] != b[i])
  }

  lemma XorMerges(a: BitVec, b: BitVec)
    requires a.dim == b.dim
    ensures Xor(a, b).dim == a.dim
    ensures StoredBits(Xor(a, b)) == Merged(StoredBits(a), StoredBits(b))
  {
    var x := Xor(a, b);
    assert |x.lanes| == if |a.lanes| < |b.lanes| then |a.lanes| else |b.lanes|;
    forall i: nat | i < 64 * |x.lanes|
      ensures GetBit(x, i) <==> GetBit(a, i) != GetBit(b, i)
    {
      BitWords.BitOfXor(a.lanes[i / 64], b.lanes[i / 64], i % 64);
    }
  }

  /** Merging stores the bitwise difference of the stored vector and the given one, for any lanes
      the two may have; on well-formed vectors that is the difference of their bits. */
  lemma VectorIsMerged(env: Env, b: Book, player: string, vec: BitVec, io: Inputs)
    requires Mergeable(b, player, vec)
    ensures var (after, result) := MergeVector(env, b, player, vec, io);
      if player in b.index.profiles then
        && player in after.index.profiles
        && var prior, profile := b.index.profiles[player], after.index.profiles[player];
           && profile.playerId == prior.playerId && profile.name == prior.name && profile.profileVec.dim == vec.dim
           && StoredBits(profile.profileVec) == Merged(StoredBits(prior.profileVec), StoredBits(vec))
           && (WellFormed(prior.profileVec) && WellFormed(vec) ==>
                 && WellFormed(profile.profileVec)
                 && Bits(profile.profileVec) == Differences(Bits(prior.profileVec), Bits(vec)))
           && ProfileBecomes(env, b, after, player, profile, io)
           && ChangeAnswer(env, prior.playerId, io, result)
      else after == b && result == Err(NotFound)
  {
    hide ProfileBecomes, ReplaceVector, Xor, WellFormed, StoredBits, Merged, Bits, Differences;
    if player in b.index.profiles {
      var prior := b.index.profiles[player];
      XorMerges(prior.profileVec, vec);
      if WellFormed(prior.profileVec) && WellFormed(vec) {
        XorBits(prior.profileVec, vec);
      }
      var merged := Xor(prior.profileVec, vec);
      ReplacedVector(env, b, player, merged, io);
      var after := ReplaceVector(env, b, player, merged, io).0;
      assert after.index.profiles[player] == PlayerProfile(prior.playerId, prior.name, merged)
             && player in after.index.profiles by {
        Becomes(env, b, after, player, PlayerProfile(prior.playerId, prior.name, merged), io);
      }
    }
  }

  lemma Becomes(env: Env, b: Book, after: Book, player: string, profile: PlayerProfile, io: Inputs)
    requires ProfileBecomes(env, b, after, player, profile, io)
    ensures player in after.index.profiles && after.index.profiles[player] == profile
    ensures OtherProfilesKept(b.index, after.index, player)
  {
  }

  /** Merging the same vector twice restores every profile, and two merges commute. */
  lemma MergesCancelAndCommute(env: Env, b: Book, player: string, v: BitVec, w: BitVec, io: Inputs, io': Inputs)
    requires player in b.index.profiles
    requires WellFormed(b.index.profiles[player].profileVec) && WellFormed(v) && WellFormed(w)
    requires b.index.profiles[player].profileVec.dim == v.dim == w.dim
    ensures var once := MergeVector(env, b, player, v, io).0;
      && Mergeable(once, player, v) && Mergeable(once, player, w)
      && MergeVector(env, once, player, v, io').0.index.profiles == b.index.profiles
      && var other := MergeVector(env, b, player, w, io').0;
         && Mergeable(other, player, v)
         && MergeVector(env, once, player, w, io').0.index.profiles
            == MergeVector(env, other, player, v, io).0.index.profiles
  {
    hide MergeVector, GetBit, StoredBits, Merged, Bits, Differences, Records, RewardsKept;
    var prior := b.index.profiles[player];
    var once, other := MergeVector(env, b, player, v, io).0, MergeVector(env, b, player, w, io').0;
    VectorIsMerged(env, b, player, v, io);
    VectorIsMerged(env, b, player, w, io');
    var twice := MergeVector(env, once, player, v, io').0;
    VectorIsMerged(env, once, player, v, io');
    var vw, wv := MergeVector(env, once, player, w, io').0, MergeVector(env, other, player, v, io).0;
    VectorIsMerged(env, once, player, w, io');
    VectorIsMerged(env, other, player, v, io);
    DifferencesCancel(Bits(prior.profileVec), Bits(v), Bits(w));
    BitsDetermineVector(twice.index.profiles[player].profileVec, prior.profileVec);
    BitsDetermineVector(vw.index.profiles[player].profileVec, wv.index.profiles[player].profileVec);
    SameProfiles(b.index.profiles, twice.index.profiles, player);
    SameProfiles(vw.index.profiles, wv.index.profiles, player);
  }

  lemma DifferencesCancel(a: seq<bool>, b: seq<bool>, c: seq<bool>)
    requires |a| == |b| == |c|
    ensures Differences(Differences(a, b), b) == a
    ensures Differences(Differences(a, b), c) == Differences(Differences(a, c), b)
  {
  }

  lemma SameProfiles(a: map<string, PlayerProfile>, b: map<string, PlayerProfile>, player: string)
    requires player in a && player in b && a[player] == b[player] && a - {player} == b - {player}
    ensures a == b
  {
    assert a == (a - {player})[player := a[player]];
    assert b == (b - {player})[player := b[player]];
  }

  // ---------------------------------------------------------------------- awards

  /** What one award adds to a player's rewards. */
  ghost predicate RewardsGain(a: Index, b: Index, player: string, entitlements: seq<Entitlement>,
                              achievements: seq<Achievement>)
  {
    && (forall p: string | p != player :: RewardsOf(b.rewards, p) == RewardsOf(a.rewards, p))
    && RewardsOf(b.rewards, player).entitlements == RewardsOf(a.rewards, player).entitlements + entitlements
    && RewardsOf(b.rewards, player).achievements == RewardsOf(a.rewards, player).achievements + achievements
    && a.profiles == b.profiles
  }

  /** The receipt repeats the transaction and names its block; there is none when the id does
      not parse or the append fails. */
  predicate AwardAnswer(env: Env, t: Transaction, block: Block, io: Inputs, result: Result<AwardRecord>) {
    result == if env.isUuid(t.playerId) && io.append.Appended?
              then Ok(AwardRecord(t.playerId, t.transactionId, t.transactionType, t.timestamp, t.dataHash,
                                  block.blockHash, t.details))
              else Err(Other)
  }

  function AwardEntry(env: Env, player: string, kind: string, details: TransactionData, io: Inputs): Transaction {
    Transaction(io.transactionId, player, kind, io.stampedAt, env.awardDigest(details), "", details)
  }

  /** Finishing an award records its transaction and answers with its receipt. */
  lemma AwardIsFinished(env: Env, b: Book, index: Index, t: Transaction, io: Inputs)
    ensures var (after, result) := FinishAward(env, b.(index := index), t, io);
      && after.index == index
      && Records(env, b, after, t, io)
      && AwardAnswer(env, t, after.chain[|b.chain|], io, result)
  {
    hide AddRecord, MinedFor;
    AddRecordRecords(env, b.(index := index), t, io);
    RecordsIgnoresIndex(env, b, index, AddRecord(env, b.(index := index), t, io), t, io);
  }

  /** What a grant of a definition holds. */
  function EntitlementOf(def: EntitlementDefinition, quantity: nat, expiration: Option<string>): Entitlement {
    Entitlement(def.developer, def.game, def.entitlementId, def.version, def.itemType, def.itemId,
                quantity, def.description, expiration)
  }

  /** A known player is granted one more entitlement, with the fields of the definition, the
      quantity and the expiration, in memory and in a new block, even when the append fails. */
  lemma EntitlementIsGranted(env: Env, b: Book, player: string, def: EntitlementDefinition, quantity: nat,
                             expiration: Option<string>, io: Inputs)
    ensures var (after, result) := AwardEntitlement(env, b, player, def, quantity, expiration, io);
      if player in b.index.profiles then
        var e := EntitlementOf(def, quantity, expiration);
        var t := AwardEntry(env, player, "entitlement", EntitlementGranted(e), io);
        && RewardsGain(b.index, after.index, player, [e], [])
        && Records(env, b, after, t, io)
        && AwardAnswer(env, t, after.chain[|b.chain|], io, result)
      else after == b && result == Err(NotFound)
  {
    hide FinishAward, Records, MinedFor, AwardAnswer;
    if player in b.index.profiles {
      var e := GrantedEntitlement(def, quantity, expiration);
      var index := b.index.(rewards := PushEntitlement(b.index.rewards, player, e));
      AwardIsFinished(env, b, index, AwardTransaction(env, player, "entitlement", EntitlementGranted(e), io), io);
    }
  }

  /** One achievement of this definition is awarded, in memory and in a new block. */
  ghost predicate Awards(env: Env, b: Book, after: Book, player: string, def: AchievementDefinition, io: Inputs) {
    && RewardsGain(b.index, after.index, player, [], [AchievementOf(def, io.earnedAt)])
    && Records(env, b, after, AchievementEntry(env, player, def, io), io)
  }

  /** Name and criteria come from the definition, the time from the clock. */
  function AchievementOf(def: AchievementDefinition, at: string): Achievement {
    Achievement(def.developer, def.game, def.achievementId, def.version, def.name, def.description, at, "")
  }

  function AchievementEntry(env: Env, player: string, def: AchievementDefinition, io: Inputs): Transaction {
    AwardEntry(env, player, "achievement", AchievementAwarded(AchievementOf(def, io.earnedAt)), io)
  }

  /** The same for achievements. */
  lemma AchievementIsAwarded(env: Env, b: Book, player: string, def: AchievementDefinition, io: Inputs)
    ensures var (after, result) := AwardAchievement(env, b, player, def, io);
      if player in b.index.profiles then
        && Awards(env, b, after, player, def, io)
        && AwardAnswer(env, AchievementEntry(env, player, def, io), after.chain[|b.chain|], io, result)
      else after == b && result == Err(NotFound)
  {
    hide FinishAward, Records, MinedFor, AwardAnswer;
    if player in b.index.profiles {
      var a := AwardedAchievement(def, io);
      var index := b.index.(rewards := PushAchievement(b.index.rewards, player, a));
      AwardIsFinished(env, b, index, AwardTransaction(env, player, "achievement", AchievementAwarded(a), io), io);
    }
  }
}
