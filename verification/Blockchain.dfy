/** The hash chain: blocks, mining, validity, and what validity pins down. */
module Blockchain {
  import opened Common
  import opened BitVectors

  // ------------------------------------------------------------------ entities

  datatype Entitlement = Entitlement(
    developer: string, game: string, entitlementId: string, version: nat, itemType: string, itemId: string,
    quantity: nat, metadata: string, expirationDate: Option<string>)

  datatype Achievement = Achievement(
    developer: string, game: string, achievementId: string, version: nat, achievementName: string,
    criteria: string, timestampEarned: string, metadata: string)

  datatype PlayerProfile = PlayerProfile(playerId: string, name: string, profileVec: BitVec)

  datatype ProfileChange = ProfileChange(profileHash: string, profile: PlayerProfile)

  datatype TransactionData =
    | EntitlementGranted(entitlement: Entitlement)
    | AchievementAwarded(achievement: Achievement)
    | ProfileChanged(change: ProfileChange)

  datatype Transaction = Transaction(
    transactionId: string, playerId: string, transactionType: string, timestamp: string,
    dataHash: string, signature: string, details: TransactionData)

  datatype Block = Block(
    blockHash: string, previousBlockHash: string, timestamp: string, appVersion: string,
    nonce: nat, transactions: seq<Transaction>)

  /** Everything a block hash is computed from. */
  datatype Preimage = Preimage(
    previousBlockHash: string, transactions: seq<Transaction>, timestamp: string, appVersion: string, nonce: nat)

  function BlockPreimage(b: Block): Preimage {
    Preimage(b.previousBlockHash, b.transactions, b.timestamp, b.appVersion, b.nonce)
  }

  const GENESIS_HASH := "0"
  const NONCE_LIMIT: nat := 0x1_0000_0000_0000_0000

  function GenesisBlock(timestamp: string, version: string): Block {
    Block(GENESIS_HASH, GENESIS_HASH, timestamp, version, 0, [])
  }

  // --------------------------------------------------------------- the hash

  /** The block hash with this `u64` nonce starts with "00". */
  predicate Wins(hash: Preimage -> string, p: Preimage, nonce: nat) {
    && nonce < NONCE_LIMIT
    && |hash(p.(nonce := nonce))| >= 2
    && hash(p.(nonce := nonce))[..2] == "00"
  }

  ghost predicate SomeNonceWins(hash: Preimage -> string, p: Preimage) {
    exists nonce: nat :: Wins(hash, p, nonce)
  }

  ghost predicate Minable(hash: Preimage -> string) {
    forall p: Preimage :: SomeNonceWins(hash, p)
  }

  /** `calculate_hash`, uninterpreted, for which some `u64` nonce always wins: without one
      the mining loop of the source never ends. */
  type Hasher = hash: Preimage -> string | Minable(hash) ghost witness EasyHash()

  function EasyHash(): (hash: Preimage -> string)
    ensures Minable(hash)
  {
    var hash := (p: Preimage) => "00";
    assert Minable(hash) by {
      forall p: Preimage
        ensures SomeNonceWins(hash, p)
      {
        assert Wins(hash, p, 0);
      }
    }
    hash
  }

  /** A timestamp as `Utc::now().to_rfc3339()` prints it: the offset +00:00 closes it. */
  predicate IsStamp(s: string) {
    && |s| >= 6
    && s[|s| - 6..] == "+00:00"
    && '+' !in s[..|s| - 6]
  }

  /** A preimage the service can produce. */
  predicate WellStamped(p: Preimage) {
    '[' !in p.previousBlockHash && IsStamp(p.timestamp)
  }

  predicate Proper(p: Preimage, version: string) {
    p.appVersion == version && WellStamped(p)
  }

  /** No hash is the genesis hash, and none holds a bracket, which is how the JSON text opens. */
  ghost predicate PlainHash(hash: Preimage -> string) {
    forall p: Preimage :: hash(p) != GENESIS_HASH && '[' !in hash(p)
  }

  /** All that two preimages have in common but the version and the nonce. */
  predicate SameContent(p: Preimage, q: Preimage) {
    p.previousBlockHash == q.previousBlockHash && p.transactions == q.transactions && p.timestamp == q.timestamp
  }

  /** A hash pins down previous hash, transactions and timestamp, across all versions. */
  ghost predicate Binding(hash: Preimage -> string) {
    && (forall p, q | WellStamped(p) && WellStamped(q) && hash(p) == hash(q) :: SameContent(p, q))
    && PlainHash(hash)
  }

  /** At one version no two preimages collide. */
  ghost predicate CollisionFree(hash: Preimage -> string, version: string) {
    && (forall p, q: Preimage | Proper(p, version) && Proper(q, version) && hash(p) == hash(q) :: p == q)
    && PlainHash(hash)
  }

  // -------------------------------------------------------------------- mining

  /** The least winning nonce from `from` on. */
  function NonceFrom(hash: Hasher, p: Preimage, from: nat): (nonce: nat)
    requires exists n: nat | from <= n :: Wins(hash, p, n)
    ensures Wins(hash, p, nonce) && from <= nonce
    ensures forall n: nat | from <= n < nonce :: !Wins(hash, p, n)
    decreases NONCE_LIMIT - from
  {
    if Wins(hash, p, from) then from else NonceFrom(hash, p, from + 1)
  }

  /** The block `create_block` returns: the least nonce whose hash starts with "00". */
  function Mined(hash: Hasher, previousHash: string, transactions: seq<Transaction>, timestamp: string,
                 version: string): (b: Block)
    ensures b.previousBlockHash == previousHash && b.transactions == transactions
    ensures b.timestamp == timestamp && b.appVersion == version
    ensures b.blockHash == hash(BlockPreimage(b))
    ensures Wins(hash, BlockPreimage(b), b.nonce)
    ensures forall n: nat | n < b.nonce :: !Wins(hash, BlockPreimage(b), n)
  {
    var p := Preimage(previousHash, transactions, timestamp, version, 0);
    assert SomeNonceWins(hash, p);
    var nonce := NonceFrom(hash, p, 0);
    SameExceptNonce(hash, p, nonce);
    Block(hash(p.(nonce := nonce)), previousHash, timestamp, version, nonce, transactions)
  }

  lemma SameExceptNonce(hash: Preimage -> string, p: Preimage, nonce: nat)
    ensures forall n: nat :: Wins(hash, p.(nonce := nonce), n) <==> Wins(hash, p, n)
  {
    assert forall n: nat :: p.(nonce := nonce).(nonce := n) == p.(nonce := n);
  }

  // ------------------------------------------------------------------ validity

  /** A block that continues a chain whose last hash is `tip`. */
  predicate Accepts(hash: Preimage -> string, tip: string, b: Block) {
    b.previousBlockHash == tip && b.blockHash == hash(BlockPreimage(b))
  }

  /** Every block after the first links to its predecessor and carries its own hash. */
  predicate ValidChain(hash: Preimage -> string, chain: seq<Block>) {
    forall i | 1 <= i < |chain| :: Accepts(hash, chain[i - 1].blockHash, chain[i])
  }

  /** A valid chain that starts at the genesis hash. */
  ghost predicate GoodChain(hash: Preimage -> string, chain: seq<Block>) {
    && chain != []
    && chain[0].blockHash == GENESIS_HASH
    && ValidChain(hash, chain)
    && forall i | 1 <= i < |chain| :: WellStamped(BlockPreimage(chain[i]))
  }

  predicate OneVersion(chain: seq<Block>, version: string) {
    forall i | 1 <= i < |chain| :: chain[i].appVersion == version
  }

  class Blockchain {
    var chain: seq<Block>

    /** `Blockchain::new` */
    constructor (timestamp: string, version: string)
      ensures chain == [GenesisBlock(timestamp, version)]
      ensures chain == [Block("0", "0", timestamp, version, 0, [])]
    {
      chain := [GenesisBlock(timestamp, version)];
    }

    /** `add_block`: mine on top of the latest block. */
    method AddBlock(hash: Hasher, transactions: seq<Transaction>, timestamp: string, version: string)
      modifies this
      ensures old(chain) == [] ==> chain == []
      ensures old(chain) != [] ==>
                chain == old(chain) + [Mined(hash, old(chain)[|old(chain)| - 1].blockHash, transactions,
                                             timestamp, version)]
      ensures ValidChain(hash, old(chain)) ==> ValidChain(hash, chain)
    {
      if chain != [] {
        var block := CreateBlock(hash, chain[|chain| - 1], transactions, timestamp, version);
        chain := chain + [block];
      }
    }

    /** `is_valid_chain` */
    method IsValidChain(hash: Preimage -> string) returns (valid: bool)
      ensures valid == ValidChain(hash, chain)
    {
      var i := 1;
      while i < |chain|
        invariant 1 <= i
        invariant forall j | 1 <= j < i && j < |chain| :: Accepts(hash, chain[j - 1].blockHash, chain[j])
      {
        var current, previous := chain[i], chain[i - 1];
        if current.previousBlockHash != previous.blockHash {
          return false;
        }
        var recalculated := hash(Preimage(current.previousBlockHash, current.transactions, current.timestamp,
                                          current.appVersion, current.nonce));
        if current.blockHash != recalculated {
          return false;
        }
        i := i + 1;
      }
      return true;
    }
  }

  /** `create_block`: try nonces upwards until the hash starts with "00". */
  method CreateBlock(hash: Hasher, previous: Block, transactions: seq<Transaction>, timestamp: string,
                     version: string)
    returns (block: Block)
    ensures block == Mined(hash, previous.blockHash, transactions, timestamp, version)
  {
    ghost var p := Preimage(previous.blockHash, transactions, timestamp, version, 0);
    assert SomeNonceWins(hash, p);
    ghost var least := NonceFrom(hash, p, 0);
    var nonce := 0;
    var blockHash := hash(Preimage(previous.blockHash, transactions, timestamp, version, nonce));
    while !(|blockHash| >= 2 && blockHash[..2] == "00")
      invariant nonce <= least
      invariant blockHash == hash(p.(nonce := nonce))
      decreases least - nonce
    {
      nonce := nonce + 1;
      blockHash := hash(Preimage(previous.blockHash, transactions, timestamp, version, nonce));
    }
    assert Wins(hash, p, nonce);
    block := Block(blockHash, previous.blockHash, timestamp, version, nonce, transactions);
  }

  // ----------------------------------------------------------- tamper evidence

  /** In a good chain a block after the genesis block never carries the genesis hash. */
  lemma OnlyGenesisIsZero(hash: Preimage -> string, chain: seq<Block>, i: nat)
    requires PlainHash(hash) && GoodChain(hash, chain) && 0 < i < |chain|
    ensures chain[i].blockHash != GENESIS_HASH
  {
    assert Accepts(hash, chain[i - 1].blockHash, chain[i]);
  }

  /** Equal hashes at one version mean equal blocks. */
  lemma SameHashSameBlock(hash: Preimage -> string, version: string, a: Block, b: Block)
    requires CollisionFree(hash, version)
    requires Proper(BlockPreimage(a), version) && Proper(BlockPreimage(b), version)
    requires a.blockHash == hash(BlockPreimage(a)) && b.blockHash == hash(BlockPreimage(b))
    requires a.blockHash == b.blockHash
    ensures a == b
  {
    assert BlockPreimage(a) == BlockPreimage(b);
  }

  /** Two blocks of chains of any versions that agree in everything but version and nonce. */
  predicate SameRecord(a: Block, b: Block) {
    a.blockHash == b.blockHash && SameContent(BlockPreimage(a), BlockPreimage(b))
  }

  /** The last hash of a good chain fixes its length and, block for block, the hashes, links,
      transactions and timestamps, whatever versions the blocks were made by. */
  lemma {:induction false} TipDeterminesRecords(hash: Preimage -> string, a: seq<Block>, b: seq<Block>)
    requires Binding(hash)
    requires GoodChain(hash, a) && GoodChain(hash, b)
    requires a[|a| - 1].blockHash == b[|b| - 1].blockHash
    ensures |a| == |b|
    ensures forall i | 1 <= i < |a| :: SameRecord(a[i], b[i])
    decreases |a|
  {
    var n, m := |a| - 1, |b| - 1;
    if n > 0 { OnlyGenesisIsZero(hash, a, n); }
    if m > 0 { OnlyGenesisIsZero(hash, b, m); }
    if n > 0 && m > 0 {
      assert Accepts(hash, a[n - 1].blockHash, a[n]) && Accepts(hash, b[m - 1].blockHash, b[m]);
      assert WellStamped(BlockPreimage(a[n])) && WellStamped(BlockPreimage(b[m]));
      assert SameContent(BlockPreimage(a[n]), BlockPreimage(b[m]));
      TipDeterminesRecords(hash, a[..n], b[..m]);
      assert forall i | 1 <= i < n :: a[..n][i] == a[i] && b[..m][i] == b[i];
    }
  }

  /** At one version it fixes every block after the genesis block. */
  lemma {:induction false} TipDeterminesChain(hash: Preimage -> string, version: string, a: seq<Block>, b: seq<Block>)
    requires CollisionFree(hash, version) && OneVersion(a, version) && OneVersion(b, version)
    requires GoodChain(hash, a) && GoodChain(hash, b)
    requires a[|a| - 1].blockHash == b[|b| - 1].blockHash
    ensures a[1..] == b[1..]
    decreases |a|
  {
    var n, m := |a| - 1, |b| - 1;
    if n > 0 { OnlyGenesisIsZero(hash, a, n); }
    if m > 0 { OnlyGenesisIsZero(hash, b, m); }
    if n > 0 && m > 0 {
      assert Accepts(hash, a[n - 1].blockHash, a[n]) && Accepts(hash, b[m - 1].blockHash, b[m]);
      SameHashSameBlock(hash, version, a[n], b[m]);
      TipDeterminesChain(hash, version, a[..n], b[..m]);
      assert a[1..] == a[..n][1..] + [a[n]];
      assert b[1..] == b[..m][1..] + [b[m]];
    }
  }

  /** No two blocks of a good chain carry the same hash, whatever versions made them. */
  lemma {:induction false} HashesAreDistinct(hash: Preimage -> string, chain: seq<Block>, i: nat, j: nat)
    requires Binding(hash) && GoodChain(hash, chain)
    requires i < j < |chain|
    ensures chain[i].blockHash != chain[j].blockHash
  {
    OnlyGenesisIsZero(hash, chain, j);
    if i > 0 {
      assert Accepts(hash, chain[i - 1].blockHash, chain[i]) && Accepts(hash, chain[j - 1].blockHash, chain[j]);
      assert WellStamped(BlockPreimage(chain[i])) && WellStamped(BlockPreimage(chain[j]));
      HashesAreDistinct(hash, chain, i - 1, j - 1);
    }
  }
}
