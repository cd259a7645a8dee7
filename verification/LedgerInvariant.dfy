/** What every operation, failed append and restart keeps true of the chain, the logs and
    the in-memory index. */
module LedgerInvariant {
  import opened Order
  import opened Blockchain
  import opened LogVerifier
  import opened Journal

  // ------------------------------------------------------------------- blocks

  /** A block as the service mines it: one transaction, proper hash input, its own hash. */
  ghost predicate Made(env: Env, b: Block) {
    && |b.transactions| == 1
    && WellStamped(BlockPreimage(b))
    && b.blockHash == env.hash(BlockPreimage(b))
    && OwnChange(b.transactions[0])
  }

  /** A profile change is a change of the transaction's own player. */
  predicate OwnChange(t: Transaction) {
    t.details.ProfileChanged? ==> t.details.change.profile.playerId == t.playerId
  }

  /** The player a one-transaction block belongs to. */
  function Owner(b: Block): string {
    if b.transactions == [] then "" else b.transactions[0].playerId
  }

  function IdOf(b: Block): string {
    if b.transactions == [] then "" else b.transactions[0].transactionId
  }

  /** Everything after the genesis block. */
  function Tail(b: Book): seq<Block> {
    b.chain[1..]
  }

  // ------------------------------------------------------- what a restart finds

  /** How many leading blocks of the chain are all in a log. */
  function DurablePrefix(tail: seq<Block>, log: seq<Block>): (k: nat)
    ensures k <= |tail|
    ensures forall i | 0 <= i < k :: tail[i] in log
    ensures k < |tail| ==> tail[k] !in log
  {
    if tail == [] || tail[0] !in log then 0
    else
      var k := 1 + DurablePrefix(tail[1..], log);
      assert forall i | 1 <= i < k :: tail[i] == tail[1..][i - 1];
      k
  }

  /** The longest prefix of the chain that is in the log of the player owning block 1. */
  function Recoverable(tail: seq<Block>, logs: map<string, seq<Block>>): seq<Block> {
    if tail == [] then [] else tail[..DurablePrefix(tail, LogOf(logs, Owner(tail[0])))]
  }

  /** Same profiles, and the same rewards with a missing entry counting as empty. */
  ghost predicate SameIndex(a: Index, b: Index) {
    && a.profiles == b.profiles
    && forall p: string :: RewardsOf(a.rewards, p) == RewardsOf(b.rewards, p)
  }

  // ---------------------------------------------------------------- invariant

  /** The chain in memory. */
  ghost predicate ChainInv(env: Env, chain: Chain, clock: string, used: set<string>) {
    && GoodChain(env.hash, chain)
    && (forall i | 1 <= i < |chain| :: Made(env, chain[i]) && IdOf(chain[i]) in used)
    && (forall i | 1 <= i < |chain| :: TextLe(chain[i].timestamp, clock))
    && SortedByTime(chain[1..])
  }

  /** A block of a player's log: a made one, of that player, under an id handed out before. */
  ghost predicate Logged(env: Env, player: string, b: Block, used: set<string>) {
    Made(env, b) && Owner(b) == player && IdOf(b) in used && env.isUuid(player)
  }

  /** No transaction id occurs twice. */
  predicate NoRepeats(log: seq<Block>) {
    forall i, j | 0 <= i < j < |log| :: IdOf(log[i]) != IdOf(log[j])
  }

  /** The logs on disk: each holds blocks of its own player only, each once. */
  ghost predicate LogsInv(env: Env, logs: map<string, seq<Block>>, used: set<string>) {
    && (forall p, i | p in logs && 0 <= i < |logs[p]| :: Logged(env, p, logs[p][i], used))
    && (forall p | p in logs :: NoRepeats(logs[p]))
  }

  /** What the log of a player verifies to: the owner of block 1 has the longest durable
      prefix of the chain, everybody else has nothing. */
  ghost predicate VerifiesTo(env: Env, tail: seq<Block>, player: string, log: seq<Block>) {
    Verified(env.hash, GENESIS_HASH, log)
    == if tail != [] && player == Owner(tail[0]) then tail[..DurablePrefix(tail, log)] else []
  }

  /** Memory against disk; and a durable block that links to genesis is block 1 of the chain. */
  ghost predicate RecoveryInv(env: Env, tail: seq<Block>, logs: map<string, seq<Block>>) {
    && (forall p | p in logs :: VerifiesTo(env, tail, p, logs[p]))
    && (forall p, i | p in logs && 0 <= i < |logs[p]| && logs[p][i].previousBlockHash == GENESIS_HASH ::
          tail != [] && logs[p][i] == tail[0])
  }

  /** The index in memory. */
  ghost predicate IndexInv(ix: Index, tail: seq<Block>) {
    && SameIndex(ix, ApplyBlocks(EMPTY_INDEX, tail))
    && OwnIds(ix)
  }

  ghost predicate BookInv(env: Env, b: Book, clock: string, used: set<string>) {
    && ChainInv(env, b.chain, clock, used)
    && LogsInv(env, b.logs, used)
    && RecoveryInv(env, Tail(b), b.logs)
    && IndexInv(b.index, Tail(b))
  }

  // ----------------------------------------------------- adding a mined record

  lemma GoodExtension(env: Env, chain: Chain, b: Block)
    requires GoodChain(env.hash, chain)
    requires Made(env, b) && b.previousBlockHash == chain[|chain| - 1].blockHash
    ensures GoodChain(env.hash, chain + [b])
  {
    ValidExtension(env.hash, chain, b);
    assert forall i | 0 <= i < |chain| :: (chain + [b])[i] == chain[i];
  }

  /** The block mined for a transaction on top of a chain. */
  function RecordBlock(env: Env, chain: Chain, t: Transaction, io: Inputs): Block {
    Mined(env.hash, chain[|chain| - 1].blockHash, [t], io.minedAt, io.version)
  }

  /** A transaction the service writes: under the fresh id, and about its own player. */
  predicate Writable(t: Transaction, io: Inputs) {
    t.transactionId == io.transactionId && OwnChange(t)
  }

  lemma RecordBlockIsMade(env: Env, chain: Chain, t: Transaction, io: Inputs)
    requires Binding(env.hash)
    requires GoodChain(env.hash, chain)
    requires IsStamp(io.minedAt) && Writable(t, io)
    ensures Made(env, RecordBlock(env, chain, t, io))
    ensures GoodChain(env.hash, chain + [RecordBlock(env, chain, t, io)])
  {
    if |chain| > 1 {
      assert Accepts(env.hash, chain[|chain| - 2].blockHash, chain[|chain| - 1]);
    }
    assert '[' !in chain[|chain| - 1].blockHash;
    GoodExtension(env, chain, RecordBlock(env, chain, t, io));
  }

  /** A block that is not earlier than the clock is the latest. */
  lemma LatestLast(blocks: seq<Block>, b: Block, clock: string)
    requires SortedByTime(blocks) && TextLe(clock, b.timestamp)
    requires forall i | 0 <= i < |blocks| :: TextLe(blocks[i].timestamp, clock)
    ensures SortedByTime(blocks + [b])
    ensures forall i | 0 <= i < |blocks + [b]| :: TextLe((blocks + [b])[i].timestamp, b.timestamp)
  {
    hide TextLe;
    TextTotalOrder(b.timestamp, clock, b.timestamp);
    forall i | 0 <= i < |blocks|
      ensures TextLe(blocks[i].timestamp, b.timestamp)
    {
      TextTotalOrder(blocks[i].timestamp, clock, b.timestamp);
    }
  }

  lemma ChainInvAfterRecord(env: Env, chain: Chain, t: Transaction, io: Inputs, clock: string, used: set<string>)
    requires Binding(env.hash)
    requires ChainInv(env, chain, clock, used)
    requires IsStamp(io.minedAt) && TextLe(clock, io.minedAt) && Writable(t, io)
    ensures ChainInv(env, chain + [RecordBlock(env, chain, t, io)], io.minedAt, used + {io.transactionId})
  {
    hide GoodChain, Binding, Made, TextLe, Mined, SortedByTime, IsStamp;
    var block := RecordBlock(env, chain, t, io);
    var longer := chain + [block];
    RecordBlockIsMade(env, chain, t, io);
    assert block.timestamp == io.minedAt && IdOf(block) == io.transactionId;
    assert longer[1..] == chain[1..] + [block];
    LatestLast(chain[1..], block, clock);
    forall i | 1 <= i < |longer|
      ensures TextLe(longer[i].timestamp, io.minedAt)
      ensures Made(env, longer[i]) && IdOf(longer[i]) in used + {io.transactionId}
    {
      assert longer[i] == longer[1..][i - 1];
    }
  }

  lemma LogsInvAfterRecord(env: Env, chain: Chain, logs: map<string, seq<Block>>, t: Transaction, io: Inputs,
                           used: set<string>)
    requires Binding(env.hash)
    requires GoodChain(env.hash, chain)
    requires LogsInv(env, logs, used)
    requires io.transactionId !in used
    requires IsStamp(io.minedAt) && Writable(t, io) && env.isUuid(t.playerId)
    ensures LogsInv(env, AppendLog(logs, t.playerId, RecordBlock(env, chain, t, io), io.append),
                    used + {io.transactionId})
  {
    hide GoodChain, Binding, Made, Mined;
    RecordBlockIsMade(env, chain, t, io);
    assert Logged(env, t.playerId, RecordBlock(env, chain, t, io), used + {io.transactionId});
    forall p, i | p in logs && 0 <= i < |logs[p]|
      ensures Logged(env, p, logs[p][i], used + {io.transactionId})
    {
      assert Logged(env, p, logs[p][i], used);
    }
    var p, block := t.playerId, RecordBlock(env, chain, t, io);
    forall i, j | 0 <= i < j < |LogOf(logs, p) + [block]|
      ensures IdOf((LogOf(logs, p) + [block])[i]) != IdOf((LogOf(logs, p) + [block])[j])
    {
      assert Logged(env, p, logs[p][i], used);
    }
    assert NoRepeats(LogOf(logs, p) + [block]);
  }

  /** Adding a block to the chain and possibly to a log moves the durable prefix by at most
      that block, and only when everything before it was durable. */
  lemma {:induction false} DurablePrefixStep(tail: seq<Block>, log: seq<Block>, b: Block, longer: seq<Block>)
    requires b !in log && b !in tail
    requires longer == log || longer == log + [b]
    ensures var k := DurablePrefix(tail, log);
      DurablePrefix(tail + [b], longer) == if k == |tail| && longer == log + [b] then k + 1 else k
  {
    if tail == [] {
    } else {
      assert (tail + [b])[1..] == tail[1..] + [b];
      assert tail[0] != b;
      assert tail[0] in longer <==> tail[0] in log;
      if tail[0] in log {
        DurablePrefixStep(tail[1..], log, b, longer);
      }
    }
  }

  lemma TipOfPrefix(chain: Chain, k: nat)
    requires chain[0].blockHash == GENESIS_HASH && k < |chain|
    ensures TipAfter(GENESIS_HASH, chain[1..][..k]) == chain[k].blockHash
  {
  }

  /** A block mined on the end of the chain continues its k-th block only if that is the end. */
  lemma ContinuesOnlyTheEnd(env: Env, chain: Chain, block: Block, k: nat)
    requires Binding(env.hash)
    requires GoodChain(env.hash, chain)
    requires GoodChain(env.hash, chain + [block])
    requires k < |chain|
    ensures Accepts(env.hash, chain[k].blockHash, block) <==> k == |chain| - 1
  {
    hide Binding;
    var longer, n := chain + [block], |chain| - 1;
    assert Accepts(env.hash, longer[n].blockHash, longer[n + 1]);
    if k < n {
      HashesAreDistinct(env.hash, chain, k, n);
    }
  }

  /** The owner's log, when the new block reached it: the block is verified exactly when
      every block before it was durable too. */
  lemma OwnerLogAfterRecord(env: Env, chain: Chain, block: Block, log: seq<Block>)
    requires Binding(env.hash)
    requires GoodChain(env.hash, chain)
    requires GoodChain(env.hash, chain + [block])
    requires block !in log && block !in chain[1..]
    requires Verified(env.hash, GENESIS_HASH, log) == chain[1..][..DurablePrefix(chain[1..], log)]
    ensures var tail := chain[1..] + [block];
      Verified(env.hash, GENESIS_HASH, log + [block]) == tail[..DurablePrefix(tail, log + [block])]
  {
    var tail := chain[1..];
    var k := DurablePrefix(tail, log);
    assert chain[0].blockHash == GENESIS_HASH;
    hide GoodChain, Binding, Verified, DurablePrefix, TipAfter, Accepts;
    DurablePrefixStep(tail, log, block, log + [block]);
    TipOfPrefix(chain, k);
    ContinuesOnlyTheEnd(env, chain, block, k);
    VerifiedPrefixGrows(env.hash, tail, log, block, k);
  }

  lemma VerifiedPrefixGrows(hash: Preimage -> string, tail: seq<Block>, log: seq<Block>, block: Block, k: nat)
    requires k <= |tail| && Verified(hash, GENESIS_HASH, log) == tail[..k]
    requires Accepts(hash, TipAfter(GENESIS_HASH, tail[..k]), block) <==> k == |tail|
    ensures Verified(hash, GENESIS_HASH, log + [block]) == (tail + [block])[..if k == |tail| then k + 1 else k]
  {
    hide Verified, Quarantined, TipAfter, Accepts;
    VerifiedOne(hash, GENESIS_HASH, log, block);
    if k == |tail| {
      assert tail[..k] == tail;
    }
  }

  lemma LinksPastGenesis(env: Env, chain: Chain, block: Block)
    requires Binding(env.hash)
    requires GoodChain(env.hash, chain)
    requires GoodChain(env.hash, chain + [block])
    ensures chain[1..] != [] <==> block.previousBlockHash != GENESIS_HASH
  {
    var longer := chain + [block];
    assert Accepts(env.hash, longer[|chain| - 1].blockHash, longer[|chain|]);
    if |chain| > 1 {
      OnlyGenesisIsZero(env.hash, chain, |chain| - 1);
    }
  }

  /** What one log verifies to after the record, whichever player it belongs to. */
  lemma LogAfterRecord(env: Env, chain: Chain, block: Block, p: string, log: seq<Block>, longer: seq<Block>)
    requires Binding(env.hash)
    requires GoodChain(env.hash, chain)
    requires GoodChain(env.hash, chain + [block])
    requires block !in log && block !in chain[1..]
    requires longer == log || (longer == log + [block] && Owner(block) == p)
    requires VerifiesTo(env, chain[1..], p, log)
    ensures VerifiesTo(env, chain[1..] + [block], p, longer)
  {
    hide GoodChain, Binding, Verified;
    var tail := chain[1..] + [block];
    if p == Owner(tail[0]) {
      if longer == log {
        DurablePrefixStep(chain[1..], log, block, log);
      } else {
        OwnerLogAfterRecord(env, chain, block, log);
      }
    } else if longer != log {
      LinksPastGenesis(env, chain, block);
      VerifiedOne(env.hash, GENESIS_HASH, log, block);
    }
  }

  lemma VerifiesToOfNothing(env: Env, tail: seq<Block>, p: string)
    ensures VerifiesTo(env, tail, p, [])
  {
    if tail != [] {
      assert DurablePrefix(tail, []) == 0;
    }
  }

  lemma NewBlockIsNew(env: Env, chain: Chain, logs: map<string, seq<Block>>, clock: string, used: set<string>,
                      block: Block)
    requires ChainInv(env, chain, clock, used) && LogsInv(env, logs, used)
    requires IdOf(block) !in used
    ensures block !in chain[1..]
    ensures forall p :: block !in LogOf(logs, p)
  {
  }

  lemma RecoveryInvAfterRecord(env: Env, chain: Chain, logs: map<string, seq<Block>>, t: Transaction, io: Inputs,
                               clock: string, used: set<string>, after: map<string, seq<Block>>)
    requires Binding(env.hash)
    requires ChainInv(env, chain, clock, used) && LogsInv(env, logs, used) && RecoveryInv(env, chain[1..], logs)
    requires IsStamp(io.minedAt) && io.transactionId !in used && Writable(t, io)
    requires after == logs || after == AppendLog(logs, t.playerId, RecordBlock(env, chain, t, io), io.append)
    ensures RecoveryInv(env, chain[1..] + [RecordBlock(env, chain, t, io)], after)
  {
    hide GoodChain, Binding, Verified, DurablePrefix, Made, Mined, VerifiesTo;
    var block := RecordBlock(env, chain, t, io);
    assert block.transactions == [t];
    RecordBlockIsMade(env, chain, t, io);
    NewBlockIsNew(env, chain, logs, clock, used, block);
    LinksPastGenesis(env, chain, block);
    forall p | p in after
      ensures VerifiesTo(env, chain[1..] + [block], p, after[p])
    {
      VerifiesToOfNothing(env, chain[1..], p);
      LogAfterRecord(env, chain, block, p, LogOf(logs, p), after[p]);
    }
    forall p, i | p in after && 0 <= i < |after[p]| && after[p][i].previousBlockHash == GENESIS_HASH
      ensures after[p][i] == (chain[1..] + [block])[0]
    {
      if i < |LogOf(logs, p)| {
        assert after[p][i] == logs[p][i];
      } else {
        assert after[p][i] == block;
      }
    }
  }

  // -------------------------------------------------------------------- index

  lemma ApplyRespectsSameIndex(a: Index, b: Index, t: Transaction)
    requires SameIndex(a, b)
    ensures SameIndex(ApplyTransaction(a, t), ApplyTransaction(b, t))
  {
    assert RewardsOf(a.rewards, t.playerId) == RewardsOf(b.rewards, t.playerId);
    var a', b' := ApplyTransaction(a, t), ApplyTransaction(b, t);
    forall p: string
      ensures RewardsOf(a'.rewards, p) == RewardsOf(b'.rewards, p)
    {
      assert RewardsOf(a.rewards, p) == RewardsOf(b.rewards, p);
    }
  }

  /** Folding one more one-transaction block is folding its transaction. */
  lemma ApplyOneBlock(ix: Index, blocks: seq<Block>, b: Block)
    requires |b.transactions| == 1
    ensures ApplyBlocks(ix, blocks + [b]) == ApplyTransaction(ApplyBlocks(ix, blocks), b.transactions[0])
  {
    assert (blocks + [b])[..|blocks|] == blocks;
    var txns := b.transactions;
    var before := ApplyBlocks(ix, blocks);
    assert txns == [txns[0]] && txns[..0] == [];
    assert ApplyTransactions(before, txns[..0]) == before;
  }

  /** Memory that already shows the transaction indexes the chain extended by its block. */
  lemma IndexInvAfterRecord(before: Index, ix: Index, tail: seq<Block>, block: Block, io: Inputs)
    requires IndexInv(before, tail)
    requires |block.transactions| == 1 && Writable(block.transactions[0], io)
    requires SameIndex(ix, ApplyTransaction(before, block.transactions[0]))
    ensures IndexInv(ix, tail + [block])
  {
    var folded := ApplyBlocks(EMPTY_INDEX, tail);
    ApplyOneBlock(EMPTY_INDEX, tail, block);
    ApplyRespectsSameIndex(before, folded, block.transactions[0]);
    var a, c := ApplyTransaction(before, block.transactions[0]), ApplyTransaction(folded, block.transactions[0]);
    forall p: string
      ensures RewardsOf(ix.rewards, p) == RewardsOf(c.rewards, p)
    {
      assert RewardsOf(a.rewards, p) == RewardsOf(c.rewards, p);
    }
  }

  /** The one step every profile change and every award takes. */
  lemma RecordKeepsBookInv(env: Env, b: Book, ix: Index, t: Transaction, io: Inputs, clock: string, used: set<string>)
    requires Binding(env.hash)
    requires BookInv(env, b, clock, used)
    requires IsStamp(io.minedAt) && TextLe(clock, io.minedAt)
    requires io.transactionId !in used && Writable(t, io)
    requires SameIndex(ix, ApplyTransaction(b.index, t))
    ensures BookInv(env, AddRecord(env, b.(index := ix), t, io), io.minedAt, used + {io.transactionId})
  {
    hide Binding, ChainInv, LogsInv, RecoveryInv, IndexInv, Mined;
    var after := AddRecord(env, b.(index := ix), t, io);
    var block := RecordBlock(env, b.chain, t, io);
    assert after.chain == b.chain + [block] && Tail(after) == Tail(b) + [block];
    ChainInvAfterRecord(env, b.chain, t, io, clock, used);
    assert GoodChain(env.hash, b.chain) by { ChainIsGood(env, b.chain, clock, used); }
    if env.isUuid(t.playerId) {
      LogsInvAfterRecord(env, b.chain, b.logs, t, io, used);
    } else {
      LogsInvWeakens(env, b.logs, used, {io.transactionId});
    }
    RecoveryInvAfterRecord(env, b.chain, b.logs, t, io, clock, used, after.logs);
    IndexInvAfterRecord(b.index, ix, Tail(b), block, io);
  }

  lemma ChainIsGood(env: Env, chain: Chain, clock: string, used: set<string>)
    requires ChainInv(env, chain, clock, used)
    ensures GoodChain(env.hash, chain)
  {
  }

  lemma LogsInvWeakens(env: Env, logs: map<string, seq<Block>>, used: set<string>, more: set<string>)
    requires LogsInv(env, logs, used)
    ensures LogsInv(env, logs, used + more)
  {
    forall p, i | p in logs && 0 <= i < |logs[p]|
      ensures Logged(env, p, logs[p][i], used + more)
    {
      assert Logged(env, p, logs[p][i], used);
    }
  }

  /** Time passing and ids being spent change nothing else. */
  lemma WaitKeepsBookInv(env: Env, b: Book, clock: string, used: set<string>, now: string, more: set<string>)
    requires BookInv(env, b, clock, used) && TextLe(clock, now)
    ensures BookInv(env, b, now, used + more)
  {
    hide GoodChain, RecoveryInv, Made, TextLe;
    LogsInvWeakens(env, b.logs, used, more);
    forall i | 1 <= i < |b.chain|
      ensures TextLe(b.chain[i].timestamp, now)
    {
      TextTotalOrder(b.chain[i].timestamp, clock, now);
    }
  }

  // ------------------------------------------------------------------ restart

  lemma InsertLast(blocks: seq<Block>, b: Block)
    requires blocks != [] ==> TextLe(blocks[|blocks| - 1].timestamp, b.timestamp)
    ensures InsertByTime(blocks, b) == blocks + [b]
  {
  }

  lemma {:induction false} SortKeepsSorted(blocks: seq<Block>)
    requires SortedByTime(blocks)
    ensures SortByTime(blocks) == blocks
  {
    if blocks != [] {
      var n := |blocks| - 1;
      SortKeepsSorted(blocks[..n]);
      InsertLast(blocks[..n], blocks[n]);
      assert blocks == blocks[..n] + [blocks[n]];
    }
  }

  lemma {:induction false} DedupKeepsDistinct(blocks: seq<Block>)
    requires forall i, j | 0 <= i < j < |blocks| :: blocks[i].blockHash != blocks[j].blockHash
    ensures DedupByHash(blocks) == blocks
  {
    if blocks != [] {
      var n := |blocks| - 1;
      var init, last := blocks[..n], blocks[n];
      assert last.blockHash !in HashesOf(init);
      assert DedupByHash(blocks) == DedupByHash(init) + [last];
      hide DedupByHash, HashesOf;
      DedupKeepsDistinct(init);
      assert blocks == init + [last];
    }
  }

  lemma LogContributes(env: Env, tail: seq<Block>, logs: map<string, seq<Block>>, p: string)
    requires p in logs ==> VerifiesTo(env, tail, p, logs[p])
    ensures Verified(env.hash, GENESIS_HASH, LogOf(logs, p))
            == if tail != [] && p == Owner(tail[0]) then Recoverable(tail, logs) else []
  {
    if p !in logs {
      VerifiesToOfNothing(env, tail, p);
    }
    hide Verified;
  }

  /** Player after player, only the owner of block 1 contributes. */
  lemma {:induction false} ReplayedIsRecoverable(env: Env, tail: seq<Block>, logs: map<string, seq<Block>>,
                                                 ids: seq<string>, faults: ReadFaults)
    requires forall p | p in logs :: VerifiesTo(env, tail, p, logs[p])
    requires forall i, j | 0 <= i < j < |ids| :: ids[i] != ids[j]
    ensures ReplayedBlocks(env.hash, logs, ids, faults)
            == if tail != [] && Owner(tail[0]) in ids && Owner(tail[0]) !in faults.blocks
               then Recoverable(tail, logs) else []
  {
    hide Verified, Recoverable, VerifiesTo, DurablePrefix, Owner, LogOf;
    if ids != [] {
      var init, id := ids[..|ids| - 1], ids[|ids| - 1];
      ReplayedIsRecoverable(env, tail, logs, init, faults);
      assert ids == init + [id] && id !in init;
      LogContributes(env, tail, logs, id);
      var own := if id in faults.blocks then [] else Verified(env.hash, GENESIS_HASH, LogOf(logs, id));
      assert ReplayedBlocks(env.hash, logs, ids, faults) == ReplayedBlocks(env.hash, logs, init, faults) + own;
      hide ReplayedBlocks;
      assert tail != [] ==> (Owner(tail[0]) in ids <==> Owner(tail[0]) in init || Owner(tail[0]) == id);
    }
  }

  /** What a restart reads is enough to find all there is: the log of the player owning
      block 1, unless nothing of the chain is durable. */
  predicate ReadsFound(tail: seq<Block>, logs: map<string, seq<Block>>, faults: ReadFaults) {
    Recoverable(tail, logs) == [] || (!faults.listing && Owner(tail[0]) !in faults.blocks)
  }

  lemma HashesInTailDistinct(env: Env, chain: Chain, k: nat)
    requires Binding(env.hash) && GoodChain(env.hash, chain)
    requires k <= |chain[1..]|
    ensures var found := chain[1..][..k];
      forall i, j | 0 <= i < j < |found| :: found[i].blockHash != found[j].blockHash
  {
    hide GoodChain, Binding;
    var found := chain[1..][..k];
    forall i, j | 0 <= i < j < |found|
      ensures found[i].blockHash != found[j].blockHash
    {
      HashesAreDistinct(env.hash, chain, i + 1, j + 1);
    }
  }

  lemma LogsVerify(env: Env, tail: seq<Block>, logs: map<string, seq<Block>>)
    requires RecoveryInv(env, tail, logs)
    ensures forall p | p in logs :: VerifiesTo(env, tail, p, logs[p])
  {
  }

  /** What every restart rebuilds, in every state the invariant describes: the sort and the
      hash dedup change nothing, and the chain is exactly the recoverable prefix. */
  lemma RestartRebuilds(env: Env, b: Book, clock: string, used: set<string>, ids: seq<string>, now: Launch)
    requires Binding(env.hash)
    requires BookInv(env, b, clock, used)
    requires Lists(ids, b.logs)
    ensures var found := ReplayedBlocks(env.hash, b.logs, ids, NO_FAULTS);
      && found == Recoverable(Tail(b), b.logs)
      && DedupByHash(SortByTime(found)) == found
      && ReplayBook(env, b.logs, ids, NO_FAULTS, now)
         == Book(ApplyBlocks(EMPTY_INDEX, found), [GenesisBlock(now.at, now.version)] + found, b.logs)
  {
    hide GoodChain, Binding, RecoveryInv, LogsInv, IndexInv, SortByTime, DedupByHash, ApplyBlocks, ReplayedBlocks;
    var tail := Tail(b);
    var found := Recoverable(tail, b.logs);
    assert forall p | p in b.logs :: VerifiesTo(env, tail, p, b.logs[p]) by { LogsVerify(env, tail, b.logs); }
    ReplayedIsRecoverable(env, tail, b.logs, ids, NO_FAULTS);
    UnlistedHasNothing(tail, b.logs, ids);
    RecoverableIsPrefix(b);
    hide Recoverable, Lists;
    assert ReplayedBlocks(env.hash, b.logs, ids, NO_FAULTS) == found;
    PrefixIsSorted(tail, found);
    SortKeepsSorted(found);
    assert found == b.chain[1..][..|found|];
    HashesInTailDistinct(env, b.chain, |found|);
    DedupKeepsDistinct(found);
  }

  /** Whatever a restart fails to read, it rebuilds what a restart that reads everything
      rebuilds, exactly when it reads the log of the player owning block 1. */
  lemma FoundIsEnoughIff(env: Env, b: Book, clock: string, used: set<string>, ids: seq<string>, faults: ReadFaults,
                         now: Launch)
    requires Binding(env.hash)
    requires BookInv(env, b, clock, used)
    requires Lists(ids, b.logs)
    ensures ReplayBook(env, b.logs, ids, faults, now) == ReplayBook(env, b.logs, ids, NO_FAULTS, now)
            <==> ReadsFound(Tail(b), b.logs, faults)
    ensures !ReadsFound(Tail(b), b.logs, faults) ==> Tail(ReplayBook(env, b.logs, ids, faults, now)) == []
  {
    hide GoodChain, Binding, RecoveryInv, LogsInv, IndexInv, ApplyBlocks, ReplayedBlocks;
    RestartRebuilds(env, b, clock, used, ids, now);
    UnlistedHasNothing(Tail(b), b.logs, ids);
    assert forall p | p in b.logs :: VerifiesTo(env, Tail(b), p, b.logs[p]) by { LogsVerify(env, Tail(b), b.logs); }
    ReplayedIsRecoverable(env, Tail(b), b.logs, ids, faults);
    hide VerifiesTo, Recoverable, Lists, ChainInv;
    var found := if faults.listing then [] else ReplayedBlocks(env.hash, b.logs, ids, faults);
    assert found == if ReadsFound(Tail(b), b.logs, faults) then Recoverable(Tail(b), b.logs) else [];
    hide SortByTime, DedupByHash;
    assert SortByTime([]) == [] && DedupByHash([]) == [] by { NothingSorted(); }
    assert Tail(ReplayBook(env, b.logs, ids, faults, now)) == DedupByHash(SortByTime(found));
  }

  lemma NothingSorted()
    ensures SortByTime([]) == [] && DedupByHash([]) == []
  {
  }

  lemma UnlistedHasNothing(tail: seq<Block>, logs: map<string, seq<Block>>, ids: seq<string>)
    requires Lists(ids, logs)
    ensures tail != [] && Owner(tail[0]) !in ids ==> Recoverable(tail, logs) == []
  {
    if tail != [] && Owner(tail[0]) !in ids {
      assert LogOf(logs, Owner(tail[0])) == [];
      assert DurablePrefix(tail, []) == 0;
    }
  }

  lemma PrefixIsSorted(blocks: seq<Block>, prefix: seq<Block>)
    requires SortedByTime(blocks) && prefix <= blocks
    ensures SortedByTime(prefix)
  {
    hide TextLe;
    assert forall i | 0 <= i < |prefix| :: prefix[i] == blocks[i];
  }

  lemma GoodPrefix(env: Env, chain: Chain, k: nat, now: Launch)
    requires GoodChain(env.hash, chain) && k < |chain|
    ensures GoodChain(env.hash, [GenesisBlock(now.at, now.version)] + chain[1..k + 1])
  {
    var shorter := [GenesisBlock(now.at, now.version)] + chain[1..k + 1];
    assert forall i | 0 <= i <= k :: shorter[i].blockHash == chain[i].blockHash;
    assert forall i | 1 <= i <= k :: shorter[i] == chain[i];
    forall i | 1 <= i < |shorter|
      ensures Accepts(env.hash, shorter[i - 1].blockHash, shorter[i])
    {
      assert Accepts(env.hash, chain[i - 1].blockHash, chain[i]);
    }
  }

  lemma {:induction false} DurablePrefixOfDurable(tail: seq<Block>, log: seq<Block>)
    requires forall i | 0 <= i < |tail| :: tail[i] in log
    ensures DurablePrefix(tail, log) == |tail|
  {
    if tail != [] {
      DurablePrefixOfDurable(tail[1..], log);
    }
  }

  lemma VerifiesToPrefix(env: Env, tail: seq<Block>, logs: map<string, seq<Block>>, p: string)
    requires p in logs && VerifiesTo(env, tail, p, logs[p])
    ensures VerifiesTo(env, Recoverable(tail, logs), p, logs[p])
  {
    hide Verified;
    var found := Recoverable(tail, logs);
    if found != [] {
      assert found[0] == tail[0];
      if p == Owner(tail[0]) {
        DurablePrefixOfDurable(found, logs[p]);
      }
    }
  }

  /** Forgetting the undurable end of the chain leaves memory and disk in agreement. */
  lemma RecoverableAgreesWithDisk(env: Env, tail: seq<Block>, logs: map<string, seq<Block>>, used: set<string>)
    requires RecoveryInv(env, tail, logs) && LogsInv(env, logs, used)
    ensures RecoveryInv(env, Recoverable(tail, logs), logs)
  {
    hide Made, VerifiesTo;
    var found := Recoverable(tail, logs);
    forall p | p in logs
      ensures VerifiesTo(env, found, p, logs[p])
    {
      VerifiesToPrefix(env, tail, logs, p);
    }
    forall p, i | p in logs && 0 <= i < |logs[p]| && logs[p][i].previousBlockHash == GENESIS_HASH
      ensures found != [] && logs[p][i] == found[0]
    {
      assert Logged(env, p, logs[p][i], used);
      assert logs[p][i] == tail[0] && tail[0] in LogOf(logs, Owner(tail[0]));
    }
  }

  lemma {:induction false} TransactionsKeepOwnIds(ix: Index, txns: seq<Transaction>)
    requires OwnIds(ix)
    ensures OwnIds(ApplyTransactions(ix, txns))
  {
    if txns != [] {
      TransactionsKeepOwnIds(ix, txns[..|txns| - 1]);
    }
  }

  lemma {:induction false} ReplayedOwnIds(blocks: seq<Block>)
    ensures OwnIds(ApplyBlocks(EMPTY_INDEX, blocks))
  {
    if blocks != [] {
      var n := |blocks| - 1;
      ReplayedOwnIds(blocks[..n]);
      TransactionsKeepOwnIds(ApplyBlocks(EMPTY_INDEX, blocks[..n]), blocks[n].transactions);
    }
  }

  lemma ChainInvPrefix(env: Env, chain: Chain, k: nat, now: Launch, clock: string, used: set<string>)
    requires ChainInv(env, chain, clock, used) && k < |chain|
    ensures ChainInv(env, [GenesisBlock(now.at, now.version)] + chain[1..k + 1], clock, used)
  {
    hide GoodChain, Made, TextLe;
    var shorter := [GenesisBlock(now.at, now.version)] + chain[1..k + 1];
    GoodPrefix(env, chain, k, now);
    assert forall i | 1 <= i < |shorter| :: shorter[i] == chain[i];
    assert forall i | 0 <= i < |shorter[1..]| :: shorter[1..][i] == chain[1..][i];
  }

  /** A restart keeps the invariant. */
  lemma RestartKeepsBookInv(env: Env, b: Book, clock: string, used: set<string>, ids: seq<string>, now: Launch)
    requires Binding(env.hash)
    requires BookInv(env, b, clock, used)
    requires Lists(ids, b.logs)
    ensures BookInv(env, ReplayBook(env, b.logs, ids, NO_FAULTS, now), clock, used)
  {
    hide ChainInv, Binding, RecoveryInv, LogsInv, ApplyBlocks, Lists, ReplayBook, Recoverable;
    var after := ReplayBook(env, b.logs, ids, NO_FAULTS, now);
    var found := Recoverable(Tail(b), b.logs);
    RestartRebuilds(env, b, clock, used, ids, now);
    RecoverableIsPrefix(b);
    assert Tail(after) == found;
    ChainInvPrefix(env, b.chain, |found|, now, clock, used);
    RecoverableAgreesWithDisk(env, Tail(b), b.logs, used);
    ReplayedOwnIds(found);
  }

  lemma RecoverableIsPrefix(b: Book)
    ensures var found := Recoverable(Tail(b), b.logs);
      |found| < |b.chain| && b.chain[1..|found| + 1] == found && found <= Tail(b)
  {
  }
}
