/** Memory is a faithful index of the ledger in every state that can be reached, whatever the
    restarts fail to read. */
module MemoryIndex {
  import opened Common
  import opened Order
  import opened Blockchain
  import opened LogVerifier
  import opened Journal
  import opened Runs
  import opened LedgerInvariant
  import opened Recovery
  import opened Filing
  import opened ReplayOrder

  /** A block as the service mines it, not later than the clock. */
  ghost predicate MadeBy(env: Env, b: Block, clock: string) {
    Made(env, b) && TextLe(b.timestamp, clock)
  }

  ghost predicate LogsMade(env: Env, logs: map<string, seq<Block>>, clock: string) {
    && (forall p, i | p in logs && 0 <= i < |logs[p]| :: MadeBy(env, logs[p][i], clock))
    && (forall p | p in logs :: SortedByTime(logs[p]))
  }

  ghost predicate ChainMade(env: Env, chain: Chain, clock: string) {
    && chain[0].blockHash == GENESIS_HASH
    && (forall i | 1 <= i < |chain| :: MadeBy(env, chain[i], clock))
    && SortedByTime(chain[1..])
  }

  ghost predicate MemoryInv(env: Env, w: World) {
    && Filed(w)
    && LogsMade(env, w.book.logs, w.clock)
    && ChainMade(env, w.book.chain, w.clock)
    && IndexInv(w.book.index, Tail(w.book))
  }

  // ------------------------------------------------------------------ operations

  lemma MadeLater(env: Env, b: Block, clock: string, now: string)
    requires MadeBy(env, b, clock) && TextLe(clock, now)
    ensures MadeBy(env, b, now)
  {
    hide TextLe, Made;
    TextTotalOrder(b.timestamp, clock, now);
  }

  lemma LogsMadeLater(env: Env, logs: map<string, seq<Block>>, clock: string, now: string)
    requires LogsMade(env, logs, clock) && TextLe(clock, now)
    ensures LogsMade(env, logs, now)
  {
    hide TextLe, MadeBy;
    forall p, i | p in logs && 0 <= i < |logs[p]|
      ensures MadeBy(env, logs[p][i], now)
    {
      MadeLater(env, logs[p][i], clock, now);
    }
  }

  lemma ChainMadeLater(env: Env, chain: Chain, clock: string, now: string)
    requires ChainMade(env, chain, clock) && TextLe(clock, now)
    ensures ChainMade(env, chain, now)
  {
    hide TextLe, MadeBy;
    forall i | 1 <= i < |chain|
      ensures MadeBy(env, chain[i], now)
    {
      MadeLater(env, chain[i], clock, now);
    }
  }

  /** A block mined on a chain of made blocks is made, linked or not. */
  lemma RecordIsMade(env: Env, chain: Chain, t: Transaction, io: Inputs, clock: string)
    requires PlainHash(env.hash) && ChainMade(env, chain, clock)
    requires IsStamp(io.minedAt) && Writable(t, io)
    ensures MadeBy(env, RecordBlock(env, chain, t, io), io.minedAt)
  {
    hide TextLe, IsStamp;
    TextTotalOrder(io.minedAt, io.minedAt, io.minedAt);
    if |chain| > 1 {
      assert MadeBy(env, chain[|chain| - 1], clock);
    }
    assert '[' !in chain[|chain| - 1].blockHash;
  }

  lemma ChainMadeAfterRecord(env: Env, chain: Chain, block: Block, clock: string)
    requires ChainMade(env, chain, clock) && TextLe(clock, block.timestamp)
    requires MadeBy(env, block, block.timestamp)
    ensures ChainMade(env, chain + [block], block.timestamp)
  {
    hide TextLe, Made, SortedByTime;
    var longer := chain + [block];
    assert longer[1..] == chain[1..] + [block];
    LatestLast(chain[1..], block, clock);
    ChainMadeLater(env, chain, clock, block.timestamp);
    assert forall i | 1 <= i < |longer| :: longer[i] == if i < |chain| then chain[i] else block;
  }

  lemma LogsMadeAfterRecord(env: Env, logs: map<string, seq<Block>>, block: Block, p: string, outcome: AppendOutcome,
                            clock: string)
    requires LogsMade(env, logs, clock) && TextLe(clock, block.timestamp)
    requires MadeBy(env, block, block.timestamp)
    ensures LogsMade(env, AppendLog(logs, p, block, outcome), block.timestamp)
  {
    hide TextLe, Made, SortedByTime;
    var after, log := AppendLog(logs, p, block, outcome), LogOf(logs, p);
    LogsMadeLater(env, logs, clock, block.timestamp);
    assert SortedByTime([]) by { EmptyIsSorted(); }
    forall i | 0 <= i < |log|
      ensures MadeBy(env, log[i], clock)
    {
    }
    LatestLast(log, block, clock);
    forall q, i | q in after && 0 <= i < |after[q]|
      ensures MadeBy(env, after[q][i], block.timestamp)
    {
      if q in logs && i < |logs[q]| {
        assert after[q][i] == logs[q][i];
      }
    }
  }

  lemma EmptyIsSorted()
    ensures SortedByTime([])
  {
  }

  lemma OperationKeepsMemory(env: Env, w: World, step: Step)
    requires PlainHash(env.hash)
    requires MemoryInv(env, w) && Admissible(w, step) && !step.op.RestartOp?
    ensures MemoryInv(env, Next(env, w, step))
  {
    hide Next, TextLe, IsStamp, LogsMade, ChainMade, IndexInv, LogsFiled, Mined, AppendLog, MadeBy;
    var b, after, io := w.book, Next(env, w, step).book, step.io;
    NextIsFiled(env, w, step);
    OperationPasses(env, w, step);
    var t := NextRecordsAtMostOnce(env, w, step);
    LogsMadeLater(env, b.logs, w.clock, io.minedAt);
    if after == b {
      ChainMadeLater(env, b.chain, w.clock, io.minedAt);
    } else {
      var block := RecordBlock(env, b.chain, t, io);
      RecordIsMade(env, b.chain, t, io, w.clock);
      ChainMadeAfterRecord(env, b.chain, block, w.clock);
      LogsMadeAfterRecord(env, b.logs, block, t.playerId, io.append, w.clock);
      assert Tail(after) == Tail(b) + [block];
      IndexInvAfterRecord(b.index, after.index, Tail(b), block, io);
    }
  }

  // -------------------------------------------------------------------- one player

  /** What memory holds about one player. */
  datatype Entry = Entry(profile: Option<PlayerProfile>, rewards: Option<RewardState>)

  function EntryOf(ix: Index, p: string): Entry {
    Entry(if p in ix.profiles then Some(ix.profiles[p]) else None,
          if p in ix.rewards then Some(ix.rewards[p]) else None)
  }

  function Of(p: string): Block -> bool {
    (b: Block) => Owner(b) == p
  }

  predicate Single(b: Block) {
    |b.transactions| == 1 && OwnChange(b.transactions[0])
  }

  lemma ApplyOwn(a: Index, b: Index, t: Transaction)
    requires OwnChange(t) && EntryOf(a, t.playerId) == EntryOf(b, t.playerId)
    ensures EntryOf(ApplyTransaction(a, t), t.playerId) == EntryOf(ApplyTransaction(b, t), t.playerId)
  {
    assert RewardsOf(a.rewards, t.playerId) == RewardsOf(b.rewards, t.playerId);
  }

  lemma ApplyOther(a: Index, t: Transaction, p: string)
    requires OwnChange(t) && t.playerId != p
    ensures EntryOf(ApplyTransaction(a, t), p) == EntryOf(a, p)
  {
  }

  /** The fold shows a player what the fold of the player's own blocks shows. */
  lemma {:induction false} FoldIsPerPlayer(blocks: seq<Block>, p: string)
    requires forall b | b in blocks :: Single(b)
    ensures EntryOf(ApplyBlocks(EMPTY_INDEX, blocks), p) == EntryOf(ApplyBlocks(EMPTY_INDEX, Kept(blocks, Of(p))), p)
  {
    hide ApplyBlocks, EntryOf, ApplyTransaction, OwnChange;
    if blocks == [] {
      NoneKept(Of(p));
    } else {
      var n := |blocks| - 1;
      var init, last := blocks[..n], blocks[n];
      assert blocks == init + [last] && Single(last);
      FoldIsPerPlayer(init, p);
      ApplyOneBlock(EMPTY_INDEX, init, last);
      KeptOne(init, last, Of(p));
      var whole, own := ApplyBlocks(EMPTY_INDEX, init), ApplyBlocks(EMPTY_INDEX, Kept(init, Of(p)));
      if Owner(last) == p {
        ApplyOneBlock(EMPTY_INDEX, Kept(init, Of(p)), last);
        ApplyOwn(whole, own, last.transactions[0]);
      } else {
        ApplyOther(whole, last.transactions[0], p);
        assert Kept(blocks, Of(p)) == Kept(init, Of(p));
      }
    }
  }

  lemma SameEntriesSameIndex(a: Index, b: Index)
    requires forall p: string :: EntryOf(a, p) == EntryOf(b, p)
    ensures a == b
  {
    forall p: string
      ensures p in a.profiles <==> p in b.profiles
      ensures p in a.profiles ==> a.profiles[p] == b.profiles[p]
      ensures p in a.rewards <==> p in b.rewards
      ensures p in a.rewards ==> a.rewards[p] == b.rewards[p]
    {
      assert EntryOf(a, p) == EntryOf(b, p);
    }
    assert a.profiles == b.profiles && a.rewards == b.rewards;
  }

  // --------------------------------------------------------------------- restarts

  lemma {:induction false} VerifiedIsSorted(hash: Preimage -> string, tip: string, log: seq<Block>)
    requires SortedByTime(log)
    ensures SortedByTime(Verified(hash, tip, log))
  {
    hide TextLe, Accepts, TipAfter;
    if log != [] {
      var n := |log| - 1;
      var kept := Verified(hash, tip, log[..n]);
      VerifiedIsSorted(hash, tip, log[..n]);
      forall x | x in kept
        ensures TextLe(x.timestamp, log[n].timestamp)
      {
        VerifiedIsFromLog(hash, tip, log[..n], x);
        LastIsLatest(log, x);
      }
      SortedThenLatest(kept, log[n]);
    }
  }

  lemma {:induction false} VerifiedIsDistinct(hash: Preimage -> string, tip: string, log: seq<Block>)
    requires NoRepeats(log)
    ensures NoRepeats(Verified(hash, tip, log))
  {
    hide Accepts, TipAfter;
    if log != [] {
      var n := |log| - 1;
      var kept := Verified(hash, tip, log[..n]);
      VerifiedIsDistinct(hash, tip, log[..n]);
      forall i | 0 <= i < |kept|
        ensures IdOf(kept[i]) != IdOf(log[n])
      {
        VerifiedIsFromLog(hash, tip, log[..n], kept[i]);
      }
    }
  }

  /** What replay takes from one log: blocks of its player, in time order, each once. */
  lemma TakenIsOwn(env: Env, w: World, faults: ReadFaults, p: string)
    requires MemoryInv(env, w)
    ensures var taken := TakenFrom(env.hash, w.book.logs, faults, p);
      && SortedByTime(taken) && NoRepeats(taken)
      && forall x | x in taken :: Owner(x) == p && MadeBy(env, x, w.clock)
  {
    hide Verified, MadeBy, IndexInv, ChainMade, TextLe;
    var log := LogOf(w.book.logs, p);
    assert SortedByTime(log) && NoRepeats(log) by {
      if p !in w.book.logs {
        EmptyIsSorted();
      }
    }
    VerifiedIsSorted(env.hash, GENESIS_HASH, log);
    VerifiedIsDistinct(env.hash, GENESIS_HASH, log);
    EmptyIsSorted();
    forall x | x in TakenFrom(env.hash, w.book.logs, faults, p)
      ensures Owner(x) == p && MadeBy(env, x, w.clock)
    {
      VerifiedIsFromLog(env.hash, GENESIS_HASH, log, x);
      var i :| 0 <= i < |w.book.logs[p]| && w.book.logs[p][i] == x;
    }
  }

  /** Replay takes a player's blocks from the player's own log. */
  lemma ReplayedOfPlayer(env: Env, w: World, ids: seq<string>, faults: ReadFaults, p: string)
    requires MemoryInv(env, w) && Lists(ids, w.book.logs)
    ensures Kept(ReplayedBlocks(env.hash, w.book.logs, ids, faults), Of(p))
            == if p in ids then TakenFrom(env.hash, w.book.logs, faults, p) else []
  {
    hide TakenFrom, ReplayedBlocks, MemoryInv, MadeBy, SortedByTime, NoRepeats;
    forall q
      ensures forall x | x in TakenFrom(env.hash, w.book.logs, faults, q) :: Owner(x) == q
    {
      TakenIsOwn(env, w, faults, q);
    }
    KeptOfReplayed(env.hash, w.book.logs, ids, faults, Of(p), p);
    AllKept(TakenFrom(env.hash, w.book.logs, faults, p), Of(p));
  }

  lemma {:induction false} AllKept(blocks: seq<Block>, f: Block -> bool)
    requires forall x | x in blocks :: f(x)
    ensures Kept(blocks, f) == blocks
  {
    if blocks != [] {
      var n := |blocks| - 1;
      AllKept(blocks[..n], f);
      assert blocks == blocks[..n] + [blocks[n]];
      KeptOne(blocks[..n], blocks[n], f);
      assert blocks[n] in blocks;
    }
  }

  lemma {:induction false} TakenFromSome(hash: Preimage -> string, logs: map<string, seq<Block>>, ids: seq<string>,
                                         faults: ReadFaults, x: Block)
    returns (p: string)
    requires x in ReplayedBlocks(hash, logs, ids, faults)
    ensures p in ids && x in TakenFrom(hash, logs, faults, p)
  {
    hide Verified;
    var n := |ids| - 1;
    if x in ReplayedBlocks(hash, logs, ids[..n], faults) {
      p := TakenFromSome(hash, logs, ids[..n], faults, x);
    } else {
      p := ids[n];
    }
  }

  /** No two replayed blocks are of one player under one id. */
  predicate DistinctRecords(blocks: seq<Block>) {
    forall i, j | 0 <= i < j < |blocks| :: Owner(blocks[i]) != Owner(blocks[j]) || IdOf(blocks[i]) != IdOf(blocks[j])
  }

  /** Distinct for every player is distinct. */
  lemma {:induction false} DistinctPerPlayer(blocks: seq<Block>)
    requires forall p :: NoRepeats(Kept(blocks, Of(p)))
    ensures DistinctRecords(blocks)
  {
    if blocks != [] {
      var n := |blocks| - 1;
      var init, last := blocks[..n], blocks[n];
      assert blocks == init + [last];
      forall p
        ensures NoRepeats(Kept(init, Of(p)))
      {
        KeptOne(init, last, Of(p));
        assert NoRepeats(Kept(blocks, Of(p)));
        assert Kept(init, Of(p)) <= Kept(blocks, Of(p));
        NoRepeatsInPrefix(Kept(blocks, Of(p)), Kept(init, Of(p)));
      }
      DistinctPerPlayer(init);
      forall i | 0 <= i < n
        ensures Owner(blocks[i]) != Owner(last) || IdOf(blocks[i]) != IdOf(last)
      {
        if Owner(blocks[i]) == Owner(last) {
          var f := Of(Owner(last));
          KeptOne(init, last, f);
          KeptMembers(init, f, init[i]);
          LastIsNew(Kept(init, f), last, init[i]);
        }
      }
    }
  }

  lemma NoRepeatsInPrefix(blocks: seq<Block>, prefix: seq<Block>)
    requires NoRepeats(blocks) && prefix <= blocks
    ensures NoRepeats(prefix)
  {
    assert forall i | 0 <= i < |prefix| :: prefix[i] == blocks[i];
  }

  lemma LastIsNew(blocks: seq<Block>, last: Block, x: Block)
    requires NoRepeats(blocks + [last]) && x in blocks
    ensures IdOf(x) != IdOf(last)
  {
    var i :| 0 <= i < |blocks| && blocks[i] == x;
    assert (blocks + [last])[i] == x && (blocks + [last])[|blocks|] == last;
  }

  /** Made blocks of different players or ids carry different hashes. */
  lemma MadeHashesDistinct(env: Env, blocks: seq<Block>, clock: string)
    requires Binding(env.hash) && DistinctRecords(blocks)
    requires forall x | x in blocks :: MadeBy(env, x, clock)
    ensures DistinctHashes(blocks)
  {
    hide TextLe, Made, MadeBy;
    forall i, j | 0 <= i < j < |blocks|
      ensures blocks[i].blockHash != blocks[j].blockHash
    {
      var x, y := blocks[i], blocks[j];
      assert MadeBy(env, x, clock) && MadeBy(env, y, clock);
      if x.blockHash == y.blockHash {
        SameHashSameRecord(env, x, y, clock);
      }
    }
  }

  lemma SameHashSameRecord(env: Env, x: Block, y: Block, clock: string)
    requires Binding(env.hash) && MadeBy(env, x, clock) && MadeBy(env, y, clock) && x.blockHash == y.blockHash
    ensures Owner(x) == Owner(y) && IdOf(x) == IdOf(y)
  {
    hide TextLe, IsStamp, OwnChange;
    assert SameContent(BlockPreimage(x), BlockPreimage(y));
  }

  lemma RestartBlocks(env: Env, w: World, ids: seq<string>, faults: ReadFaults) returns (blocks: seq<Block>)
    requires Binding(env.hash) && MemoryInv(env, w) && Lists(ids, w.book.logs)
    ensures blocks == if faults.listing then [] else ReplayedBlocks(env.hash, w.book.logs, ids, faults)
    ensures forall x | x in blocks :: MadeBy(env, x, w.clock)
    ensures forall p :: SortedByTime(Kept(blocks, Of(p)))
    ensures DistinctHashes(blocks)
  {
    hide TakenFrom, ReplayedBlocks, MemoryInv, MadeBy, Lists, Kept, SortedByTime, NoRepeats;
    blocks := if faults.listing then [] else ReplayedBlocks(env.hash, w.book.logs, ids, faults);
    forall x | x in blocks
      ensures MadeBy(env, x, w.clock)
    {
      var p := TakenFromSome(env.hash, w.book.logs, ids, faults, x);
      TakenIsOwn(env, w, faults, p);
    }
    EmptyIsSorted();
    assert NoRepeats([]) by { EmptyHasNoRepeats(); }
    forall p
      ensures SortedByTime(Kept(blocks, Of(p))) && NoRepeats(Kept(blocks, Of(p)))
    {
      NoneKept(Of(p));
      if !faults.listing {
        ReplayedOfPlayer(env, w, ids, faults, p);
        TakenIsOwn(env, w, faults, p);
      }
    }
    DistinctPerPlayer(blocks);
    MadeHashesDistinct(env, blocks, w.clock);
  }

  lemma EmptyHasNoRepeats()
    ensures NoRepeats([])
  {
  }

  /** Folding the replayed blocks player after player gives what folding them in the order of
      the ledger gives: the sort keeps every player's blocks in order. */
  lemma SortedFoldIsSame(blocks: seq<Block>)
    requires forall x | x in blocks :: Single(x)
    requires forall p :: SortedByTime(Kept(blocks, Of(p)))
    ensures ApplyBlocks(EMPTY_INDEX, SortByTime(blocks)) == ApplyBlocks(EMPTY_INDEX, blocks)
  {
    hide SortByTime, ApplyBlocks, Kept, SortedByTime, EntryOf, Single;
    var sorted := SortByTime(blocks);
    SortSorts(blocks);
    forall x | x in sorted
      ensures Single(x)
    {
      assert x in multiset(sorted);
    }
    forall p
      ensures EntryOf(ApplyBlocks(EMPTY_INDEX, sorted), p) == EntryOf(ApplyBlocks(EMPTY_INDEX, blocks), p)
    {
      SortKeepsOrder(blocks, Of(p));
      FoldIsPerPlayer(sorted, p);
      FoldIsPerPlayer(blocks, p);
    }
    SameEntriesSameIndex(ApplyBlocks(EMPTY_INDEX, sorted), ApplyBlocks(EMPTY_INDEX, blocks));
  }

  lemma RestartKeepsMemory(env: Env, w: World, step: Step)
    requires Binding(env.hash)
    requires MemoryInv(env, w) && Admissible(w, step) && step.op.RestartOp?
    ensures MemoryInv(env, Next(env, w, step))
  {
    hide ReplayedBlocks, SortByTime, DedupByHash, ApplyBlocks, LogsMade, LogsFiled, MadeBy, Next, Kept, SortedByTime,
         DistinctHashes, OwnIds, SameIndex;
    var op, after := step.op, Next(env, w, step);
    NextIsFiled(env, w, step);
    NextRestart(env, w, step);
    var blocks := RestartBlocks(env, w, op.ids, op.faults);
    var sorted := SortByTime(blocks);
    DedupOfSorted(blocks);
    SortSorts(blocks);
    assert Tail(after.book) == sorted;
    forall x | x in blocks
      ensures Single(x)
    {
      MadeIsSingle(env, x, w.clock);
    }
    SortedFoldIsSame(blocks);
    SameIndexOfItself(after.book.index);
    forall i | 1 <= i < |after.book.chain|
      ensures MadeBy(env, after.book.chain[i], w.clock)
    {
      assert after.book.chain[i] == sorted[i - 1] && sorted[i - 1] in multiset(sorted);
    }
  }

  lemma MadeIsSingle(env: Env, b: Block, clock: string)
    requires MadeBy(env, b, clock)
    ensures Single(b)
  {
  }

  lemma SameIndexOfItself(ix: Index)
    ensures SameIndex(ix, ix)
  {
  }

  // ------------------------------------------------------------------------- runs

  lemma {:induction false} RunKeepsMemory(env: Env, w: World, steps: seq<Step>)
    requires Binding(env.hash) && MemoryInv(env, w) && AdmissibleRun(env, w, steps)
    ensures MemoryInv(env, Run(env, w, steps))
  {
    hide Binding, MemoryInv, Next, Admissible;
    if steps != [] {
      var n := |steps| - 1;
      var before := Run(env, w, steps[..n]);
      RunKeepsMemory(env, w, steps[..n]);
      if steps[n].op.RestartOp? {
        RestartKeepsMemory(env, before, steps[n]);
      } else {
        assert PlainHash(env.hash) by { BindingIsPlain(env.hash); }
        OperationKeepsMemory(env, before, steps[n]);
      }
    }
  }

  lemma BindingIsPlain(hash: Preimage -> string)
    requires Binding(hash)
    ensures PlainHash(hash)
  {
  }

  lemma InitialMemory(env: Env, now: Launch)
    ensures MemoryInv(env, Initial(env, now))
  {
  }

  /** In every state that can be reached, after failed appends and restarts that failed to list
      the players or to read any logs: profiles and rewards (missing rewards counting as empty)
      are the fold of the ledger, and its blocks are in time order. */
  lemma MemoryIndexesLedger(env: Env, w: World)
    requires Binding(env.hash) && Reached(env, w)
    ensures w.book.index.profiles == ApplyBlocks(EMPTY_INDEX, w.book.chain[1..]).profiles
    ensures forall p: string ::
              RewardsOf(w.book.index.rewards, p)
              == RewardsOf(ApplyBlocks(EMPTY_INDEX, w.book.chain[1..]).rewards, p)
    ensures SortedByTime(w.book.chain[1..])
  {
    hide Binding, AdmissibleRun, Run, ApplyBlocks;
    var now, steps :| ReachedBy(env, now, steps, w);
    InitialMemory(env, now);
    RunKeepsMemory(env, Initial(env, now), steps);
  }

  // ---------------------------------------------------------- when the ledger is valid

  /** Replay takes blocks of one player only. */
  predicate OneContributes(hash: Preimage -> string, logs: map<string, seq<Block>>, ids: seq<string>,
                           faults: ReadFaults)
  {
    forall p, q | p in ids && q in ids && p != q ::
      TakenFrom(hash, logs, faults, p) == [] || TakenFrom(hash, logs, faults, q) == []
  }

  lemma FirstTakenLinksToGenesis(hash: Preimage -> string, logs: map<string, seq<Block>>, faults: ReadFaults, p: string)
    requires TakenFrom(hash, logs, faults, p) != []
    ensures TakenFrom(hash, logs, faults, p)[0].previousBlockHash == GENESIS_HASH
  {
    hide Verified;
    VerifiedContinues(hash, GENESIS_HASH, LogOf(logs, p));
    var taken := TakenFrom(hash, logs, faults, p);
    assert Accepts(hash, TipAfter(GENESIS_HASH, taken[..0]), taken[0]);
  }

  lemma OneTakenIsValid(env: Env, w: World, ids: seq<string>, faults: ReadFaults, now: Launch)
    requires Binding(env.hash) && MemoryInv(env, w) && Lists(ids, w.book.logs)
    requires !faults.listing && OneContributes(env.hash, w.book.logs, ids, faults)
    ensures ValidChain(env.hash, ReplayBook(env, w.book.logs, ids, faults, now).chain)
  {
    hide ReplayedBlocks, SortByTime, DedupByHash, ApplyBlocks, MemoryInv, MadeBy, Kept, SortedByTime, DistinctHashes,
         Binding, Lists, NoRepeats;
    assert forall i, j | 0 <= i < j < |ids| :: ids[i] != ids[j] by { ListsOnce(ids, w.book.logs); }
    var p := "";
    if q :| q in ids && TakenFrom(env.hash, w.book.logs, faults, q) != [] {
      p := q;
    }
    var blocks := RestartBlocks(env, w, ids, faults);
    var all := (b: Block) => true;
    KeptOfReplayed(env.hash, w.book.logs, ids, faults, all, p);
    AllKept(blocks, all);
    AllKept(TakenFrom(env.hash, w.book.logs, faults, p), all);
    assert blocks == if p in ids then TakenFrom(env.hash, w.book.logs, faults, p) else [];
    TakenIsOwn(env, w, faults, p);
    EmptyIsSorted();
    SortKeepsSorted(blocks);
    DedupOfSorted(blocks);
    var chain := ReplayBook(env, w.book.logs, ids, faults, now).chain;
    assert chain[1..] == blocks;
    assert Continues(env.hash, GENESIS_HASH, blocks) by {
      hide Verified;
      VerifiedContinues(env.hash, GENESIS_HASH, LogOf(w.book.logs, p));
    }
    ValidIsContinues(env.hash, chain);
  }

  lemma ListsOnce(ids: seq<string>, logs: map<string, seq<Block>>)
    requires Lists(ids, logs)
    ensures forall i, j | 0 <= i < j < |ids| :: ids[i] != ids[j]
  {
  }

  /** Two blocks that link to genesis cannot both be in a valid chain of made blocks. */
  lemma TwoLinksBreakChain(env: Env, chain: Chain, clock: string, x: Block, y: Block)
    requires PlainHash(env.hash) && ChainMade(env, chain, clock)
    requires x in chain[1..] && y in chain[1..] && x != y
    requires x.previousBlockHash == GENESIS_HASH && y.previousBlockHash == GENESIS_HASH
    ensures !ValidChain(env.hash, chain)
  {
    hide TextLe, IsStamp, SortedByTime;
    var i :| 0 <= i < |chain[1..]| && chain[1..][i] == x;
    var j :| 0 <= j < |chain[1..]| && chain[1..][j] == y;
    var k := if i < j then j else i;
    assert k >= 1 && MadeBy(env, chain[k], clock);
    assert chain[k].blockHash != GENESIS_HASH && chain[k + 1].previousBlockHash == GENESIS_HASH;
    assert !Accepts(env.hash, chain[k].blockHash, chain[k + 1]);
  }

  /** Exactly when the ledger a restart rebuilds is a valid chain, in every state that can be
      reached and whatever it fails to read: no two players' logs were verified from genesis. */
  lemma RestartedLedgerValidIff(env: Env, w: World, step: Step)
    requires Binding(env.hash) && Reached(env, w) && step.op.RestartOp? && Admissible(w, step)
    ensures ValidChain(env.hash, Next(env, w, step).book.chain)
            <==> step.op.faults.listing || OneContributes(env.hash, w.book.logs, step.op.ids, step.op.faults)
  {
    hide ReplayedBlocks, SortByTime, DedupByHash, ApplyBlocks, MemoryInv, MadeBy, Kept, SortedByTime, DistinctHashes,
         Binding, Lists, NoRepeats, Next, TakenFrom, Run, AdmissibleRun;
    var now, steps :| ReachedBy(env, now, steps, w);
    InitialMemory(env, now);
    RunKeepsMemory(env, Initial(env, now), steps);
    var op, chain := step.op, Next(env, w, step).book.chain;
    NextRestart(env, w, step);
    var blocks := RestartBlocks(env, w, op.ids, op.faults);
    DedupOfSorted(blocks);
    assert chain[1..] == SortByTime(blocks);
    if op.faults.listing {
      assert SortByTime([]) == [] by { NothingSorted(); }
    } else if OneContributes(env.hash, w.book.logs, op.ids, op.faults) {
      OneTakenIsValid(env, w, op.ids, op.faults, op.now);
    } else {
      var p, q :| p in op.ids && q in op.ids && p != q
                  && TakenFrom(env.hash, w.book.logs, op.faults, p) != []
                  && TakenFrom(env.hash, w.book.logs, op.faults, q) != [];
      var x, y := TakenFrom(env.hash, w.book.logs, op.faults, p)[0], TakenFrom(env.hash, w.book.logs, op.faults, q)[0];
      FirstTakenLinksToGenesis(env.hash, w.book.logs, op.faults, p);
      FirstTakenLinksToGenesis(env.hash, w.book.logs, op.faults, q);
      TakenIsOwn(env, w, op.faults, p);
      TakenIsOwn(env, w, op.faults, q);
      TakenInSorted(env.hash, w.book.logs, op.ids, op.faults, p, x);
      TakenInSorted(env.hash, w.book.logs, op.ids, op.faults, q, y);
      RestartKeepsMemory(env, w, step);
      assert ChainMade(env, chain, w.clock) by { MemoryChain(env, Next(env, w, step)); }
      assert PlainHash(env.hash) by { BindingIsPlain(env.hash); }
      hide ChainMade;
      TwoLinksBreakChain(env, chain, w.clock, x, y);
    }
  }

  lemma MemoryChain(env: Env, w: World)
    requires MemoryInv(env, w)
    ensures ChainMade(env, w.book.chain, w.clock)
  {
  }

  lemma TakenInSorted(hash: Preimage -> string, logs: map<string, seq<Block>>, ids: seq<string>, faults: ReadFaults,
                      p: string, x: Block)
    requires p in ids && x in TakenFrom(hash, logs, faults, p)
    ensures x in SortByTime(ReplayedBlocks(hash, logs, ids, faults))
  {
    hide TakenFrom, ReplayedBlocks, SortByTime;
    var m: nat :| m < |ids| && ids[m] == p;
    TakenIsReplayed(hash, logs, ids, faults, m, x);
    SortSorts(ReplayedBlocks(hash, logs, ids, faults));
    assert x in multiset(ReplayedBlocks(hash, logs, ids, faults));
  }
}
