/** What stays true of the files whatever a restart manages to read: every block sits in the
    log of its own player, under an id of its own. */
module Filing {
  import opened Blockchain
  import opened LogVerifier
  import opened Journal
  import opened Claims
  import opened Runs
  import opened LedgerInvariant
  import opened Recovery
  import opened ReplayOrder

  predicate LogsFiled(logs: map<string, seq<Block>>, used: set<string>) {
    && (forall p, i | p in logs && 0 <= i < |logs[p]| :: Owner(logs[p][i]) == p && IdOf(logs[p][i]) in used)
    && (forall p | p in logs :: NoRepeats(logs[p]))
  }

  predicate Filed(w: World) {
    && LogsFiled(w.book.logs, w.used)
    && (forall x | x in Tail(w.book) :: IdOf(x) in w.used)
    && OwnIds(w.book.index)
  }

  /** A logged block is in the log of its own player, and in no other. */
  lemma LoggedAtOwner(logs: map<string, seq<Block>>, used: set<string>, p: string, x: Block)
    requires LogsFiled(logs, used) && x in LogOf(logs, p)
    ensures p == Owner(x) && p in logs && IdOf(x) in used
  {
    var i :| 0 <= i < |logs[p]| && logs[p][i] == x;
  }

  // -------------------------------------------------------------------- restarts

  lemma {:induction false} ReplayedFromLogs(hash: Preimage -> string, logs: map<string, seq<Block>>, ids: seq<string>,
                                            faults: ReadFaults, x: Block)
    returns (p: string)
    requires x in ReplayedBlocks(hash, logs, ids, faults)
    ensures x in LogOf(logs, p)
  {
    var n := |ids| - 1;
    if x in ReplayedBlocks(hash, logs, ids[..n], faults) {
      p := ReplayedFromLogs(hash, logs, ids[..n], faults, x);
    } else {
      p := ids[n];
      VerifiedIsFromLog(hash, GENESIS_HASH, LogOf(logs, p), x);
    }
  }

  lemma {:induction false} DedupDropsOnly(blocks: seq<Block>, x: Block)
    requires x in DedupByHash(blocks)
    ensures x in blocks
  {
    var init := blocks[..|blocks| - 1];
    if x in DedupByHash(init) {
      DedupDropsOnly(init, x);
    }
  }

  /** Whatever could be read, the chain after a restart is made of logged blocks. */
  lemma RestartChainIsLogged(env: Env, logs: map<string, seq<Block>>, ids: seq<string>, faults: ReadFaults, now: Launch,
                             x: Block)
    returns (p: string)
    requires x in ReplayBook(env, logs, ids, faults, now).chain[1..]
    ensures x in LogOf(logs, p)
  {
    hide DedupByHash, SortByTime, ReplayedBlocks, ApplyBlocks;
    var blocks := if faults.listing then [] else ReplayedBlocks(env.hash, logs, ids, faults);
    assert ReplayBook(env, logs, ids, faults, now).chain[1..] == DedupByHash(SortByTime(blocks));
    DedupDropsOnly(SortByTime(blocks), x);
    SortSorts(blocks);
    assert x in multiset(blocks);
    assert !faults.listing;
    p := ReplayedFromLogs(env.hash, logs, ids, faults, x);
  }

  lemma RestartIsFiled(env: Env, w: World, step: Step)
    requires Filed(w) && step.op.RestartOp?
    ensures Filed(Next(env, w, step))
  {
    hide ReplayedBlocks, DedupByHash, SortByTime, ApplyBlocks, LogsFiled;
    var after, op := Next(env, w, step), step.op;
    forall x | x in Tail(after.book)
      ensures IdOf(x) in w.used
    {
      var p := RestartChainIsLogged(env, w.book.logs, op.ids, op.faults, op.now, x);
      LoggedAtOwner(w.book.logs, w.used, p, x);
    }
    ReplayedOwnIds(if op.faults.listing then [] else ReplayedBlocks(env.hash, w.book.logs, op.ids, op.faults));
  }

  // ------------------------------------------------------------------ operations

  /** Every operation but a review and a submission, on the index alone. */
  lemma NextBookOwnIds(env: Env, b: Book, op: Op, io: Inputs)
    requires OwnIds(b.index) && !op.ReviewClaimOp? && !op.RestartOp?
    ensures OwnIds(NextBook(env, b, op, io).index)
  {
    hide Mined, AppendLog, PushAchievement, PushEntitlement;
  }

  lemma OperationOwnIds(env: Env, w: World, step: Step)
    requires OwnIds(w.book.index) && !step.op.RestartOp?
    ensures OwnIds(Next(env, w, step).book.index)
  {
    hide AwardAchievement, ReviewClaim, SubmitClaim, OwnIds, CreateProfile, SetVector, MergeVector, AwardEntitlement;
    var op, b, io := step.op, w.book, step.io;
    if op.ReviewClaimOp? {
      ReviewBook(env, b, w.desk, op.player, op.claimId, op.reviewer, op.action, op.note, op.definition, io);
      if op.definition.Some? {
        NextBookOwnIds(env, b, AwardAchievementOp(op.player, op.definition.value), io);
      }
    } else {
      NextBookOwnIds(env, b, op, io);
    }
  }

  lemma RecordIsFiled(env: Env, logs: map<string, seq<Block>>, used: set<string>, block: Block, io: Inputs,
                      p: string)
    requires LogsFiled(logs, used)
    requires Owner(block) == p && IdOf(block) == io.transactionId && io.transactionId !in used
    ensures LogsFiled(AppendLog(logs, p, block, io.append), used + {io.transactionId})
  {
    var after := AppendLog(logs, p, block, io.append);
    forall q, i | q in after && 0 <= i < |after[q]|
      ensures Owner(after[q][i]) == q && IdOf(after[q][i]) in used + {io.transactionId}
    {
      if q in logs && i < |logs[q]| {
        assert after[q][i] == logs[q][i];
      }
    }
    forall q | q in after
      ensures NoRepeats(after[q])
    {
      assert q in logs ==> NoRepeats(logs[q]);
    }
  }

  lemma NextIsFiled(env: Env, w: World, step: Step)
    requires Filed(w) && Admissible(w, step)
    ensures Filed(Next(env, w, step))
  {
    hide Next, Mined, LogsFiled, OwnIds, AppendLog;
    if step.op.RestartOp? {
      RestartIsFiled(env, w, step);
    } else {
      var after, id := Next(env, w, step), step.io.transactionId;
      var t := NextRecordsAtMostOnce(env, w, step);
      OperationOwnIds(env, w, step);
      OperationPasses(env, w, step);
      MoreIdsUsed(w.book.logs, w.used, id);
      if after.book != w.book {
        var block := RecordBlock(env, w.book.chain, t, step.io);
        assert Owner(block) == t.playerId && IdOf(block) == id;
        assert Tail(after.book) == Tail(w.book) + [block];
        RecordIsFiled(env, w.book.logs, w.used, block, step.io, t.playerId);
      }
    }
  }

  lemma MoreIdsUsed(logs: map<string, seq<Block>>, used: set<string>, id: string)
    requires LogsFiled(logs, used)
    ensures LogsFiled(logs, used + {id})
  {
  }
}
