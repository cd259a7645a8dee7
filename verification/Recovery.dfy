/** Over every run, with any appends failing and any number of restarts: what memory says
    about the ledger, and what the next restart recovers of it. */
module Recovery {
  import opened Common
  import opened Order
  import opened BitVectors
  import opened Blockchain
  import opened LogVerifier
  import opened Registry
  import opened Journal
  import opened Claims
  import opened Runs
  import opened LedgerInvariant

  /** The step is no restart that missed something it could have found of the ledger: it read
      the log of the player owning block 1, if any of the chain is durable. */
  predicate ReadsLedger(w: World, step: Step) {
    step.op.RestartOp? ==> ReadsFound(Tail(w.book), w.book.logs, step.op.faults)
  }

  predicate LedgerReadRun(env: Env, w: World, steps: seq<Step>) {
    steps == []
    || (LedgerReadRun(env, w, steps[..|steps| - 1])
        && ReadsLedger(Run(env, w, steps[..|steps| - 1]), steps[|steps| - 1]))
  }

  lemma {:induction false} AllReadsReadLedger(env: Env, w: World, steps: seq<Step>)
    requires AllReadsWork(steps)
    ensures LedgerReadRun(env, w, steps)
  {
    hide Run;
    if steps != [] {
      AllReadsReadLedger(env, w, steps[..|steps| - 1]);
      assert ReadsAll(steps[|steps| - 1]);
    }
  }

  lemma NoRestartsReadLedger(env: Env, w: World, steps: seq<Step>)
    requires NoRestarts(steps)
    ensures LedgerReadRun(env, w, steps)
  {
    AllReadsReadLedger(env, w, steps);
  }

  /** A state that is reached when no restart missed anything it could have found of the ledger. */
  ghost predicate Reachable(env: Env, w: World) {
    exists now, steps :: ReachedBy(env, now, steps, w) && LedgerReadRun(env, Initial(env, now), steps)
  }

  ghost predicate Sound(env: Env, w: World) {
    BookInv(env, w.book, w.clock, w.used)
  }

  lemma InitialIsSound(env: Env, now: Launch)
    ensures Sound(env, Initial(env, now))
  {
  }

  // ---------------------------------------------------------- one step at a time

  /** A review leaves the book as it is or awards the achievement once. */
  lemma ReviewBook(env: Env, b: Book, d: Desk, player: string, claimId: string, reviewer: string,
                   action: ReviewAction, note: Option<string>, definition: Option<AchievementDefinition>, io: Inputs)
    ensures var book := ReviewClaim(env, b, d, player, claimId, reviewer, action, note, definition, io).0;
      book == b || (definition.Some? && book == AwardAchievement(env, b, player, definition.value, io).0)
  {
    hide AwardAchievement, PersistClaims, Reviewed;
  }

  /** The player an operation is for. */
  function PlayerOf(op: Op): string {
    match op
    case CreateProfileOp(player, _) => player
    case SetVectorOp(player, _) => player
    case MergeVectorOp(player, _) => player
    case AwardAchievementOp(player, _) => player
    case AwardEntitlementOp(player, _, _, _) => player
    case SubmitClaimOp(player, _) => player
    case ReviewClaimOp(player, _, _, _, _, _) => player
    case RestartOp(_, _, _) => ""
  }

  /** The chain gained the block mined for `t`, and so did the log of its player if storage
      wrote it; memory already shows `t`. */
  ghost predicate RecordedAs(env: Env, b: Book, after: Book, t: Transaction, io: Inputs) {
    var block := RecordBlock(env, b.chain, t, io);
    && Writable(t, io)
    && SameIndex(after.index, ApplyTransaction(b.index, t))
    && after.chain == b.chain + [block]
    && after.logs == if env.isUuid(t.playerId) then AppendLog(b.logs, t.playerId, block, io.append) else b.logs
  }

  lemma ProfileOpRecords(env: Env, b: Book, op: Op, io: Inputs) returns (t: Transaction)
    requires OwnIds(b.index)
    requires op.CreateProfileOp? || op.SetVectorOp? || op.MergeVectorOp?
    ensures t.transactionId == io.transactionId
    ensures var after := NextBook(env, b, op, io);
      after == b || (RecordedAs(env, b, after, t, io) && t.playerId == PlayerOf(op))
  {
    hide Mined, AppendLog, Xor, New;
    var player := PlayerOf(op);
    var profile := PlayerProfile("", "", BitVec(0, []));
    match op {
      case CreateProfileOp(_, name) =>
        profile := PlayerProfile(player, name, New(DEFAULT_DIM));
      case SetVectorOp(_, vec) =>
        if player in b.index.profiles { profile := b.index.profiles[player].(profileVec := vec); }
      case MergeVectorOp(_, vec) =>
        if player in b.index.profiles && Mergeable(b, player, vec) {
          profile := b.index.profiles[player].(profileVec := Xor(b.index.profiles[player].profileVec, vec));
        }
    }
    t := ChangeTransaction(env, profile, io);
  }

  lemma AwardOpRecords(env: Env, b: Book, op: Op, io: Inputs) returns (t: Transaction)
    requires op.AwardAchievementOp? || op.AwardEntitlementOp?
    ensures t.transactionId == io.transactionId
    ensures var after := NextBook(env, b, op, io);
      after == b || (RecordedAs(env, b, after, t, io) && t.playerId == PlayerOf(op))
  {
    hide Mined, AppendLog;
    match op {
      case AwardAchievementOp(player, def) =>
        t := AchievementTransaction(env, player, def, io);
      case AwardEntitlementOp(player, def, quantity, expiration) =>
        t := AwardTransaction(env, player, "entitlement",
                              EntitlementGranted(GrantedEntitlement(def, quantity, expiration)), io);
    }
  }

  /** Every operation records at most one transaction, and that one about its player. */
  lemma NextRecordsAtMostOnce(env: Env, w: World, step: Step) returns (t: Transaction)
    requires OwnIds(w.book.index)
    requires !step.op.RestartOp?
    ensures t.transactionId == step.io.transactionId
    ensures step.op.ReviewClaimOp? && Next(env, w, step).book != w.book ==>
              && step.op.definition.Some?
              && t == AchievementTransaction(env, step.op.player, step.op.definition.value, step.io)
    ensures var after := Next(env, w, step).book;
      after == w.book || (RecordedAs(env, w.book, after, t, step.io) && t.playerId == PlayerOf(step.op))
  {
    hide SubmitClaim, ReviewClaim, RecordedAs, AwardAchievement, AwardEntitlement, CreateProfile, SetVector,
         MergeVector;
    var b, io := w.book, step.io;
    match step.op {
      case SubmitClaimOp(_, _) =>
        t := ChangeTransaction(env, PlayerProfile("", "", BitVec(0, [])), io);
      case ReviewClaimOp(player, claimId, reviewer, action, note, definition) =>
        ReviewBook(env, b, w.desk, player, claimId, reviewer, action, note, definition, io);
        if definition.Some? {
          t := AchievementTransaction(env, player, definition.value, io);
          AwardIsRecorded(env, b, player, definition.value, io);
        } else {
          t := ChangeTransaction(env, PlayerProfile("", "", BitVec(0, [])), io);
        }
      case AwardAchievementOp(_, _) =>
        t := AwardOpRecords(env, b, step.op, io);
      case AwardEntitlementOp(_, _, _, _) =>
        t := AwardOpRecords(env, b, step.op, io);
      case _ =>
        t := ProfileOpRecords(env, b, step.op, io);
    }
  }

  lemma AwardIsRecorded(env: Env, b: Book, player: string, def: AchievementDefinition, io: Inputs)
    ensures var after := AwardAchievement(env, b, player, def, io).0;
      after == b || RecordedAs(env, b, after, AchievementTransaction(env, player, def, io), io)
  {
    hide Mined, AppendLog;
  }

  /** The transaction of an achievement award. */
  function AchievementTransaction(env: Env, player: string, def: AchievementDefinition, io: Inputs): Transaction {
    AwardTransaction(env, player, "achievement", AchievementAwarded(AwardedAchievement(def, io)), io)
  }

  /** Every admissible step keeps the ledger, the logs and the index in agreement. */
  lemma NextIsSound(env: Env, w: World, step: Step)
    requires Binding(env.hash)
    requires Sound(env, w) && Admissible(w, step) && ReadsLedger(w, step)
    ensures Sound(env, Next(env, w, step))
  {
    hide Binding, BookInv, TextLe, IsStamp, Next, Lists;
    var after, io := Next(env, w, step), step.io;
    if step.op.RestartOp? {
      assert Lists(step.op.ids, w.book.logs);
      RestartKeepsBookInv(env, w.book, w.clock, w.used, step.op.ids, step.op.now);
      FoundIsEnoughIff(env, w.book, w.clock, w.used, step.op.ids, step.op.faults, step.op.now);
      NextRestart(env, w, step);
    } else {
      assert OwnIds(w.book.index) by { SoundOwnIds(env, w); }
      var t := NextRecordsAtMostOnce(env, w, step);
      OperationPasses(env, w, step);
      if after.book == w.book {
        WaitKeepsBookInv(env, w.book, w.clock, w.used, io.minedAt, {io.transactionId});
      } else {
        assert after.book == AddRecord(env, w.book.(index := after.book.index), t, io);
        RecordKeepsBookInv(env, w.book, after.book.index, t, io, w.clock, w.used);
      }
    }
  }

  lemma SoundOwnIds(env: Env, w: World)
    requires Sound(env, w)
    ensures OwnIds(w.book.index)
  {
  }

  /** Every operation takes the clock forward and spends its id. */
  lemma OperationPasses(env: Env, w: World, step: Step)
    requires !step.op.RestartOp?
    ensures Next(env, w, step).clock == step.io.minedAt
    ensures Next(env, w, step).used == w.used + {step.io.transactionId}
  {
    hide NextBook, ReviewClaim, SubmitClaim;
  }

  lemma NextRestart(env: Env, w: World, step: Step)
    requires step.op.RestartOp?
    ensures var after := Next(env, w, step);
      && after.book == ReplayBook(env, w.book.logs, step.op.ids, step.op.faults, step.op.now)
      && after.clock == w.clock && after.used == w.used
  {
  }

  lemma {:induction false} RunIsSound(env: Env, w: World, steps: seq<Step>)
    requires Binding(env.hash)
    requires Sound(env, w) && AdmissibleRun(env, w, steps) && LedgerReadRun(env, w, steps)
    ensures Sound(env, Run(env, w, steps))
  {
    if steps != [] {
      var n := |steps| - 1;
      RunIsSound(env, w, steps[..n]);
      NextIsSound(env, Run(env, w, steps[..n]), steps[n]);
    }
  }

  // ------------------------------------------------------------- reachable states

  lemma ReachableIsSound(env: Env, w: World)
    requires Binding(env.hash) && Reachable(env, w)
    ensures Sound(env, w)
  {
    var now, steps :| ReachedBy(env, now, steps, w) && LedgerReadRun(env, Initial(env, now), steps);
    InitialIsSound(env, now);
    RunIsSound(env, Initial(env, now), steps);
  }

  /** The ledger is a valid chain in every state reached by restarts that read everything. */
  lemma LedgerStaysValid(env: Env, w: World)
    requires Binding(env.hash) && Reachable(env, w)
    ensures ValidChain(env.hash, w.book.chain)
  {
    ReachableIsSound(env, w);
  }

  // ------------------------------------------------------------- one genesis link

  /** At most one durable block links to the genesis hash. */
  ghost predicate OneGenesisLink(logs: map<string, seq<Block>>) {
    forall p: string, i: int, q: string, j: int |
        && p in logs && 0 <= i < |logs[p]| && logs[p][i].previousBlockHash == GENESIS_HASH
        && q in logs && 0 <= j < |logs[q]| && logs[q][j].previousBlockHash == GENESIS_HASH ::
      p == q && i == j
  }

  lemma SoundHasOneLink(env: Env, w: World)
    requires Sound(env, w)
    ensures OneGenesisLink(w.book.logs)
  {
    hide ChainInv, IndexInv, VerifiesTo, Made;
    var logs: map<string, seq<Block>> := w.book.logs;
    forall p: string, i: int, q: string, j: int |
        && p in logs && 0 <= i < |logs[p]| && logs[p][i].previousBlockHash == GENESIS_HASH
        && q in logs && 0 <= j < |logs[q]| && logs[q][j].previousBlockHash == GENESIS_HASH
      ensures p == q && i == j
    {
      assert logs[p][i] == logs[q][j];
      assert Logged(env, p, logs[p][i], w.used) && Logged(env, q, logs[q][j], w.used);
      assert NoRepeats(logs[p]);
    }
  }

  /** Over any sequence of lifetimes at most one durable block links to the genesis hash. */
  lemma AtMostOneGenesisLink(env: Env, w: World)
    requires Binding(env.hash) && Reachable(env, w)
    ensures OneGenesisLink(w.book.logs)
  {
    hide Binding, Sound, OneGenesisLink;
    ReachableIsSound(env, w);
    SoundHasOneLink(env, w);
  }

  // --------------------------------------------------------- what restarts recover

  lemma {:induction false} QuarantinedIsTheRest(hash: Preimage -> string, tip: string, log: seq<Block>, b: Block)
    requires NoRepeats(log) && b in log
    ensures b in Quarantined(hash, tip, log) <==> b !in Verified(hash, tip, log)
  {
    var init, last := log[..|log| - 1], log[|log| - 1];
    assert log == init + [last];
    if b in init {
      QuarantinedIsTheRest(hash, tip, init, b);
      assert b != last;
    } else {
      OutputsAreFromLog(hash, tip, init, b);
    }
  }

  lemma {:induction false} OutputsAreFromLog(hash: Preimage -> string, tip: string, log: seq<Block>, b: Block)
    requires b !in log
    ensures b !in Verified(hash, tip, log) && b !in Quarantined(hash, tip, log)
  {
    if log != [] {
      OutputsAreFromLog(hash, tip, log[..|log| - 1], b);
    }
  }

  /** A restart in any reachable state, listing the logs in any order, recovers exactly the
      longest prefix of the chain in memory whose blocks all sit in the log of the player
      owning block 1; every other durable block is quarantined; sorting by time and dropping
      repeated hashes change nothing; and the index is rebuilt from exactly that prefix. */
  lemma RestartRecoversDurablePrefix(env: Env, w: World, ids: seq<string>, now: Launch)
    returns (found: seq<Block>)
    requires Binding(env.hash) && Reachable(env, w)
    requires Lists(ids, w.book.logs)
    ensures var after := ReplayBook(env, w.book.logs, ids, NO_FAULTS, now);
      && after.chain == [GenesisBlock(now.at, now.version)] + found
      && after.index == ApplyBlocks(EMPTY_INDEX, found)
      && after.logs == w.book.logs
    ensures var tail := w.book.chain[1..];
      && found <= tail
      && (tail != [] ==>
            var log := LogOf(w.book.logs, Owner(tail[0]));
            && (forall i | 0 <= i < |found| :: found[i] in log)
            && (|found| < |tail| ==> tail[|found|] !in log))
    ensures ReplayedBlocks(env.hash, w.book.logs, ids, NO_FAULTS) == found
            == DedupByHash(SortByTime(ReplayedBlocks(env.hash, w.book.logs, ids, NO_FAULTS)))
    ensures forall p, b | p in w.book.logs && b in w.book.logs[p] ::
              b in Quarantined(env.hash, GENESIS_HASH, w.book.logs[p]) <==> b !in found
  {
    hide Binding, Verified, Quarantined, ReplayBook, DurablePrefix, ChainInv, IndexInv, ApplyBlocks,
         SortByTime, DedupByHash, Reachable, Made, ReplayedBlocks;
    var b := w.book;
    ReachableIsSound(env, w);
    found := Recoverable(Tail(b), b.logs);
    RestartRebuilds(env, b, w.clock, w.used, ids, now);
    forall p, x | p in b.logs && x in b.logs[p]
      ensures x in Quarantined(env.hash, GENESIS_HASH, b.logs[p]) <==> x !in found
    {
      QuarantinedIsTheRest(env.hash, GENESIS_HASH, b.logs[p], x);
      assert VerifiesTo(env, Tail(b), p, b.logs[p]);
      if Tail(b) == [] || p != Owner(Tail(b)[0]) {
        FoundBelongsToOwner(env, b, w.clock, w.used, p, x);
      }
    }
  }

  /** A block of another player's log is not in the recovered prefix. */
  lemma FoundBelongsToOwner(env: Env, b: Book, clock: string, used: set<string>, p: string, x: Block)
    requires BookInv(env, b, clock, used)
    requires p in b.logs && x in b.logs[p]
    requires Tail(b) == [] || p != Owner(Tail(b)[0])
    ensures x !in Recoverable(Tail(b), b.logs)
  {
    hide Verified, Made, ChainInv, IndexInv, RecoveryInv;
    if Tail(b) != [] {
      var log := LogOf(b.logs, Owner(Tail(b)[0]));
      assert forall y | y in log :: Owner(y) == Owner(Tail(b)[0]);
      assert Owner(x) == p;
    }
  }

  // ------------------------------------------------------------ nothing shrinks

  ghost predicate LogsGrow(before: map<string, seq<Block>>, after: map<string, seq<Block>>) {
    forall p: string :: LogOf(before, p) <= LogOf(after, p)
  }

  /** No step shortens a log, and every operation but a restart leaves the chain alone or adds
      to it one block, linked to its end and mined with the least winning nonce. */
  lemma NextOnlyGrows(env: Env, w: World, step: Step)
    requires OwnIds(w.book.index)
    ensures LogsGrow(w.book.logs, Next(env, w, step).book.logs)
    ensures !step.op.RestartOp? ==>
              var chain, n := Next(env, w, step).book.chain, |w.book.chain|;
              || chain == w.book.chain
              || (&& |chain| == n + 1 && chain[..n] == w.book.chain
                  && Accepts(env.hash, w.book.chain[n - 1].blockHash, chain[n])
                  && Wins(env.hash, BlockPreimage(chain[n]), chain[n].nonce)
                  && forall k: nat | k < chain[n].nonce :: !Wins(env.hash, BlockPreimage(chain[n]), k))
  {
    hide Mined, Next;
    if step.op.RestartOp? {
      assert Next(env, w, step).book.logs == w.book.logs by { RestartKeepsLogs(env, w, step); }
    } else {
      var t := NextRecordsAtMostOnce(env, w, step);
    }
  }

  lemma RestartKeepsLogs(env: Env, w: World, step: Step)
    requires step.op.RestartOp?
    ensures Next(env, w, step).book.logs == w.book.logs
  {
  }

  lemma {:induction false} RunGrowsLogs(env: Env, w: World, steps: seq<Step>)
    requires Binding(env.hash)
    requires Sound(env, w) && AdmissibleRun(env, w, steps) && LedgerReadRun(env, w, steps)
    ensures LogsGrow(w.book.logs, Run(env, w, steps).book.logs)
  {
    hide Binding, ChainInv, RecoveryInv, LogsInv, Next;
    if steps != [] {
      var n := |steps| - 1;
      var mid := Run(env, w, steps[..n]);
      RunGrowsLogs(env, w, steps[..n]);
      RunIsSound(env, w, steps[..n]);
      NextOnlyGrows(env, mid, steps[n]);
      forall p: string
        ensures LogOf(w.book.logs, p) <= LogOf(Run(env, w, steps).book.logs, p)
      {
        assert LogOf(w.book.logs, p) <= LogOf(mid.book.logs, p);
      }
    }
  }

  /** Chains recovered by later restarts extend the chains recovered by earlier ones. */
  lemma RecoveredChainOnlyGrows(env: Env, w: World, steps: seq<Step>)
    requires Binding(env.hash)
    requires Sound(env, w) && AdmissibleRun(env, w, steps) && LedgerReadRun(env, w, steps)
    ensures var later := Run(env, w, steps);
      Recoverable(Tail(w.book), w.book.logs) <= Recoverable(Tail(later.book), later.book.logs)
  {
    var later := Run(env, w, steps);
    RunIsSound(env, w, steps);
    RunGrowsLogs(env, w, steps);
    LongerLogsRecoverMore(env, Tail(w.book), w.book.logs, Tail(later.book), later.book.logs);
  }

  /** Recovery depends on the logs alone, and verifying a longer log keeps what was verified. */
  lemma LongerLogsRecoverMore(env: Env, tail: seq<Block>, logs: map<string, seq<Block>>,
                              laterTail: seq<Block>, laterLogs: map<string, seq<Block>>)
    requires RecoveryInv(env, tail, logs) && RecoveryInv(env, laterTail, laterLogs)
    requires LogsGrow(logs, laterLogs)
    ensures Recoverable(tail, logs) <= Recoverable(laterTail, laterLogs)
  {
    hide Verified, DurablePrefix;
    if Recoverable(tail, logs) != [] {
      var p := Owner(tail[0]);
      var log, longer := LogOf(logs, p), LogOf(laterLogs, p);
      assert DurablePrefix(tail, log) > 0 && tail[0] in log;
      assert log <= longer;
      assert VerifiesTo(env, tail, p, log);
      assert longer == log + longer[|log|..];
      VerifiedCompositional(env.hash, GENESIS_HASH, log, longer[|log|..]);
      assert VerifiesTo(env, laterTail, p, longer);
    }
  }

  /** Within one process the chain only grows. */
  lemma {:induction false} ProcessExtendsChain(env: Env, w: World, steps: seq<Step>)
    requires Binding(env.hash)
    requires Sound(env, w) && AdmissibleRun(env, w, steps) && NoRestarts(steps)
    ensures w.book.chain <= Run(env, w, steps).book.chain
  {
    hide Binding, ChainInv, RecoveryInv, LogsInv, Next;
    if steps != [] {
      var n := |steps| - 1;
      ProcessExtendsChain(env, w, steps[..n]);
      NoRestartsReadLedger(env, w, steps[..n]);
      RunIsSound(env, w, steps[..n]);
      NextOnlyGrows(env, Run(env, w, steps[..n]), steps[n]);
    }
  }

  /** A world a process starts in: all of the chain in memory is recoverable. */
  ghost predicate JustStarted(w: World) {
    Recoverable(Tail(w.book), w.book.logs) == Tail(w.book)
  }

  lemma FirstStartIsRecovered(env: Env, now: Launch)
    ensures JustStarted(Initial(env, now))
  {
  }

  lemma FoundIsRecoverable(tail: seq<Block>, logs: map<string, seq<Block>>)
    ensures Recoverable(Recoverable(tail, logs), logs) == Recoverable(tail, logs)
  {
    var found := Recoverable(tail, logs);
    if found != [] {
      assert found[0] == tail[0];
      DurablePrefixOfDurable(found, LogOf(logs, Owner(tail[0])));
    }
  }

  lemma RestartIsRecovered(env: Env, w: World, step: Step)
    requires Binding(env.hash)
    requires Sound(env, w) && Admissible(w, step) && ReadsLedger(w, step) && step.op.RestartOp?
    ensures JustStarted(Next(env, w, step))
  {
    hide Binding, BookInv, ReplayBook, Lists, ApplyBlocks, Recoverable, Next;
    assert Lists(step.op.ids, w.book.logs);
    NextRestart(env, w, step);
    FoundIsEnoughIff(env, w.book, w.clock, w.used, step.op.ids, step.op.faults, step.op.now);
    RestartRebuilds(env, w.book, w.clock, w.used, step.op.ids, step.op.now);
    FoundIsRecoverable(Tail(w.book), w.book.logs);
    assert Next(env, w, step).book.logs == w.book.logs;
  }

  /** The chain grows one block at a time: a process that reached a length passed every
      length since its start. */
  lemma {:induction false} ChainPassesEveryLength(env: Env, w: World, steps: seq<Step>, m: nat) returns (k: nat)
    requires Binding(env.hash)
    requires Sound(env, w) && AdmissibleRun(env, w, steps) && NoRestarts(steps)
    requires |w.book.chain| <= m <= |Run(env, w, steps).book.chain|
    ensures k <= |steps| && |Run(env, w, steps[..k]).book.chain| == m
  {
    hide Binding, ChainInv, RecoveryInv, LogsInv, Next;
    k := |steps|;
    assert steps[..k] == steps;
    if m < |Run(env, w, steps).book.chain| {
      var n := |steps| - 1;
      NoRestartsReadLedger(env, w, steps[..n]);
      RunIsSound(env, w, steps[..n]);
      NextOnlyGrows(env, Run(env, w, steps[..n]), steps[n]);
      k := ChainPassesEveryLength(env, w, steps[..n], m);
      assert steps[..n][..k] == steps[..k];
    }
  }

  /** A moment of a process when its chain was the first blocks of what it is now. */
  lemma MomentOfLength(env: Env, started: World, steps: seq<Step>, m: nat) returns (k: nat, earlier: World)
    requires Binding(env.hash)
    requires Sound(env, started) && AdmissibleRun(env, started, steps) && NoRestarts(steps)
    requires |started.book.chain| <= m <= |Run(env, started, steps).book.chain|
    ensures k <= |steps| && earlier == Run(env, started, steps[..k]) && Sound(env, earlier)
    ensures |earlier.book.chain| == m && earlier.book.chain <= Run(env, started, steps).book.chain
  {
    hide Binding, Sound, Next, Admissible, Run, AdmissibleRun;
    k := ChainPassesEveryLength(env, started, steps, m);
    earlier := Run(env, started, steps[..k]);
    assert steps == steps[..k] + steps[k..];
    RunAppend(env, started, steps[..k], steps[k..]);
    NoRestartsReadLedger(env, started, steps[..k]);
    RunIsSound(env, started, steps[..k]);
    ProcessExtendsChain(env, earlier, steps[k..]);
  }

  /** What a restart recovers is the memory the process had earlier: at some moment since it
      started its chain was the recovered one, and its profiles and rewards were the recovered
      ones. */
  lemma RestartRestoresEarlierMemory(env: Env, started: World, steps: seq<Step>, ids: seq<string>, now: Launch)
    returns (k: nat)
    requires Binding(env.hash)
    requires Sound(env, started) && JustStarted(started)
    requires AdmissibleRun(env, started, steps) && NoRestarts(steps)
    requires Lists(ids, Run(env, started, steps).book.logs)
    ensures k <= |steps|
    ensures var after := ReplayBook(env, Run(env, started, steps).book.logs, ids, NO_FAULTS, now);
      var earlier := Run(env, started, steps[..k]).book;
      after.chain[1..] == earlier.chain[1..] && SameIndex(after.index, earlier.index)
  {
    hide Binding, Sound, BookInv, ReplayBook, Lists, ApplyBlocks, Recoverable, Run, AdmissibleRun, NoRestarts,
         SameIndex;
    var w := Run(env, started, steps);
    NoRestartsReadLedger(env, started, steps);
    RunIsSound(env, started, steps);
    SoundIsBookInv(env, w);
    RestartRebuilds(env, w.book, w.clock, w.used, ids, now);
    RecoveredChainOnlyGrows(env, started, steps);
    RecoverableIsPrefix(w.book);
    var found := Recoverable(Tail(w.book), w.book.logs);
    var earlier;
    k, earlier := MomentOfLength(env, started, steps, |found| + 1);
    SamePrefix(earlier.book, w.book, found);
    SoundIndex(env, earlier);
    SameIndexFlips(earlier.book.index, ApplyBlocks(EMPTY_INDEX, found));
  }

  lemma SameIndexFlips(a: Index, b: Index)
    requires SameIndex(a, b)
    ensures SameIndex(b, a)
  {
  }

  lemma SoundIsBookInv(env: Env, w: World)
    requires Sound(env, w)
    ensures BookInv(env, w.book, w.clock, w.used)
  {
  }

  lemma SamePrefix(earlier: Book, later: Book, found: seq<Block>)
    requires earlier.chain <= later.chain && |earlier.chain| == |found| + 1 && found <= Tail(later)
    ensures Tail(earlier) == found
  {
    assert earlier.chain == later.chain[..|found| + 1];
  }

  // -------------------------------------------------- one player, no lost append

  /** Every operation is for one well-formed player and no append loses its block. */
  predicate LosslessFor(env: Env, player: string, steps: seq<Step>) {
    env.isUuid(player)
    && forall i | 0 <= i < |steps| ::
         steps[i].op.RestartOp? || (PlayerOf(steps[i].op) == player && !steps[i].io.append.Dropped?)
  }

  ghost predicate AllDurable(b: Book, player: string) {
    forall x | x in Tail(b) :: Owner(x) == player && x in LogOf(b.logs, player)
  }

  lemma NextStaysDurable(env: Env, w: World, step: Step, player: string)
    requires Binding(env.hash)
    requires Sound(env, w) && Admissible(w, step) && ReadsLedger(w, step)
    requires AllDurable(w.book, player) && LosslessFor(env, player, [step])
    ensures AllDurable(Next(env, w, step).book, player)
  {
    hide Binding, ChainInv, RecoveryInv, LogsInv, Mined, Next, DurablePrefix, ReplayBook, ApplyBlocks;
    assert [step][0] == step;
    var after := Next(env, w, step).book;
    if step.op.RestartOp? {
      RestartRebuilds(env, w.book, w.clock, w.used, step.op.ids, step.op.now);
      RecoverableIsPrefix(w.book);
      FoundIsEnoughIff(env, w.book, w.clock, w.used, step.op.ids, step.op.faults, step.op.now);
      NextRestart(env, w, step);
    } else {
      var t := NextRecordsAtMostOnce(env, w, step);
      if after != w.book {
        var block := RecordBlock(env, w.book.chain, t, step.io);
        assert Owner(block) == player;
        assert Tail(after) == Tail(w.book) + [block];
      }
    }
  }

  lemma {:induction false} LosslessStaysDurable(env: Env, w: World, steps: seq<Step>, player: string)
    requires Binding(env.hash)
    requires Sound(env, w) && AdmissibleRun(env, w, steps) && LedgerReadRun(env, w, steps)
    requires AllDurable(w.book, player) && LosslessFor(env, player, steps)
    ensures AllDurable(Run(env, w, steps).book, player)
  {
    hide Binding, Sound, AllDurable, Next, Admissible;
    if steps != [] {
      var n := |steps| - 1;
      LosslessStaysDurable(env, w, steps[..n], player);
      RunIsSound(env, w, steps[..n]);
      NextStaysDurable(env, Run(env, w, steps[..n]), steps[n], player);
    }
  }

  /** A single-player history in which no append loses its block is recovered in full,
      however many restarts it went through. */
  lemma SinglePlayerFullyRecovered(env: Env, started: Launch, steps: seq<Step>, player: string,
                                   ids: seq<string>, now: Launch)
    requires Binding(env.hash)
    requires AdmissibleRun(env, Initial(env, started), steps) && LedgerReadRun(env, Initial(env, started), steps)
    requires LosslessFor(env, player, steps)
    requires Lists(ids, Run(env, Initial(env, started), steps).book.logs)
    ensures var w := Run(env, Initial(env, started), steps);
      var after := ReplayBook(env, w.book.logs, ids, NO_FAULTS, now);
      after.chain[1..] == w.book.chain[1..] && SameIndex(after.index, w.book.index)
  {
    hide Binding, BookInv, ReplayBook, Lists, ApplyBlocks, Run, AdmissibleRun, LosslessFor;
    var w := Run(env, Initial(env, started), steps);
    InitialIsSound(env, started);
    RunIsSound(env, Initial(env, started), steps);
    NothingIsDurable(env, started, player);
    LosslessStaysDurable(env, Initial(env, started), steps, player);
    RestartRebuilds(env, w.book, w.clock, w.used, ids, now);
    DurableIsRecoverable(w.book, player);
    SoundIndex(env, w);
  }

  lemma NothingIsDurable(env: Env, now: Launch, player: string)
    ensures AllDurable(Initial(env, now).book, player)
  {
  }

  lemma DurableIsRecoverable(b: Book, player: string)
    requires AllDurable(b, player)
    ensures Recoverable(Tail(b), b.logs) == Tail(b)
  {
    if Tail(b) != [] {
      assert Tail(b)[0] in Tail(b);
      DurablePrefixOfDurable(Tail(b), LogOf(b.logs, player));
    }
  }

  lemma SoundIndex(env: Env, w: World)
    requires Sound(env, w)
    ensures SameIndex(w.book.index, ApplyBlocks(EMPTY_INDEX, Tail(w.book)))
  {
    hide ChainInv, RecoveryInv, LogsInv, ApplyBlocks;
  }

  // ------------------------------------------------------------ what is lost

  /** A restart rebuilds the whole chain exactly when all of it belongs to one player and
      every block of it reached that player's log. */
  lemma FullyRecoveredIff(env: Env, w: World, ids: seq<string>, now: Launch)
    requires Binding(env.hash) && Reachable(env, w)
    requires Lists(ids, w.book.logs)
    ensures ReplayBook(env, w.book.logs, ids, NO_FAULTS, now).chain[1..] == w.book.chain[1..]
            <==> exists player :: AllDurable(w.book, player)
  {
    hide Binding, BookInv, ReplayBook, Lists, Reachable, ApplyBlocks, AllDurable;
    var b := w.book;
    ReachableIsSound(env, w);
    RestartRebuilds(env, b, w.clock, w.used, ids, now);
    if player :| AllDurable(b, player) {
      DurableIsRecoverable(b, player);
    }
    if Recoverable(Tail(b), b.logs) == Tail(b) {
      RecoveredIsDurable(env, b, w.clock, w.used);
    }
  }

  lemma RecoveredIsDurable(env: Env, b: Book, clock: string, used: set<string>)
    requires BookInv(env, b, clock, used) && Recoverable(Tail(b), b.logs) == Tail(b)
    ensures AllDurable(b, if Tail(b) == [] then "" else Owner(Tail(b)[0]))
  {
    hide Made, ChainInv, IndexInv, RecoveryInv;
    if Tail(b) != [] {
      var p := Owner(Tail(b)[0]);
      forall x | x in Tail(b)
        ensures Owner(x) == p && x in LogOf(b.logs, p)
      {
        var i :| 0 <= i < |LogOf(b.logs, p)| && LogOf(b.logs, p)[i] == x;
        assert Logged(env, p, b.logs[p][i], used);
      }
    }
  }

  /** All a restart can bring back belongs to the player of block 1: nobody else has a profile
      or rewards afterwards, whatever their logs hold. */
  lemma OnlyFirstPlayerComesBack(env: Env, w: World, ids: seq<string>, now: Launch, player: string)
    requires Binding(env.hash) && Reachable(env, w)
    requires Lists(ids, w.book.logs)
    requires |w.book.chain| > 1 ==> player != Owner(w.book.chain[1])
    ensures var after := ReplayBook(env, w.book.logs, ids, NO_FAULTS, now).index;
      player !in after.profiles && player !in after.rewards
  {
    hide Binding, BookInv, ReplayBook, Lists, Reachable, ApplyBlocks, DurablePrefix;
    var b := w.book;
    ReachableIsSound(env, w);
    RestartRebuilds(env, b, w.clock, w.used, ids, now);
    var found := Recoverable(Tail(b), b.logs);
    forall x | x in found
      ensures |x.transactions| == 1 && Owner(x) != player && OwnChange(x.transactions[0])
    {
      FoundIsOwners(env, b, w.clock, w.used, x);
    }
    NothingForOthers(found, player);
  }

  lemma FoundIsOwners(env: Env, b: Book, clock: string, used: set<string>, x: Block)
    requires BookInv(env, b, clock, used) && x in Recoverable(Tail(b), b.logs)
    ensures Owner(x) == Owner(Tail(b)[0]) && |x.transactions| == 1 && OwnChange(x.transactions[0])
  {
    hide ChainInv, IndexInv, RecoveryInv, IsStamp;
    var p := Owner(Tail(b)[0]);
    var i :| 0 <= i < |LogOf(b.logs, p)| && LogOf(b.logs, p)[i] == x;
    assert Logged(env, p, b.logs[p][i], used);
  }

  lemma {:induction false} NothingForOthers(blocks: seq<Block>, player: string)
    requires forall x | x in blocks :: |x.transactions| == 1 && Owner(x) != player && OwnChange(x.transactions[0])
    ensures var ix := ApplyBlocks(EMPTY_INDEX, blocks);
      player !in ix.profiles && player !in ix.rewards
  {
    if blocks != [] {
      var n := |blocks| - 1;
      var init, last := blocks[..n], blocks[n];
      assert blocks == init + [last];
      NothingForOthers(init, player);
      ApplyOneBlock(EMPTY_INDEX, init, last);
    }
  }
}
