/** A promoted claim is awarded at most once, across failed saves, failed appends, crashes
    and restarts. */
module AwardOnce {
  import opened Common
  import opened Blockchain
  import opened Registry
  import opened Journal
  import opened Claims
  import opened Runs
  import opened LedgerInvariant
  import opened Recovery
  import opened Filing
  import opened ClaimLifecycle

  /** A block of the chain in memory or of its player's log. */
  predicate OnRecord(b: Book, x: Block) {
    x in Tail(b) || x in LogOf(b.logs, Owner(x))
  }

  /** A block that some promotion caused. */
  predicate Caused(w: World, x: Block) {
    OnRecord(w.book, x) && IdOf(x) in w.promoted
  }

  function CauseOf(w: World, x: Block): ClaimRef
    requires Caused(w, x)
  {
    w.promoted[IdOf(x)]
  }

  /** Every award a promotion caused belongs to a claim that is Promoted in memory; a durable
      one to a claim that is Promoted on disk too. */
  ghost predicate BackedAs(w: World, x: Block, d: DefinitionId)
    requires Caused(w, x)
  {
    && CauseOf(w, x).player == Owner(x)
    && PromotedAs(w.desk.held, CauseOf(w, x), d)
    && (x in LogOf(w.book.logs, Owner(x)) ==> PromotedAs(w.desk.saved, CauseOf(w, x), d))
  }

  ghost predicate Backed(w: World, x: Block)
    requires Caused(w, x)
  {
    exists d: DefinitionId :: BackedAs(w, x, d)
  }

  /** Promotions are recorded under spent ids and award the claim's own player. */
  ghost predicate CausesFiled(w: World) {
    && (forall t | t in w.promoted :: t in w.used)
    && (forall x: Block | Caused(w, x) :: CauseOf(w, x).player == Owner(x))
  }

  /** One player's awards for claims are backed, and no claim has two. */
  ghost predicate AwardInv(w: World, player: string) {
    && (forall x: Block | Caused(w, x) && Owner(x) == player :: Backed(w, x))
    && (forall x: Block, y: Block |
          && Caused(w, x) && Caused(w, y) && Owner(x) == Owner(y) == player && CauseOf(w, x) == CauseOf(w, y) ::
          IdOf(x) == IdOf(y))
  }

  ghost predicate Guarded(w: World) {
    Filed(w) && DeskInv(w.desk) && CausesFiled(w)
  }

  // -------------------------------------------- steps that promote nothing new

  /** The records of the old book, and at most one new block under the fresh id. */
  ghost predicate GainsAtMost(before: Book, after: Book, id: string) {
    forall x: Block | OnRecord(after, x) ::
      (OnRecord(before, x) && (x in LogOf(after.logs, Owner(x)) ==> x in LogOf(before.logs, Owner(x))))
      || IdOf(x) == id
  }

  lemma AppendGainsOne(logs: map<string, seq<Block>>, p: string, block: Block, outcome: AppendOutcome, q: string,
                       x: Block)
    requires x in LogOf(AppendLog(logs, p, block, outcome), q)
    ensures x in LogOf(logs, q) || x == block
  {
  }

  lemma RecordGainsOne(env: Env, b: Book, after: Book, t: Transaction, io: Inputs)
    requires after == b || (RecordedAs(env, b, after, t, io) && t.transactionId == io.transactionId)
    ensures GainsAtMost(b, after, io.transactionId)
  {
    hide Mined, AppendLog, LogOf, SameIndex, Writable, ApplyTransaction;
    if after != b {
      var block := RecordBlock(env, b.chain, t, io);
      assert IdOf(block) == io.transactionId;
      assert Tail(after) == Tail(b) + [block];
      forall x: Block | OnRecord(after, x) && x != block
        ensures OnRecord(b, x) && (x in LogOf(after.logs, Owner(x)) ==> x in LogOf(b.logs, Owner(x)))
      {
        if x in LogOf(after.logs, Owner(x)) && env.isUuid(t.playerId) {
          AppendGainsOne(b.logs, t.playerId, block, io.append, Owner(x), x);
        }
      }
    }
  }

  /** An award that was backed stays backed while claims only advance. */
  lemma StaysBacked(w: World, after: World, x: Block, player: string)
    requires Caused(w, x) && Backed(w, x) && Caused(after, x) && CauseOf(after, x) == CauseOf(w, x)
    requires x in LogOf(after.book.logs, Owner(x)) ==> x in LogOf(w.book.logs, Owner(x))
    requires DeskStep(w.desk, after.desk, player)
    ensures Backed(after, x)
  {
    hide DeskInv, OnRecord, PromotedAs;
    var ref := CauseOf(w, x);
    var d :| BackedAs(w, x, d);
    assert ListAdvances(ClaimsOf(w.desk.held, ref.player), ClaimsOf(after.desk.held, ref.player));
    AdvanceKeepsPromoted(w.desk, after.desk, ref, d);
    assert BackedAs(after, x, d);
  }

  /** A step that gains at most a block of no promotion causes no award... */
  lemma QuietCauses(w: World, after: World, id: string, x: Block)
    requires CausesFiled(w) && id !in w.used && after.promoted == w.promoted
    requires GainsAtMost(w.book, after.book, id) && Caused(after, x)
    ensures IdOf(x) != id && Caused(w, x) && CauseOf(after, x) == CauseOf(w, x)
    ensures x in LogOf(after.book.logs, Owner(x)) ==> x in LogOf(w.book.logs, Owner(x))
  {
    hide OnRecord;
  }

  /** ... and keeps every award backed. */
  lemma QuietStep(w: World, after: World, id: string, player: string, p: string)
    requires CausesFiled(w) && AwardInv(w, p)
    requires id !in w.used && after.promoted == w.promoted
    requires GainsAtMost(w.book, after.book, id)
    requires DeskStep(w.desk, after.desk, player)
    ensures AwardInv(after, p)
  {
    hide DeskInv, OnRecord, CausesFiled, GainsAtMost, DeskStep;
    forall x: Block | Caused(after, x)
      ensures Caused(w, x) && CauseOf(after, x) == CauseOf(w, x)
      ensures Owner(x) == p ==> Backed(after, x)
    {
      QuietCauses(w, after, id, x);
      if Owner(x) == p {
        StaysBacked(w, after, x, player);
      }
    }
  }

  // --------------------------------------------------------------- a promotion

  /** When a review awards something, the claim was Pending, and afterwards it is Promoted
      both in memory and on disk: the save comes before the award. */
  lemma AwardMeansPromoted(env: Env, b: Book, d: Desk, player: string, claimId: string, reviewer: string,
                           action: ReviewAction, note: Option<string>, definition: Option<AchievementDefinition>,
                           io: Inputs)
    requires DeskInv(d)
    requires ReviewClaim(env, b, d, player, claimId, reviewer, action, note, definition, io).0 != b
    ensures var found, ref := FindClaim(ClaimsOf(d.held, player), claimId), ClaimRef(player, claimId);
      && found.Some?
      && var def := ClaimsOf(d.held, player)[found.value].Definition();
         var after := ReviewClaim(env, b, d, player, claimId, reviewer, action, note, definition, io).1;
         !IsPromoted(d.held, ref) && PromotedAs(after.held, ref, def) && PromotedAs(after.saved, ref, def)
  {
    hide AwardAchievement;
    var claims := ClaimsOf(d.held, player);
    var i := FindClaim(claims, claimId).value;
    var claim := claims[i];
    var def := claim.Definition();
    assert DistinctClaims(claims);
    var ref := ClaimRef(player, claimId);
    var marked := Reviewed(claim, Promoted, reviewer, note, io.claimAt);
    var (d1, saved1) := PersistClaims(env, ReplaceClaim(d, player, i, marked), player, io.firstSave);
    assert PromotedAt(ClaimsOf(d1.saved, player), i, claimId, def);
    assert PromotedAt(ClaimsOf(d1.held, player), i, claimId, def);
    var after := PromoteClaim(env, b, d, player, i, reviewer, note, definition, io).1;
    assert PromotedAt(ClaimsOf(after.held, player), i, claimId, def);
    assert PromotedAt(ClaimsOf(after.saved, player), i, claimId, def);
  }

  /** A promotion adds one award, for a claim of the awarded player that had none. */
  lemma PromotionStep(env: Env, w: World, after: World, t: Transaction, io: Inputs, ref: ClaimRef, d: DefinitionId,
                      p: string)
    requires CausesFiled(w) && AwardInv(w, p)
    requires io.transactionId !in w.used && after.promoted == w.promoted[io.transactionId := ref]
    requires RecordedAs(env, w.book, after.book, t, io)
    requires t.transactionId == io.transactionId && t.playerId == ref.player
    requires DeskStep(w.desk, after.desk, ref.player)
    requires !IsPromoted(w.desk.held, ref)
    requires PromotedAs(after.desk.held, ref, d) && PromotedAs(after.desk.saved, ref, d)
    requires forall x: Block | OnRecord(w.book, x) :: IdOf(x) in w.used
    ensures AwardInv(after, p)
  {
    hide DeskInv, OnRecord, PromotedAs, Mined;
    RecordGainsOne(env, w.book, after.book, t, io);
    forall x: Block | Caused(after, x) && Owner(x) == p
      ensures Backed(after, x)
      ensures IdOf(x) != io.transactionId ==> Caused(w, x) && CauseOf(after, x) == CauseOf(w, x) != ref
    {
      if IdOf(x) == io.transactionId {
        OnlyTheNewBlock(env, w.book, after.book, t, io, w.used, x);
        assert BackedAs(after, x, d);
      } else {
        assert Backed(w, x);
        StaysBacked(w, after, x, ref.player);
      }
    }
  }

  /** The fresh id is on the new block only. */
  lemma OnlyTheNewBlock(env: Env, b: Book, after: Book, t: Transaction, io: Inputs, used: set<string>, x: Block)
    requires RecordedAs(env, b, after, t, io) && t.transactionId == io.transactionId
    requires forall y: Block | OnRecord(b, y) :: IdOf(y) in used
    requires io.transactionId !in used && OnRecord(after, x) && IdOf(x) == io.transactionId
    ensures x == RecordBlock(env, b.chain, t, io)
    ensures Owner(x) == t.playerId
  {
    hide Mined;
    var block := RecordBlock(env, b.chain, t, io);
    assert Tail(after) == Tail(b) + [block];
    assert !OnRecord(b, x);
    assert x == block;
  }

  lemma RecordedIdsAreUsed(w: World)
    requires Filed(w)
    ensures forall x: Block | OnRecord(w.book, x) :: IdOf(x) in w.used
  {
    hide LogsFiled;
    forall x: Block | OnRecord(w.book, x)
      ensures IdOf(x) in w.used
    {
      if x in LogOf(w.book.logs, Owner(x)) {
        LoggedAtOwner(w.book.logs, w.used, Owner(x), x);
      }
    }
  }

  // ------------------------------------------------------------------- a restart

  /** What a restart keeps of the promotions' awards was durable before. */
  lemma CausedWasDurable(env: Env, w: World, step: Step, x: Block)
    requires Filed(w) && step.op.RestartOp?
    requires Caused(Next(env, w, step), x)
    ensures Caused(w, x) && CauseOf(Next(env, w, step), x) == CauseOf(w, x)
    ensures x in LogOf(w.book.logs, Owner(x)) && Owner(x) in w.book.logs
  {
    hide ReplayBook, ReplayClaims, LogsFiled;
    var after, op := Next(env, w, step), step.op;
    assert after.book.logs == w.book.logs by { RestartKeepsLogs(env, w, step); }
    if x in Tail(after.book) {
      var p := RestartChainIsLogged(env, w.book.logs, op.ids, op.faults, op.now, x);
      LoggedAtOwner(w.book.logs, w.used, p, x);
    }
  }

  /** After a restart that read a player's claim set the player's claims in memory are the
      saved ones. */
  lemma RestartHoldsSaved(env: Env, w: World, step: Step, p: string)
    requires step.op.RestartOp? && Admissible(w, step) && ReadsClaimsOf(step, p) && p in w.book.logs
    ensures ClaimsOf(Next(env, w, step).desk.held, p) == ClaimsOf(w.desk.saved, p)
    ensures Next(env, w, step).desk.saved == w.desk.saved
  {
    hide ReplayBook, ReplayClaims;
    ReplayedClaimsAreSaved(w.desk.saved, step.op.ids, step.op.faults, p);
  }

  lemma RestartStep(env: Env, w: World, step: Step, p: string)
    requires Guarded(w) && AwardInv(w, p) && step.op.RestartOp? && Admissible(w, step) && ReadsClaimsOf(step, p)
    ensures AwardInv(Next(env, w, step), p)
  {
    hide DeskInv, PromotedAs, Filed, ReplayBook, ReplayClaims, OnRecord, Lists;
    var after := Next(env, w, step);
    assert after.book.logs == w.book.logs by { RestartKeepsLogs(env, w, step); }
    forall x: Block | Caused(after, x) && Owner(x) == p
      ensures Caused(w, x) && Backed(after, x) && CauseOf(after, x) == CauseOf(w, x)
    {
      CausedWasDurable(env, w, step, x);
      assert Backed(w, x);
      var d :| BackedAs(w, x, d);
      var ref := CauseOf(w, x);
      RestartHoldsSaved(env, w, step, p);
      SameListSamePromotions(w.desk.saved, after.desk.held, ref, d);
      assert BackedAs(after, x, d);
    }
  }

  // ------------------------------------------------------------------------ runs

  lemma DeskOfStep(env: Env, w: World, step: Step)
    requires !step.op.RestartOp?
    ensures DeskStep(w.desk, Next(env, w, step).desk, PlayerOf(step.op))
  {
    hide DeskStep, ReviewClaim, SubmitClaim, NextBook;
    match step.op {
      case SubmitClaimOp(player, input) =>
        SubmitDesk(env, w.book, w.desk, player, input, step.io);
      case ReviewClaimOp(player, claimId, reviewer, action, note, definition) =>
        ReviewDesk(env, w.book, w.desk, player, claimId, reviewer, action, note, definition, step.io);
      case _ =>
        DeskStays(w.desk, PlayerOf(step.op));
    }
  }

  /** What a review that changes the ledger did. */
  lemma PromotionOf(env: Env, w: World, step: Step) returns (t: Transaction, d: DefinitionId)
    requires Guarded(w) && Admissible(w, step) && step.op.ReviewClaimOp? && Next(env, w, step).book != w.book
    ensures var after, ref := Next(env, w, step), ClaimRef(step.op.player, step.op.claimId);
      && RecordedAs(env, w.book, after.book, t, step.io)
      && t.transactionId == step.io.transactionId && t.playerId == ref.player
      && after.promoted == w.promoted[step.io.transactionId := ref]
      && !IsPromoted(w.desk.held, ref)
      && PromotedAs(after.desk.held, ref, d) && PromotedAs(after.desk.saved, ref, d)
  {
    hide LogsFiled, CausesFiled, DeskInv, ReviewClaim, IsPromoted, PromotedAs, Mined;
    var op := step.op;
    t := NextRecordsAtMostOnce(env, w, step);
    AwardMeansPromoted(env, w.book, w.desk, op.player, op.claimId, op.reviewer, op.action, op.note, op.definition,
                       step.io);
    var claims := ClaimsOf(w.desk.held, op.player);
    d := claims[FindClaim(claims, op.claimId).value].Definition();
  }

  lemma OperationKeepsCauses(env: Env, w: World, step: Step)
    requires Guarded(w) && Admissible(w, step) && !step.op.RestartOp?
    ensures CausesFiled(Next(env, w, step))
  {
    hide DeskInv, ReviewClaim, SubmitClaim, NextBook, Mined, OnRecord, LogsFiled, IsPromoted, PromotedAs;
    var after, id := Next(env, w, step), step.io.transactionId;
    var t := NextRecordsAtMostOnce(env, w, step);
    RecordGainsOne(env, w.book, after.book, t, step.io);
    RecordedIdsAreUsed(w);
    forall x: Block | Caused(after, x)
      ensures CauseOf(after, x).player == Owner(x)
    {
      if IdOf(x) == id {
        OnlyTheNewBlock(env, w.book, after.book, t, step.io, w.used, x);
      }
    }
  }

  /** Every step, whatever a restart fails to read, keeps the files in order, claim ids
      distinct, and awards with the players of their claims. */
  lemma NextIsGuarded(env: Env, w: World, step: Step)
    requires Guarded(w) && Admissible(w, step)
    ensures Guarded(Next(env, w, step))
  {
    hide Filed, DeskInv, Next, Admissible, OnRecord;
    NextIsFiled(env, w, step);
    NextDesk(env, w, step);
    if step.op.RestartOp? {
      RestartKeepsPromoted(env, w, step);
      forall x: Block | Caused(Next(env, w, step), x)
        ensures CauseOf(Next(env, w, step), x).player == Owner(x)
      {
        CausedWasDurable(env, w, step, x);
      }
    } else {
      OperationKeepsCauses(env, w, step);
    }
  }

  lemma RestartKeepsPromoted(env: Env, w: World, step: Step)
    requires step.op.RestartOp?
    ensures Next(env, w, step).promoted == w.promoted && Next(env, w, step).used == w.used
  {
  }

  /** And every step keeps a player's awards backed and single, unless it is a restart that
      could not see that player's claims. */
  lemma NextKeepsAwards(env: Env, w: World, step: Step, p: string)
    requires Guarded(w) && AwardInv(w, p) && Admissible(w, step) && ReadsClaimsOf(step, p)
    ensures AwardInv(Next(env, w, step), p)
  {
    hide Filed, DeskInv, CausesFiled, AwardInv, Admissible, ReadsClaimsOf, Next;
    if step.op.RestartOp? {
      RestartStep(env, w, step, p);
    } else {
      OperationKeepsAwards(env, w, step, p);
    }
  }

  lemma OperationKeepsAwards(env: Env, w: World, step: Step, p: string)
    requires Guarded(w) && AwardInv(w, p) && Admissible(w, step) && !step.op.RestartOp?
    ensures AwardInv(Next(env, w, step), p)
  {
    hide LogsFiled, DeskInv, CausesFiled, AwardInv, NextBook, ReviewClaim, SubmitClaim, IsPromoted, PromotedAs, Mined,
         OnRecord, DeskStep;
    var after := Next(env, w, step);
    DeskOfStep(env, w, step);
    if step.op.ReviewClaimOp? && after.book != w.book {
      var t, d := PromotionOf(env, w, step);
      RecordedIdsAreUsed(w);
      PromotionStep(env, w, after, t, step.io, ClaimRef(step.op.player, step.op.claimId), d, p);
    } else {
      var t := NextRecordsAtMostOnce(env, w, step);
      RecordGainsOne(env, w.book, after.book, t, step.io);
      QuietStep(w, after, step.io.transactionId, PlayerOf(step.op), p);
    }
  }

  lemma {:induction false} RunIsGuarded(env: Env, w: World, steps: seq<Step>)
    requires Guarded(w) && AdmissibleRun(env, w, steps)
    ensures Guarded(Run(env, w, steps))
  {
    hide Guarded, Next, Admissible;
    if steps != [] {
      var n := |steps| - 1;
      RunIsGuarded(env, w, steps[..n]);
      NextIsGuarded(env, Run(env, w, steps[..n]), steps[n]);
    }
  }

  lemma {:induction false} RunKeepsAwards(env: Env, w: World, steps: seq<Step>, p: string)
    requires Guarded(w) && AwardInv(w, p) && AdmissibleRun(env, w, steps) && ClaimReadsWork(steps, p)
    ensures AwardInv(Run(env, w, steps), p)
  {
    hide Guarded, AwardInv, Next, Admissible, ReadsClaimsOf;
    if steps != [] {
      var n := |steps| - 1;
      RunKeepsAwards(env, w, steps[..n], p);
      RunIsGuarded(env, w, steps[..n]);
      NextKeepsAwards(env, Run(env, w, steps[..n]), steps[n], p);
    }
  }

  lemma InitialIsGuarded(env: Env, now: Launch, p: string)
    ensures Guarded(Initial(env, now)) && AwardInv(Initial(env, now), p)
  {
  }

  lemma ReachedIsGuarded(env: Env, w: World)
    requires Reached(env, w)
    ensures Guarded(w)
  {
    hide Guarded;
    var now, steps :| ReachedBy(env, now, steps, w);
    InitialIsGuarded(env, now, "");
    RunIsGuarded(env, Initial(env, now), steps);
  }

  lemma ReachedHasAwards(env: Env, w: World, p: string)
    requires ReachedReading(env, w, p)
    ensures Guarded(w) && AwardInv(w, p)
  {
    hide Guarded, AwardInv, AdmissibleRun, Run;
    var now, steps :| ReachedBy(env, now, steps, w) && ClaimReadsWork(steps, p);
    InitialIsGuarded(env, now, p);
    RunIsGuarded(env, Initial(env, now), steps);
    RunKeepsAwards(env, Initial(env, now), steps, p);
  }

  lemma PromotedMeans(claims: map<string, seq<AchievementClaim>>, ref: ClaimRef, d: DefinitionId)
    requires PromotedAs(claims, ref, d)
    ensures IsPromoted(claims, ref)
  {
  }

  /** Block i of the player's log is an award for the claim. */
  predicate Award(w: World, ref: ClaimRef, i: int) {
    && ref.player in w.book.logs && 0 <= i < |w.book.logs[ref.player]|
    && IdOf(w.book.logs[ref.player][i]) in w.promoted
    && w.promoted[IdOf(w.book.logs[ref.player][i])] == ref
  }

  ghost predicate AtMostOneAward(w: World, ref: ClaimRef) {
    forall i, j | Award(w, ref, i) && Award(w, ref, j) :: i == j
  }

  /** An award for a claim is in the log of the claim's player, whatever could be read. */
  lemma AwardsAreFiled(env: Env, w: World, p: string, i: nat)
    requires Reached(env, w)
    requires p in w.book.logs && i < |w.book.logs[p]| && IdOf(w.book.logs[p][i]) in w.promoted
    ensures Award(w, w.promoted[IdOf(w.book.logs[p][i])], i)
  {
    hide DeskInv, LogsFiled, Reached;
    ReachedIsGuarded(env, w);
    var x := w.book.logs[p][i];
    LoggedAtOwner(w.book.logs, w.used, p, x);
    assert Caused(w, x);
  }

  lemma AwardsAreSingle(w: World, ref: ClaimRef)
    requires Guarded(w) && AwardInv(w, ref.player)
    ensures AtMostOneAward(w, ref)
    ensures forall i | Award(w, ref, i) :: IsPromoted(w.desk.saved, ref)
  {
    hide DeskInv, IsPromoted, PromotedAs;
    var p := ref.player;
    forall i, j | Award(w, ref, i) && Award(w, ref, j)
      ensures i == j && IsPromoted(w.desk.saved, ref)
    {
      var x, y := w.book.logs[p][i], w.book.logs[p][j];
      assert Caused(w, x) && Caused(w, y) && Owner(x) == p && Owner(y) == p && Backed(w, x);
      var d :| BackedAs(w, x, d);
      PromotedMeans(w.desk.saved, ref, d);
      assert NoRepeats(w.book.logs[p]);
    }
  }

  /** Over every run mixing operations, failed appends, failed saves, crashes, and restarts
      that list the players and read this player's claim set, whatever else they fail to read:
      at most one durable block was ever caused by promoting a given claim of the player, and
      when it exists the claim on disk is Promoted. */
  lemma PromotedAtMostOnce(env: Env, w: World, ref: ClaimRef)
    requires ReachedReading(env, w, ref.player)
    ensures AtMostOneAward(w, ref)
    ensures forall i | Award(w, ref, i) :: IsPromoted(w.desk.saved, ref)
  {
    hide Guarded, AwardInv, ReachedReading, AtMostOneAward;
    ReachedHasAwards(env, w, ref.player);
    AwardsAreSingle(w, ref);
  }

  /** In memory too: the ledger of a running process never holds two awards for one claim,
      and a claim that was awarded is Promoted. */
  lemma LedgerAwardsOnce(env: Env, w: World, x: Block, y: Block)
    requires Caused(w, x) && Caused(w, y) && CauseOf(w, x) == CauseOf(w, y)
    requires ReachedReading(env, w, Owner(x))
    ensures IdOf(x) == IdOf(y)
    ensures IsPromoted(w.desk.held, CauseOf(w, x))
  {
    hide DeskInv, LogsFiled, ReachedReading, OnRecord;
    ReachedHasAwards(env, w, Owner(x));
    assert Backed(w, x);
  }
}
