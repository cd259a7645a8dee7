/** When a promotion that is saved on disk stays there, and what happens when a restart could
    not see it. */
module ClaimSurvival {
  import opened Common
  import opened Order
  import opened Blockchain
  import opened Registry
  import opened Journal
  import opened Claims
  import opened Runs
  import opened LedgerInvariant
  import opened Recovery
  import opened Filing
  import opened ClaimLifecycle
  import opened AwardOnce
  import opened Scenarios

  /** In memory, on disk, and findable by a restart. */
  ghost predicate Anchored(w: World, ref: ClaimRef, d: DefinitionId) {
    && PromotedAs(w.desk.held, ref, d)
    && PromotedAs(w.desk.saved, ref, d)
    && ref.player in w.book.logs
  }

  lemma NextKeepsLogs(env: Env, w: World, step: Step, p: string)
    requires OwnIds(w.book.index) && p in w.book.logs
    ensures p in Next(env, w, step).book.logs
  {
    hide Next, Mined;
    if step.op.RestartOp? {
      RestartKeepsLogs(env, w, step);
    } else {
      var t := NextRecordsAtMostOnce(env, w, step);
    }
  }

  lemma NextStaysAnchored(env: Env, w: World, step: Step, ref: ClaimRef, d: DefinitionId)
    requires OwnIds(w.book.index) && Admissible(w, step) && ReadsClaimsOf(step, ref.player) && Anchored(w, ref, d)
    ensures Anchored(Next(env, w, step), ref, d)
  {
    hide Next, PromotedAs, OwnIds, Admissible, ReadsClaimsOf, DeskInv;
    var after := Next(env, w, step);
    NextKeepsLogs(env, w, step, ref.player);
    if step.op.RestartOp? {
      RestartHoldsSaved(env, w, step, ref.player);
      SameListSamePromotions(w.desk.saved, after.desk.held, ref, d);
    } else {
      DeskOfStep(env, w, step);
      assert ListAdvances(ClaimsOf(w.desk.held, ref.player), ClaimsOf(after.desk.held, ref.player));
      AdvanceKeepsPromoted(w.desk, after.desk, ref, d);
    }
  }

  lemma {:induction false} RunStaysAnchored(env: Env, w: World, steps: seq<Step>, ref: ClaimRef, d: DefinitionId)
    requires Filed(w) && AdmissibleRun(env, w, steps) && ClaimReadsWork(steps, ref.player) && Anchored(w, ref, d)
    ensures Filed(Run(env, w, steps)) && Anchored(Run(env, w, steps), ref, d)
  {
    hide LogsFiled, Next, Admissible, ReadsClaimsOf, Anchored;
    if steps != [] {
      var n := |steps| - 1;
      RunStaysAnchored(env, w, steps[..n], ref, d);
      NextIsFiled(env, Run(env, w, steps[..n]), steps[n]);
      NextStaysAnchored(env, Run(env, w, steps[..n]), steps[n], ref, d);
    }
  }

  // ----------------------------------------------------------- how it can be lost

  /** A claim id the list does not hold. */
  lemma FreshClaimId(claims: seq<AchievementClaim>) returns (claimId: string)
    ensures FindClaim(claims, claimId).None?
  {
    claimId := FreshText(set c | c in claims :: c.claimId);
    assert forall i | 0 <= i < |claims| :: claims[i] in claims;
  }

  /** A promotion memory does not hold goes with the next save of its player. */
  lemma UnheldIsOverwritten(env: Env, w: World, ref: ClaimRef, d: DefinitionId, at: string) returns (steps: seq<Step>)
    requires env.isUuid(ref.player) && !PromotedAs(w.desk.held, ref, d) && Later(w, at)
    ensures AdmissibleRun(env, w, steps) && AllReadsWork(steps)
    ensures !PromotedAs(Run(env, w, steps).desk.saved, ref, d)
  {
    hide Next, PromotedAs, TextLe, IsStamp;
    StillLater(at);
    var id := FreshText(w.used);
    var create := Step(CreateProfileOp(ref.player, ""), InputsAt(id, at, Appended));
    var w1 := Next(env, w, create);
    var block := CreateEffect(env, w, ref.player, create.io);
    var claims := ClaimsOf(w.desk.held, ref.player);
    var claimId := FreshClaimId(claims);
    var input := ClaimInput("", "", "", 0, claimId, "", 0, at, None);
    var id' := FreshText(w1.used);
    var submit := Step(SubmitClaimOp(ref.player, input), InputsAt(id', at, Appended));
    var w2 := Next(env, w1, submit);
    SubmitEffect(env, w1, ref.player, input, submit.io);
    steps := [create, submit];
    RunTwo(env, w, create, submit);
    PendingAddsNoPromotion(w.desk.held, w2.desk.saved, ref, d, SubmittedClaim(input, at));
  }

  lemma PendingAddsNoPromotion(held: map<string, seq<AchievementClaim>>, saved: map<string, seq<AchievementClaim>>,
                               ref: ClaimRef, d: DefinitionId, claim: AchievementClaim)
    requires !PromotedAs(held, ref, d) && claim.status.Pending?
    requires ClaimsOf(saved, ref.player) == ClaimsOf(held, ref.player) + [claim]
    ensures !PromotedAs(saved, ref, d)
  {
    if PromotedAs(saved, ref, d) {
      var i :| PromotedAt(ClaimsOf(saved, ref.player), i, ref.claimId, d);
      assert PromotedAt(ClaimsOf(held, ref.player), i, ref.claimId, d);
    }
  }

  /** A player without a log need not be listed, and then a restart forgets its claims. */
  lemma UnlistedIsUnheld(env: Env, w: World, ref: ClaimRef, d: DefinitionId, at: string) returns (step: Step)
    requires ref.player !in w.book.logs
    ensures step.op.RestartOp? && Admissible(w, step) && ReadsAll(step)
    ensures var after := Next(env, w, step);
      !PromotedAs(after.desk.held, ref, d) && after.clock == w.clock && after.desk.saved == w.desk.saved
  {
    hide ReplayBook, ReplayClaims;
    var ids := ListingOf(w.book.logs.Keys);
    step := Step(RestartOp(ids, Launch(at, ""), NO_FAULTS), InputsAt("", at, Appended));
    ReplayedClaimsAreSaved(w.desk.saved, ids, NO_FAULTS, ref.player);
  }

  /** Only parsable player ids have claim sets on disk. */
  lemma NextSavesForUuids(env: Env, w: World, step: Step, p: string)
    requires p in Next(env, w, step).desk.saved
    ensures p in w.desk.saved || env.isUuid(p)
  {
    hide AwardAchievement, ReplayBook, ReplayClaims, NextBook;
  }

  lemma {:induction false} RunSavesForUuids(env: Env, now: Launch, steps: seq<Step>, p: string)
    requires p in Run(env, Initial(env, now), steps).desk.saved
    ensures env.isUuid(p)
  {
    hide Next;
    if steps != [] {
      var n := |steps| - 1;
      NextSavesForUuids(env, Run(env, Initial(env, now), steps[..n]), steps[n], p);
      if p in Run(env, Initial(env, now), steps[..n]).desk.saved {
        RunSavesForUuids(env, now, steps[..n], p);
      }
    }
  }

  /** Exactly when a promotion saved on disk survives whatever comes, in every state that can
      be reached: memory holds it too, and its player already has a log for restarts to list. */
  lemma SavedPromotionSurvivesIff(env: Env, w: World, ref: ClaimRef, d: DefinitionId, at: string)
    requires Reached(env, w) && PromotedAs(w.desk.saved, ref, d) && Later(w, at)
    ensures (forall steps | AdmissibleRun(env, w, steps) && ClaimReadsWork(steps, ref.player) ::
               PromotedAs(Run(env, w, steps).desk.saved, ref, d))
            <==> PromotedAs(w.desk.held, ref, d) && ref.player in w.book.logs
  {
    hide PromotedAs, Next, Filed, IsStamp, TextLe, Admissible, CausesFiled, DeskInv, ReadsClaimsOf, ReadsAll;
    if Anchored(w, ref, d) {
      ReachedIsGuarded(env, w);
      forall steps | AdmissibleRun(env, w, steps) && ClaimReadsWork(steps, ref.player)
        ensures PromotedAs(Run(env, w, steps).desk.saved, ref, d)
      {
        RunStaysAnchored(env, w, steps, ref, d);
      }
    } else {
      var steps := SavedPromotionIsLost(env, w, ref, d, at);
      assert ClaimReadsWork(steps, ref.player) by { AllReadsReadClaims(steps, ref.player); }
    }
  }

  lemma AllReadsReadClaims(steps: seq<Step>, player: string)
    requires AllReadsWork(steps)
    ensures ClaimReadsWork(steps, player)
  {
    forall i | 0 <= i < |steps|
      ensures ReadsClaimsOf(steps[i], player)
    {
      assert ReadsAll(steps[i]);
    }
  }

  /** Otherwise a restart that reads everything, a created profile and a submitted claim
      are enough to lose it. */
  lemma SavedPromotionIsLost(env: Env, w: World, ref: ClaimRef, d: DefinitionId, at: string) returns (steps: seq<Step>)
    requires Reached(env, w) && PromotedAs(w.desk.saved, ref, d) && Later(w, at)
    requires !PromotedAs(w.desk.held, ref, d) || ref.player !in w.book.logs
    ensures AdmissibleRun(env, w, steps) && AllReadsWork(steps)
    ensures !PromotedAs(Run(env, w, steps).desk.saved, ref, d)
  {
    hide PromotedAs, Next, IsStamp, TextLe, Admissible;
    var now, past :| ReachedBy(env, now, past, w);
    assert ref.player in w.desk.saved by { PromotedIsSaved(w.desk.saved, ref, d); }
    RunSavesForUuids(env, now, past, ref.player);
    if PromotedAs(w.desk.held, ref, d) {
      var restart := UnlistedIsUnheld(env, w, ref, d, at);
      var rest := UnheldIsOverwritten(env, Next(env, w, restart), ref, d, at);
      RunOne(env, w, restart);
      RunAppend(env, w, [restart], rest);
      steps := [restart] + rest;
    } else {
      steps := UnheldIsOverwritten(env, w, ref, d, at);
    }
  }

  lemma PromotedIsSaved(claims: map<string, seq<AchievementClaim>>, ref: ClaimRef, d: DefinitionId)
    requires PromotedAs(claims, ref, d)
    ensures ref.player in claims
  {
  }

  /** And such states are reached: the player's appends fail, its claim is promoted and saved. */
  lemma UnloggedPromotionIsLost(env: Env, player: string, input: ClaimInput, def: AchievementDefinition, at: string)
    returns (w: World, later: World)
    requires env.isUuid(player) && IsStamp(at)
    ensures var ref := ClaimRef(player, input.claimId);
      var d := DefinitionId(input.developer, input.game, input.achievementId, input.version);
      && Reachable(env, w) && PromotedAs(w.desk.held, ref, d) && PromotedAs(w.desk.saved, ref, d)
      && Reachable(env, later) && !PromotedAs(later.desk.saved, ref, d)
      && exists steps :: AdmissibleRun(env, w, steps) && later == Run(env, w, steps)
  {
    hide Next, PromotedAs, IsStamp, TextLe, Admissible;
    var ref := ClaimRef(player, input.claimId);
    var d := DefinitionId(input.developer, input.game, input.achievementId, input.version);
    var steps := PromotionRun(env, player, input, def, at, Dropped(false), Dropped(false));
    w := Run(env, Initial(env, Launch(at, "")), steps);
    assert ReachedBy(env, Launch(at, ""), steps, w);
    StillLater(at);
    var more := SavedPromotionIsLost(env, w, ref, d, at);
    later := Run(env, w, more);
    RunAppend(env, Initial(env, Launch(at, "")), steps, more);
    assert ReachedBy(env, Launch(at, ""), steps + more, later);
    NoRestartsReadLedger(env, Initial(env, Launch(at, "")), steps);
    AllReadsReadLedger(env, Initial(env, Launch(at, "")), steps + more);
  }

  // -------------------------------------------------------- a claim set not read back

  /** A player whose claims memory does not hold can have any claim awarded. */
  lemma AwardedFromScratch(env: Env, w: World, ref: ClaimRef, def: AchievementDefinition, at: string)
    returns (steps: seq<Step>, x: Block, y: Block)
    requires env.isUuid(ref.player) && ClaimsOf(w.desk.held, ref.player) == [] && Later(w, at)
    ensures AdmissibleRun(env, w, steps) && NoRestarts(steps)
    ensures var after := Run(env, w, steps);
      && ref.player in after.book.logs && after.book.logs[ref.player] == LogOf(w.book.logs, ref.player) + [x] + [y]
      && after.promoted == w.promoted[IdOf(y) := ref] && IdOf(y) !in w.used
  {
    hide Next, PromotedAs, IsStamp, TextLe;
    StillLater(at);
    var p := ref.player;
    var a := FreshText(w.used);
    var create := Step(CreateProfileOp(p, ""), InputsAt(a, at, Appended));
    x := CreateEffect(env, w, p, create.io);
    var w1 := Next(env, w, create);
    var b := FreshText(w1.used);
    var input := ClaimInput("", "", "", 0, ref.claimId, "", 0, at, None);
    var submit := Step(SubmitClaimOp(p, input), InputsAt(b, at, Appended));
    SubmitEffect(env, w1, p, input, submit.io);
    var w2 := Next(env, w1, submit);
    var claim := SubmittedClaim(input, at);
    var c := FreshText(w2.used);
    var promote := PromoteStep(p, claim, def, InputsAt(c, at, Appended));
    y := PromoteEffect(env, w2, p, claim, def, promote.io);
    RunThree(env, w, create, submit, promote);
    steps := [create, submit, promote];
  }

  /** A restart that could not list the players, or could not read one player's claim set. */
  predicate MissesClaimsOf(step: Step, player: string) {
    step.op.RestartOp? && !ReadsClaimsOf(step, player)
  }

  lemma MissedEffect(env: Env, w: World, step: Step, p: string)
    requires MissesClaimsOf(step, p)
    ensures var after := Next(env, w, step);
      && after.book.logs == w.book.logs && ClaimsOf(after.desk.held, p) == []
      && after.clock == w.clock && after.used == w.used && after.promoted == w.promoted
  {
    hide ReplayBook, ReplayClaims;
    RestartKeepsLogs(env, w, step);
    ReplayedClaimsAreSaved(w.desk.saved, step.op.ids, step.op.faults, p);
  }

  /** Claim sets have to be found and read back: from any reachable state in which a claim has
      its durable award, a restart that missed the player's claims leads to a second durable
      award for the same claim. */
  lemma UnreadClaimsAreAwardedAgain(env: Env, w: World, restart: Step, ref: ClaimRef, i: nat,
                                    def: AchievementDefinition, at: string)
    returns (steps: seq<Step>, j: nat)
    requires ReachedReading(env, w, ref.player) && Award(w, ref, i) && Later(w, at)
    requires MissesClaimsOf(restart, ref.player) && Admissible(w, restart)
    ensures AdmissibleRun(env, Next(env, w, restart), steps) && NoRestarts(steps)
    ensures var after := Run(env, Next(env, w, restart), steps);
      && i < j && Award(after, ref, i) && Award(after, ref, j)
      && after.book.logs[ref.player][i] == w.book.logs[ref.player][i]
  {
    hide Next, PromotedAs, IsStamp, TextLe, LogsFiled, NoRestarts, AdmissibleRun, Run, Admissible, MissesClaimsOf;
    var p, first := ref.player, w.book.logs[ref.player][i];
    ReachedHasAwards(env, w, p);
    assert env.isUuid(p) by { AwardedIsUuid(env, w, ref, i); }
    assert IdOf(first) in w.used by { LoggedAtOwner(w.book.logs, w.used, p, first); }
    hide ReachedReading, Guarded, AwardInv;
    MissedEffect(env, w, restart, p);
    var x, y;
    steps, x, y := AwardedFromScratch(env, Next(env, w, restart), ref, def, at);
    j := |w.book.logs[p]| + 1;
    var after := Run(env, Next(env, w, restart), steps);
    assert after.book.logs[p] == w.book.logs[p] + [x] + [y];
    assert after.book.logs[p][j] == y && after.book.logs[p][i] == first;
  }

  lemma AwardedIsUuid(env: Env, w: World, ref: ClaimRef, i: nat)
    requires ReachedReading(env, w, ref.player) && Award(w, ref, i)
    ensures env.isUuid(ref.player)
  {
    hide Next, Admissible, LogsFiled, DeskInv, PromotedAs, Run, AdmissibleRun;
    ReachedHasAwards(env, w, ref.player);
    var x := w.book.logs[ref.player][i];
    LoggedAtOwner(w.book.logs, w.used, ref.player, x);
    assert Caused(w, x) && Backed(w, x);
    var d :| BackedAs(w, x, d);
    PromotedIsSaved(w.desk.saved, ref, d);
    var now, past :| ReachedBy(env, now, past, w) && ClaimReadsWork(past, ref.player);
    RunSavesForUuids(env, now, past, ref.player);
  }

  /** Exactly when a restart keeps the promise that a claim is awarded at most once, once the
      claim has its durable award: it listed the players and read the claim set of this one,
      whatever else it failed to read. */
  lemma AwardedOnceIff(env: Env, w: World, restart: Step, ref: ClaimRef, i: nat, at: string)
    requires ReachedReading(env, w, ref.player) && Award(w, ref, i) && Later(w, at)
    requires restart.op.RestartOp? && Admissible(w, restart)
    ensures (forall steps |
               AdmissibleRun(env, Next(env, w, restart), steps) && ClaimReadsWork(steps, ref.player) ::
               AtMostOneAward(Run(env, Next(env, w, restart), steps), ref))
            <==> !restart.op.faults.listing && ref.player !in restart.op.faults.claims
  {
    hide Next, PromotedAs, IsStamp, TextLe, AdmissibleRun, Run, Admissible, Guarded, AwardInv, ReachedReading, Award;
    var started := Next(env, w, restart);
    if ReadsClaimsOf(restart, ref.player) {
      ReachedHasAwards(env, w, ref.player);
      NextIsGuarded(env, w, restart);
      NextKeepsAwards(env, w, restart, ref.player);
      forall steps | AdmissibleRun(env, started, steps) && ClaimReadsWork(steps, ref.player)
        ensures AtMostOneAward(Run(env, started, steps), ref)
      {
        RunIsGuarded(env, started, steps);
        RunKeepsAwards(env, started, steps, ref.player);
        AwardsAreSingle(Run(env, started, steps), ref);
      }
    } else {
      var def := AchievementDefinition("", "", "", 0, "", "");
      var steps, j := UnreadClaimsAreAwardedAgain(env, w, restart, ref, i, def, at);
      assert !AtMostOneAward(Run(env, started, steps), ref);
      assert ClaimReadsWork(steps, ref.player);
    }
  }

  /** Two durable awards for one claim, from empty storage, when one single restart failed to
      list the players or to read one claim set. */
  lemma AwardedTwice(env: Env, player: string, input: ClaimInput, def: AchievementDefinition, at: string,
                     faults: ReadFaults)
    returns (steps: seq<Step>, w: World, k: nat, i: nat, j: nat)
    requires env.isUuid(player) && IsStamp(at)
    requires faults.listing || player in faults.claims
    ensures ReachedBy(env, Launch(at, ""), steps, w)
    ensures k < |steps| && steps[k].op.RestartOp? && steps[k].op.faults == faults
    ensures forall m | 0 <= m < |steps| && m != k :: !steps[m].op.RestartOp?
    ensures i < j && Award(w, ClaimRef(player, input.claimId), i) && Award(w, ClaimRef(player, input.claimId), j)
  {
    hide Next, PromotedAs, IsStamp, TextLe, Run, AdmissibleRun;
    var ref := ClaimRef(player, input.claimId);
    var past := PromotionRun(env, player, input, def, at, Appended, Appended);
    var w0 := Run(env, Initial(env, Launch(at, "")), past);
    assert ReachedBy(env, Launch(at, ""), past, w0) && ClaimReadsWork(past, player);
    StillLater(at);
    i := |w0.book.logs[player]| - 1;
    var ids := ListingOf(w0.book.logs.Keys);
    var restart := Step(RestartOp(ids, Launch(at, ""), faults), InputsAt("", at, Appended));
    var more;
    more, j := UnreadClaimsAreAwardedAgain(env, w0, restart, ref, i, def, at);
    RunOne(env, w0, restart);
    RunAppend(env, w0, [restart], more);
    RunAppend(env, Initial(env, Launch(at, "")), past, [restart] + more);
    steps, k := past + ([restart] + more), |past|;
    w := Run(env, Initial(env, Launch(at, "")), steps);
    forall m | 0 <= m < |steps| && m != k
      ensures !steps[m].op.RestartOp?
    {
      if m < k {
        assert steps[m] == past[m];
      } else {
        assert steps[m] == more[m - k - 1];
      }
    }
  }
}
