/** A claim that was reviewed is settled: no later promotion awards it while the process lives,
    and exactly when that also holds through restarts. */
module SettledClaims {
  import opened Common
  import opened Order
  import opened Blockchain
  import opened Registry
  import opened Journal
  import opened Claims
  import opened Runs
  import opened Filing
  import opened ClaimLifecycle
  import opened AwardOnce
  import opened Scenarios
  import opened ClaimSurvival
  import opened ClaimEffects
  import opened Requests
  import opened ClaimHistory

  predicate SettledAt(claims: seq<AchievementClaim>, i: int, claimId: string) {
    0 <= i < |claims| && claims[i].claimId == claimId && !claims[i].status.Pending?
  }

  /** The player has a claim under this id that is not Pending any more. */
  ghost predicate IsSettled(claims: map<string, seq<AchievementClaim>>, ref: ClaimRef) {
    exists i :: SettledAt(ClaimsOf(claims, ref.player), i, ref.claimId)
  }

  /** No transaction was caused by promoting this claim that was not before. */
  ghost predicate NoNewAward(before: World, after: World, ref: ClaimRef) {
    forall t | t in after.promoted && after.promoted[t] == ref :: t in before.promoted && before.promoted[t] == ref
  }

  lemma NoNewAwardTransitive(a: World, b: World, c: World, ref: ClaimRef)
    requires NoNewAward(a, b, ref) && NoNewAward(b, c, ref)
    ensures NoNewAward(a, c, ref)
  {
  }

  // ---------------------------------------------------------------- one operation

  lemma MadeKeepsSettled(step: Step, before: seq<AchievementClaim>, after: seq<AchievementClaim>, ref: ClaimRef)
    requires OneClaimMade(step, before, after, ref.player)
    requires exists i :: SettledAt(before, i, ref.claimId)
    ensures exists i :: SettledAt(after, i, ref.claimId)
  {
    var i :| SettledAt(before, i, ref.claimId);
    assert SettledAt(after, i, ref.claimId);
  }

  /** Promoting a settled claim awards nothing, nor does promoting any claim of a player whose
      id does not parse. */
  lemma SettledAwardsNothing(env: Env, w: World, step: Step, ref: ClaimRef)
    requires DistinctClaims(ClaimsOf(w.desk.held, ref.player)) && !step.op.RestartOp?
    requires IsSettled(w.desk.held, ref) || !env.isUuid(ref.player)
    ensures NoNewAward(w, Next(env, w, step), ref)
  {
    hide ReviewClaim, SubmitClaim, NextBook;
    var op, io, b, d := step.op, step.io, w.book, w.desk;
    if op.ReviewClaimOp? && op.player == ref.player && op.claimId == ref.claimId {
      var claims := ClaimsOf(d.held, ref.player);
      if op.player !in b.index.profiles || !Holds(claims, op.claimId) {
        ReviewFindsNothing(env, b, d, op.player, op.claimId, op.reviewer, op.action, op.note, op.definition, io);
      } else {
        var i := FirstOf(claims, op.claimId);
        if op.action.Reject? {
          ClaimIsRejected(env, b, d, op.player, op.claimId, op.reviewer, op.note, op.definition, io, i);
        } else if !claims[i].status.Pending? || op.definition.None? {
          PromotionIsRefused(env, b, d, op.player, op.claimId, op.reviewer, op.note, op.definition, io, i);
        } else {
          UnsavedPromotion(env, b, d, op.player, op.claimId, op.reviewer, op.note, op.definition.value, io, i);
        }
      }
    }
  }

  lemma OperationKeepsSettled(env: Env, w: World, step: Step, ref: ClaimRef)
    requires DeskInv(w.desk) && !step.op.RestartOp? && IsSettled(w.desk.held, ref)
    ensures var after := Next(env, w, step);
      && IsSettled(after.desk.held, ref) && NoNewAward(w, after, ref)
      && (IsSettled(w.desk.saved, ref) ==> IsSettled(after.desk.saved, ref))
  {
    hide Next, OneClaimMade, DistinctClaims, NoNewAward;
    var after := Next(env, w, step);
    OperationMakes(env, w, step, ref.player);
    MadeKeepsSettled(step, ClaimsOf(w.desk.held, ref.player), ClaimsOf(after.desk.held, ref.player), ref);
    if ClaimsOf(after.desk.saved, ref.player) != ClaimsOf(w.desk.saved, ref.player) {
      MadeKeepsSettled(step, ClaimsOf(w.desk.held, ref.player), ClaimsOf(after.desk.saved, ref.player), ref);
    }
    SettledAwardsNothing(env, w, step, ref);
  }

  // ------------------------------------------------------------------ one process

  lemma {:induction false} ProcessKeepsSettled(env: Env, w: World, steps: seq<Step>, ref: ClaimRef)
    requires DeskInv(w.desk) && NoRestarts(steps) && IsSettled(w.desk.held, ref)
    ensures var after := Run(env, w, steps);
      DeskInv(after.desk) && IsSettled(after.desk.held, ref) && NoNewAward(w, after, ref)
  {
    hide Next, DeskInv, IsSettled, NoNewAward;
    if steps == [] {
      NothingNew(w, ref);
    } else {
      var n := |steps| - 1;
      var before := Run(env, w, steps[..n]);
      ProcessKeepsSettled(env, w, steps[..n], ref);
      NextDesk(env, before, steps[n]);
      OperationKeepsSettled(env, before, steps[n], ref);
      NoNewAwardTransitive(w, before, Run(env, w, steps), ref);
    }
  }

  lemma NothingNew(w: World, ref: ClaimRef)
    ensures NoNewAward(w, w, ref)
  {
  }

  /** A claim that was rejected, whether the rejection could be saved or not, stays Rejected in
      memory and is never awarded by a later promotion of the same process. */
  lemma RejectionIsFinal(env: Env, w: World, reject: Step, i: nat, steps: seq<Step>)
    requires reject.op.ReviewClaimOp? && reject.op.action.Reject? && reject.op.player in w.book.index.profiles
    requires DeskInv(w.desk)
    requires IsFirst(ClaimsOf(w.desk.held, reject.op.player), i, reject.op.claimId)
    requires !ClaimsOf(w.desk.held, reject.op.player)[i].status.Promoted?
    requires NoRestarts(steps)
    ensures var later, ref := Run(env, Next(env, w, reject), steps), ClaimRef(reject.op.player, reject.op.claimId);
      && NoNewAward(w, later, ref)
      && i < |ClaimsOf(later.desk.held, ref.player)| && ClaimsOf(later.desk.held, ref.player)[i].claimId == ref.claimId
      && ClaimsOf(later.desk.held, ref.player)[i].status.Rejected?
  {
    hide ReviewClaim, Run, NoRestarts, DistinctClaims, ListBecomes, Saves;
    var op, ref, mid := reject.op, ClaimRef(reject.op.player, reject.op.claimId), Next(env, w, reject);
    ClaimIsRejected(env, w.book, w.desk, op.player, op.claimId, op.reviewer, op.note, op.definition, reject.io, i);
    var list := ClaimsOf(mid.desk.held, ref.player);
    assert SettledAt(list, i, ref.claimId);
    NextDesk(env, w, reject);
    ProcessKeepsSettled(env, mid, steps, ref);
    ClaimsOnlyAdvance(env, mid, steps);
    assert ListAdvances(list, ClaimsOf(Run(env, mid, steps).desk.held, ref.player));
    assert Advances(list[i], ClaimsOf(Run(env, mid, steps).desk.held, ref.player)[i]);
    assert mid.promoted == w.promoted;
  }

  // ------------------------------------------------------------- through restarts

  /** Settled in memory and on disk, and found by restarts. */
  ghost predicate Lasting(w: World, ref: ClaimRef) {
    IsSettled(w.desk.held, ref) && IsSettled(w.desk.saved, ref) && ref.player in w.book.logs
  }

  lemma NextStaysLasting(env: Env, w: World, step: Step, ref: ClaimRef)
    requires Guarded(w) && Admissible(w, step) && ReadsClaimsOf(step, ref.player) && Lasting(w, ref)
    ensures Lasting(Next(env, w, step), ref) && NoNewAward(w, Next(env, w, step), ref)
  {
    hide Next, OwnIds, Admissible, ReadsClaimsOf, DeskInv, LogsFiled, CausesFiled;
    NextKeepsLogs(env, w, step, ref.player);
    if step.op.RestartOp? {
      RestartHoldsSaved(env, w, step, ref.player);
      RestartKeepsPromoted(env, w, step);
    } else {
      OperationKeepsSettled(env, w, step, ref);
    }
  }

  lemma {:induction false} RunStaysLasting(env: Env, w: World, steps: seq<Step>, ref: ClaimRef)
    requires Guarded(w) && AdmissibleRun(env, w, steps) && ClaimReadsWork(steps, ref.player) && Lasting(w, ref)
    ensures var after := Run(env, w, steps);
      Guarded(after) && Lasting(after, ref) && NoNewAward(w, after, ref)
  {
    hide Next, Admissible, ReadsClaimsOf, Guarded, Lasting, NoNewAward;
    if steps == [] {
      NothingNew(w, ref);
    } else {
      var n := |steps| - 1;
      var before := Run(env, w, steps[..n]);
      RunStaysLasting(env, w, steps[..n], ref);
      NextIsGuarded(env, before, steps[n]);
      NextStaysLasting(env, before, steps[n], ref);
      NoNewAwardTransitive(w, before, Run(env, w, steps), ref);
    }
  }

  /** No claim of a player whose id does not parse is ever awarded. */
  lemma {:induction false} UnparsedIsNeverAwarded(env: Env, w: World, steps: seq<Step>, ref: ClaimRef)
    requires DeskInv(w.desk) && !env.isUuid(ref.player)
    ensures DeskInv(Run(env, w, steps).desk) && NoNewAward(w, Run(env, w, steps), ref)
  {
    hide Next, DeskInv, NoNewAward;
    if steps == [] {
      NothingNew(w, ref);
    } else {
      var n := |steps| - 1;
      var before := Run(env, w, steps[..n]);
      UnparsedIsNeverAwarded(env, w, steps[..n], ref);
      NextDesk(env, before, steps[n]);
      UnparsedStep(env, before, steps[n], ref);
      NoNewAwardTransitive(w, before, Run(env, w, steps), ref);
    }
  }

  lemma UnparsedStep(env: Env, w: World, step: Step, ref: ClaimRef)
    requires DeskInv(w.desk) && !env.isUuid(ref.player)
    ensures NoNewAward(w, Next(env, w, step), ref)
  {
    hide Next, DistinctClaims;
    if step.op.RestartOp? {
      RestartKeepsPromoted(env, w, step);
    } else {
      SettledAwardsNothing(env, w, step, ref);
    }
  }

  // ------------------------------------------------------------- awarded after all

  /** A claim that memory does not hold as settled can still be awarded. */
  lemma UnsettledIsAwarded(env: Env, w: World, ref: ClaimRef, at: string) returns (steps: seq<Step>, id: string)
    requires env.isUuid(ref.player) && !IsSettled(w.desk.held, ref) && Later(w, at)
    ensures AdmissibleRun(env, w, steps) && NoRestarts(steps)
    ensures id !in w.used
    ensures var after := Run(env, w, steps); id in after.promoted && after.promoted[id] == ref
  {
    hide Next, TextLe, IsStamp;
    StillLater(at);
    var p := ref.player;
    var a := FreshText(w.used);
    var create := Step(CreateProfileOp(p, ""), InputsAt(a, at, Appended));
    var block := CreateEffect(env, w, p, create.io);
    var w1 := Next(env, w, create);
    if Holds(ClaimsOf(w.desk.held, p), ref.claimId) {
      var promote := PromotionOfHeld(env, w1, ref, at);
      RunTwo(env, w, create, promote);
      steps, id := [create, promote], promote.io.transactionId;
    } else {
      var input := ClaimInput("", "", "", 0, ref.claimId, "", 0, at, None);
      var b := FreshText(w1.used);
      var submit := Step(SubmitClaimOp(p, input), InputsAt(b, at, Appended));
      FoundIsFirst(ClaimsOf(w1.desk.held, p), ref.claimId);
      SubmitEffect(env, w1, p, input, submit.io);
      var w2 := Next(env, w1, submit);
      NewClaimIsHeld(ClaimsOf(w1.desk.held, p), ClaimsOf(w2.desk.held, p), SubmittedClaim(input, at), ref);
      var promote := PromotionOfHeld(env, w2, ref, at);
      RunThree(env, w, create, submit, promote);
      steps, id := [create, submit, promote], promote.io.transactionId;
    }
  }

  lemma NewClaimIsHeld(before: seq<AchievementClaim>, after: seq<AchievementClaim>, claim: AchievementClaim,
                       ref: ClaimRef)
    requires after == before + [claim] && claim.claimId == ref.claimId && claim.status.Pending?
    requires !Holds(before, ref.claimId)
    ensures Holds(after, ref.claimId) && forall i :: !SettledAt(after, i, ref.claimId)
  {
    assert after[|before|] == claim;
    forall i
      ensures !SettledAt(after, i, ref.claimId)
    {
      if 0 <= i < |before| {
        assert after[i] == before[i] && before[i] in before;
      }
    }
  }

  lemma PromotionOfHeld(env: Env, w: World, ref: ClaimRef, at: string) returns (promote: Step)
    requires env.isUuid(ref.player) && ref.player in w.book.index.profiles
    requires Holds(ClaimsOf(w.desk.held, ref.player), ref.claimId) && !IsSettled(w.desk.held, ref) && Later(w, at)
    ensures Admissible(w, promote) && !promote.op.RestartOp?
    ensures var after, id := Next(env, w, promote), promote.io.transactionId;
      && id !in w.used && id in after.promoted && after.promoted[id] == ref
  {
    hide ReviewClaim, Effects.RewardsGain, Effects.MinedFor, IsReview, SameReceipt, Effects.AwardAnswer;
    var p := ref.player;
    var i := FirstOf(ClaimsOf(w.desk.held, p), ref.claimId);
    assert !SettledAt(ClaimsOf(w.desk.held, p), i, ref.claimId);
    var def := AchievementDefinition("", "", "", 0, "", "");
    var id := FreshText(w.used);
    var io := InputsAt(id, at, Appended);
    promote := Step(ReviewClaimOp(p, ref.claimId, "", Promote, None, Some(def)), io);
    PromotionIsAwarded(env, w.book, w.desk, p, ref.claimId, "", None, def, io, i);
  }

  /** A restart that reads everything, after which memory does not hold the claim as settled. */
  lemma RestartForgets(env: Env, w: World, ref: ClaimRef, at: string) returns (step: Step)
    requires !(IsSettled(w.desk.saved, ref) && ref.player in w.book.logs)
    ensures step.op.RestartOp? && Admissible(w, step) && ReadsAll(step)
    ensures var after := Next(env, w, step);
      !IsSettled(after.desk.held, ref) && after.clock == w.clock && after.used == w.used
  {
    hide ReplayBook, ReplayClaims;
    var ids := ListingOf(w.book.logs.Keys);
    step := Step(RestartOp(ids, Launch(at, ""), NO_FAULTS), InputsAt("", at, Appended));
    ReplayedClaimsAreSaved(w.desk.saved, ids, NO_FAULTS, ref.player);
  }

  /** Exactly when a claim that memory holds as reviewed can never be awarded again, whatever
      comes, in every state that can be reached: disk holds it as reviewed too and its player
      has a log for restarts to list, or the player's id does not parse at all. */
  lemma SettledForGoodIff(env: Env, w: World, ref: ClaimRef, at: string)
    requires Reached(env, w) && IsSettled(w.desk.held, ref) && Later(w, at)
    ensures (forall steps | AdmissibleRun(env, w, steps) && ClaimReadsWork(steps, ref.player) ::
               NoNewAward(w, Run(env, w, steps), ref))
            <==> !env.isUuid(ref.player) || (IsSettled(w.desk.saved, ref) && ref.player in w.book.logs)
  {
    hide Next, IsStamp, TextLe, Admissible, Run, AdmissibleRun, Filed, DeskInv, ReadsClaimsOf, ReadsAll, IsSettled,
         NoNewAward;
    ReachedIsGuarded(env, w);
    if !env.isUuid(ref.player) {
      forall steps | AdmissibleRun(env, w, steps) && ClaimReadsWork(steps, ref.player)
        ensures NoNewAward(w, Run(env, w, steps), ref)
      {
        UnparsedIsNeverAwarded(env, w, steps, ref);
      }
    } else if Lasting(w, ref) {
      forall steps | AdmissibleRun(env, w, steps) && ClaimReadsWork(steps, ref.player)
        ensures NoNewAward(w, Run(env, w, steps), ref)
      {
        RunStaysLasting(env, w, steps, ref);
      }
    } else {
      var steps := SettledIsAwardedAfterAll(env, w, ref, at);
      assert ClaimReadsWork(steps, ref.player) by { AllReadsReadClaims(steps, ref.player); }
    }
  }

  /** Otherwise a restart that reads everything and a promotion are enough to award it. */
  lemma SettledIsAwardedAfterAll(env: Env, w: World, ref: ClaimRef, at: string) returns (steps: seq<Step>)
    requires Guarded(w) && env.isUuid(ref.player) && Later(w, at)
    requires !(IsSettled(w.desk.saved, ref) && ref.player in w.book.logs)
    ensures AdmissibleRun(env, w, steps) && AllReadsWork(steps)
    ensures !NoNewAward(w, Run(env, w, steps), ref)
  {
    hide Next, IsStamp, TextLe, Admissible, Run, AdmissibleRun, Filed, DeskInv, IsSettled;
    var restart := RestartForgets(env, w, ref, at);
    var rest, id := UnsettledIsAwarded(env, Next(env, w, restart), ref, at);
    RunOne(env, w, restart);
    RunAppend(env, w, [restart], rest);
    steps := [restart] + rest;
    assert id !in w.promoted;
  }
}
