/** Claims over runs: every claim anywhere is accounted for by the requests, and a submission
    is answered with what was first submitted. */
module ClaimHistory {
  import opened Common
  import opened Journal
  import opened Claims
  import opened Runs
  import opened ClaimLifecycle
  import opened ClaimEffects
  import opened Requests

  // ------------------------------------------------------------ one step at a time

  function StatusOf(action: ReviewAction): ClaimStatus {
    match action case Promote => Promoted case Reject => Rejected
  }

  /** The step reviewed the claim `before` and left it as `c`. */
  predicate ReviewedBy(step: Step, before: AchievementClaim, c: AchievementClaim, p: string) {
    && step.op.ReviewClaimOp? && step.op.player == p && before.claimId == step.op.claimId
    && (if step.op.action.Promote? then before.status.Pending? else !before.status.Promoted?)
    && IsReview(before, c, StatusOf(step.op.action), step.op.reviewer, step.op.note, step.io.claimAt)
    && (SameReceipt(before, c)
        || (step.op.action.Promote? && c.awardedTransactionId == Some(step.io.transactionId)
            && c.awardedBlockHash.Some?))
  }

  predicate SubmittedBy(step: Step, c: AchievementClaim, p: string) {
    step.op.SubmitClaimOp? && step.op.player == p && IsSubmission(c, step.op.input, step.io.claimAt)
  }

  /** A list changed by at most one claim that the step submitted or reviewed. */
  predicate OneClaimMade(step: Step, before: seq<AchievementClaim>, after: seq<AchievementClaim>, p: string) {
    || after == before
    || (|after| == |before| + 1 && after[..|before|] == before && SubmittedBy(step, after[|before|], p))
    || (|after| == |before|
        && exists i: nat | i < |before| :: after == before[i := after[i]] && ReviewedBy(step, before[i], after[i], p))
  }

  lemma ReviewMakes(env: Env, w: World, step: Step)
    requires step.op.ReviewClaimOp?
    ensures var after, p := Next(env, w, step).desk, step.op.player;
      && OneClaimMade(step, ClaimsOf(w.desk.held, p), ClaimsOf(after.held, p), p)
      && (ClaimsOf(after.saved, p) == ClaimsOf(w.desk.saved, p)
          || OneClaimMade(step, ClaimsOf(w.desk.held, p), ClaimsOf(after.saved, p), p))
      && forall q: string | q != p :: ClaimsOf(after.held, q) == ClaimsOf(w.desk.held, q)
                                      && ClaimsOf(after.saved, q) == ClaimsOf(w.desk.saved, q)
  {
    hide ReviewClaim, AwardAchievement, SameSubmission, Effects.Awards, Effects.AwardAnswer;
    var op, io, b, d := step.op, step.io, w.book, w.desk;
    var claims := ClaimsOf(d.held, op.player);
    if op.player !in b.index.profiles || !Holds(claims, op.claimId) {
      ReviewFindsNothing(env, b, d, op.player, op.claimId, op.reviewer, op.action, op.note, op.definition, io);
    } else {
      var i := FirstOf(claims, op.claimId);
      if op.action.Reject? {
        ClaimIsRejected(env, b, d, op.player, op.claimId, op.reviewer, op.note, op.definition, io, i);
      } else if !claims[i].status.Pending? || op.definition.None? {
        PromotionIsRefused(env, b, d, op.player, op.claimId, op.reviewer, op.note, op.definition, io, i);
      } else {
        var def := op.definition.value;
        PromotionIsMarked(env, b, d, op.player, op.claimId, op.reviewer, op.note, def, io, i);
        if !env.isUuid(op.player) || !io.firstSave {
          UnsavedPromotion(env, b, d, op.player, op.claimId, op.reviewer, op.note, def, io, i);
        } else {
          PromotionIsAwarded(env, b, d, op.player, op.claimId, op.reviewer, op.note, def, io, i);
        }
      }
    }
  }

  /** What one operation makes of the claims in memory and on disk: at most one claim, of its
      own player, is submitted or reviewed, and what is saved is what is then in memory. */
  lemma OperationMakes(env: Env, w: World, step: Step, p: string)
    requires !step.op.RestartOp?
    ensures var after := Next(env, w, step).desk;
      && OneClaimMade(step, ClaimsOf(w.desk.held, p), ClaimsOf(after.held, p), p)
      && (ClaimsOf(after.saved, p) == ClaimsOf(w.desk.saved, p)
          || OneClaimMade(step, ClaimsOf(w.desk.held, p), ClaimsOf(after.saved, p), p))
  {
    hide SubmitClaim, ReviewClaim, NextBook, ReviewedBy, SameSubmission;
    match step.op {
      case ReviewClaimOp(q, _, _, _, _, _) =>
        ReviewMakes(env, w, step);
      case SubmitClaimOp(q, input) =>
        if q !in w.book.index.profiles || Holds(ClaimsOf(w.desk.held, q), input.claimId) {
          ClaimIsNotSubmitted(env, w.book, w.desk, q, input, step.io);
        } else {
          ClaimIsSubmitted(env, w.book, w.desk, q, input, step.io);
        }
      case _ =>
    }
  }

  // --------------------------------------------------------------- accountability

  predicate SubmittedIn(steps: seq<Step>, c: AchievementClaim, p: string, k: int) {
    && 0 <= k < |steps| && steps[k].op.SubmitClaimOp? && steps[k].op.player == p
    && SubmittedAs(c, steps[k].op.input, steps[k].io.claimAt)
  }

  /** Step k of the run is the review a claim shows, with its receipt if it has one. */
  predicate ReviewedIn(steps: seq<Step>, c: AchievementClaim, p: string, k: int) {
    && 0 <= k < |steps| && steps[k].op.ReviewClaimOp? && steps[k].op.player == p
    && steps[k].op.claimId == c.claimId && c.status == StatusOf(steps[k].op.action)
    && c.reviewer == Some(steps[k].op.reviewer) && c.reviewNote == steps[k].op.note
    && c.reviewedAt == Some(steps[k].io.claimAt)
    && (c.awardedTransactionId.None?
        || (c.status.Promoted? && c.awardedTransactionId == Some(steps[k].io.transactionId)))
    && (c.awardedTransactionId.None? <==> c.awardedBlockHash.None?)
  }

  /** The requests of a run account for a claim: one of them submitted it, and if it is not
      Pending one of them reviewed it just so. */
  ghost predicate Accounted(steps: seq<Step>, c: AchievementClaim, p: string) {
    && (exists k :: SubmittedIn(steps, c, p, k))
    && (if c.status.Pending? then Unreviewed(c) else exists k :: ReviewedIn(steps, c, p, k))
  }

  lemma AccountedLater(steps: seq<Step>, step: Step, c: AchievementClaim, p: string)
    requires Accounted(steps, c, p)
    ensures Accounted(steps + [step], c, p)
  {
    hide SubmittedAs;
    var k :| SubmittedIn(steps, c, p, k);
    assert SubmittedIn(steps + [step], c, p, k);
    if !c.status.Pending? {
      var m :| ReviewedIn(steps, c, p, m);
      assert ReviewedIn(steps + [step], c, p, m);
    }
  }

  lemma AccountedReview(steps: seq<Step>, step: Step, before: AchievementClaim, c: AchievementClaim, p: string)
    requires Accounted(steps, before, p) && ReviewedBy(step, before, c, p)
    ensures Accounted(steps + [step], c, p)
  {
    var k :| SubmittedIn(steps, before, p, k);
    assert SubmittedIn(steps + [step], c, p, k);
    if before.status.Rejected? {
      var m :| ReviewedIn(steps, before, p, m);
    }
    assert ReviewedIn(steps + [step], c, p, |steps|);
  }

  lemma MadeIsAccounted(steps: seq<Step>, step: Step, before: seq<AchievementClaim>, after: seq<AchievementClaim>,
                        p: string, c: AchievementClaim)
    requires forall x | x in before :: Accounted(steps, x, p)
    requires OneClaimMade(step, before, after, p) && c in after
    ensures Accounted(steps + [step], c, p)
  {
    hide Accounted, IsSubmission, ReviewedBy;
    if c in before {
      AccountedLater(steps, step, c, p);
    } else if |after| == |before| {
      var i: nat :| i < |before| && after == before[i := after[i]] && ReviewedBy(step, before[i], after[i], p);
      assert c == after[i];
      AccountedReview(steps, step, before[i], c, p);
    } else {
      assert c == after[|before|];
      AccountedSubmission(steps, step, c, p);
    }
  }

  lemma AccountedSubmission(steps: seq<Step>, step: Step, c: AchievementClaim, p: string)
    requires SubmittedBy(step, c, p)
    ensures Accounted(steps + [step], c, p)
  {
    assert SubmittedIn(steps + [step], c, p, |steps|);
  }

  ghost predicate AllAccounted(steps: seq<Step>, d: Desk, p: string) {
    forall c | c in ClaimsOf(d.held, p) || c in ClaimsOf(d.saved, p) :: Accounted(steps, c, p)
  }

  /** Over every run, whatever fails and whatever restarts could not read: every claim in
      memory or on disk has the fields of a submission that was made for its player, is
      unreviewed while Pending, and otherwise shows outcome, reviewer, note, time and receipt
      of a review that was made of it. */
  lemma {:induction false} ClaimsAreAccountedFor(env: Env, now: Launch, steps: seq<Step>, p: string)
    ensures AllAccounted(steps, Run(env, Initial(env, now), steps).desk, p)
  {
    hide Next, Accounted, OneClaimMade;
    if steps != [] {
      var n := |steps| - 1;
      var init, step := steps[..n], steps[n];
      var w := Run(env, Initial(env, now), init);
      var after := Next(env, w, step).desk;
      ClaimsAreAccountedFor(env, now, init, p);
      assert steps == init + [step];
      forall c | c in ClaimsOf(after.held, p) || c in ClaimsOf(after.saved, p)
        ensures Accounted(steps, c, p)
      {
        if step.op.RestartOp? {
          RestartDesk(env, w, step, p);
          AccountedLater(init, step, c, p);
        } else {
          OperationMakes(env, w, step, p);
          if c in ClaimsOf(after.held, p) {
            MadeIsAccounted(init, step, ClaimsOf(w.desk.held, p), ClaimsOf(after.held, p), p, c);
          } else if c in ClaimsOf(w.desk.saved, p) {
            AccountedLater(init, step, c, p);
          } else {
            MadeIsAccounted(init, step, ClaimsOf(w.desk.held, p), ClaimsOf(after.saved, p), p, c);
          }
        }
      }
    }
  }

  lemma RestartDesk(env: Env, w: World, step: Step, p: string)
    requires step.op.RestartOp?
    ensures var after := Next(env, w, step).desk;
      && after.saved == w.desk.saved
      && (ClaimsOf(after.held, p) == ClaimsOf(w.desk.saved, p) || ClaimsOf(after.held, p) == [])
  {
    hide ReplayBook, ReplayClaims;
    ReplayedClaimsAreSaved(w.desk.saved, step.op.ids, step.op.faults, p);
  }

  // ------------------------------------------------------------- resubmitting

  /** Submitting a claim id again, later in the same process, is answered with the claim first
      submitted under it, as it stands by then, and changes nothing: whatever the new input
      says, and whether the first save worked or not. */
  lemma ResubmissionIsAnswered(env: Env, w: World, first: Step, steps: seq<Step>, again: ClaimInput, io: Inputs)
    requires first.op.SubmitClaimOp? && first.op.player in w.book.index.profiles && NoRestarts(steps)
    requires !Holds(ClaimsOf(w.desk.held, first.op.player), first.op.input.claimId)
    requires again.claimId == first.op.input.claimId
    ensures var later := Run(env, Next(env, w, first), steps);
      var (after, result) := SubmitClaim(env, later.book, later.desk, first.op.player, again, io);
      && after == later.desk
      && result.Ok? && SubmittedAs(result.value, first.op.input, first.io.claimAt)
  {
    hide SubmitClaim, Run, Advances, ListBecomes, Saves, NoRestarts;
    var p, input := first.op.player, first.op.input;
    var mid := Next(env, w, first);
    var later := Run(env, mid, steps);
    var claims, list, last := ClaimsOf(w.desk.held, p), ClaimsOf(mid.desk.held, p), ClaimsOf(later.desk.held, p);
    ClaimIsSubmitted(env, w.book, w.desk, p, input, first.io);
    ClaimsOnlyAdvance(env, mid, steps);
    assert ListAdvances(list, last);
    assert p in later.book.index.profiles by {
      assert p in mid.book.index.profiles;
      KnownIs(env, mid, steps, p);
    }
    var i := |claims|;
    assert Advances(list[i], last[i]);
    assert SubmittedAs(last[i], input, first.io.claimAt) by { AdvancesIsSubmission(list[i], last[i]); }
    forall j | 0 <= j < i
      ensures last[j].claimId != input.claimId
    {
      assert list[j] in claims by { assert list[..i][j] == list[j]; }
      assert Advances(list[j], last[j]);
      AdvancesIsSubmission(list[j], last[j]);
    }
    assert IsFirst(last, i, input.claimId);
    assert last[i] in last && Holds(last, input.claimId);
    ClaimIsNotSubmitted(env, later.book, later.desk, p, again, io);
  }

  lemma AdvancesIsSubmission(a: AchievementClaim, b: AchievementClaim)
    requires Advances(a, b)
    ensures SameSubmission(a, b)
  {
  }
}
