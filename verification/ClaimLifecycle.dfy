/** What happens to a player's claims over runs: which fields can change, and in which order. */
module ClaimLifecycle {
  import opened Common
  import opened Registry
  import opened Journal
  import opened Claims
  import opened Runs

  /** The part of a claim the client submitted. */
  predicate SameSubmission(a: AchievementClaim, b: AchievementClaim) {
    && a.Definition() == b.Definition()
    && a.claimId == b.claimId && a.sessionId == b.sessionId && a.clientSequence == b.clientSequence
    && a.claimedAt == b.claimedAt && a.evidence == b.evidence && a.submittedAt == b.submittedAt
  }

  /** The legal histories of one claim: unchanged, Pending to Promoted, or anything but
      Promoted to Rejected (again, with a new review).  A promoted claim is final. */
  predicate Advances(a: AchievementClaim, b: AchievementClaim) {
    && SameSubmission(a, b)
    && (a == b || (a.status.Pending? && b.status.Promoted?) || (!a.status.Promoted? && b.status.Rejected?))
  }

  /** The list keeps every claim in its place, and what is added at the end is new. */
  predicate ListAdvances(before: seq<AchievementClaim>, after: seq<AchievementClaim>) {
    && |before| <= |after|
    && forall i | 0 <= i < |before| :: Advances(before[i], after[i])
  }

  predicate DistinctClaims(claims: seq<AchievementClaim>) {
    forall i, j | 0 <= i < j < |claims| :: claims[i].claimId != claims[j].claimId
  }

  ghost predicate HeldAdvance(before: Desk, after: Desk) {
    forall p: string :: ListAdvances(ClaimsOf(before.held, p), ClaimsOf(after.held, p))
  }

  ghost predicate DeskInv(d: Desk) {
    && (forall p: string :: DistinctClaims(ClaimsOf(d.held, p)))
    && (forall p: string :: DistinctClaims(ClaimsOf(d.saved, p)))
  }

  /** What a save can do to the disk: one player's set becomes the one in memory. */
  ghost predicate SavedFrom(before: Desk, after: Desk, player: string) {
    forall p: string ::
      ClaimsOf(after.saved, p) == ClaimsOf(before.saved, p)
      || (p == player && ClaimsOf(after.saved, p) == ClaimsOf(after.held, p))
  }

  // ------------------------------------------------------------ the operations

  lemma PersistSaves(env: Env, d: Desk, player: string, works: bool)
    ensures var after := PersistClaims(env, d, player, works).0;
      after.held == d.held && SavedFrom(d, after, player)
  {
  }

  /** The claim lists after one claim was replaced by a version of itself. */
  lemma ReplaceKeepsOthers(d: Desk, player: string, i: nat, c: AchievementClaim)
    requires i < |ClaimsOf(d.held, player)| && ClaimsOf(d.held, player)[i].claimId == c.claimId
    ensures var after := ReplaceClaim(d, player, i, c);
      && ClaimsOf(after.held, player) == ClaimsOf(d.held, player)[i := c]
      && (forall p: string :: p != player ==> ClaimsOf(after.held, p) == ClaimsOf(d.held, p))
      && after.saved == d.saved
      && (DeskInv(d) ==> DeskInv(after))
  {
    var claims, after := ClaimsOf(d.held, player), ReplaceClaim(d, player, i, c);
    assert ClaimsOf(after.held, player) == claims[i := c];
    forall p: string
      ensures DeskInv(d) ==> DistinctClaims(ClaimsOf(after.held, p)) && DistinctClaims(ClaimsOf(after.saved, p))
    {
      assert DeskInv(d) ==> DistinctClaims(ClaimsOf(d.held, p)) && DistinctClaims(ClaimsOf(d.saved, p));
    }
  }

  lemma SaveKeepsDeskInv(before: Desk, after: Desk, player: string)
    requires DeskInv(before) && after.held == before.held && SavedFrom(before, after, player)
    ensures DeskInv(after)
  {
    forall p: string
      ensures DistinctClaims(ClaimsOf(after.saved, p))
    {
      assert DistinctClaims(ClaimsOf(before.held, p)) && DistinctClaims(ClaimsOf(before.saved, p));
    }
  }

  predicate PromotedAt(claims: seq<AchievementClaim>, i: int, claimId: string, d: DefinitionId) {
    0 <= i < |claims| && claims[i].claimId == claimId && claims[i].status.Promoted? && claims[i].Definition() == d
  }

  /** The player has a Promoted claim with this id, and it is for this definition. */
  ghost predicate PromotedAs(claims: map<string, seq<AchievementClaim>>, ref: ClaimRef, d: DefinitionId) {
    exists i :: PromotedAt(ClaimsOf(claims, ref.player), i, ref.claimId, d)
  }

  ghost predicate IsPromoted(claims: map<string, seq<AchievementClaim>>, ref: ClaimRef) {
    exists d: DefinitionId :: PromotedAs(claims, ref, d)
  }

  /** A promotion that is both in memory and on disk stays on disk. */
  ghost predicate SavedStaysPromoted(before: Desk, after: Desk) {
    forall ref: ClaimRef, d: DefinitionId | PromotedAs(before.held, ref, d) && PromotedAs(before.saved, ref, d) ::
      PromotedAs(after.saved, ref, d)
  }

  /** What every operation does to the desk. */
  ghost predicate DeskStep(before: Desk, after: Desk, player: string) {
    && HeldAdvance(before, after)
    && SavedStaysPromoted(before, after)
    && (DeskInv(before) ==> DeskInv(after))
    && forall p: string :: p != player ==> ClaimsOf(after.held, p) == ClaimsOf(before.held, p)
  }

  lemma HeldAdvanceTransitive(a: Desk, b: Desk, c: Desk)
    requires HeldAdvance(a, b) && HeldAdvance(b, c)
    ensures HeldAdvance(a, c)
  {
    forall p: string
      ensures ListAdvances(ClaimsOf(a.held, p), ClaimsOf(c.held, p))
    {
      assert ListAdvances(ClaimsOf(a.held, p), ClaimsOf(b.held, p));
      assert ListAdvances(ClaimsOf(b.held, p), ClaimsOf(c.held, p));
    }
  }

  lemma AdvanceKeepsPromoted(before: Desk, after: Desk, ref: ClaimRef, d: DefinitionId)
    requires ListAdvances(ClaimsOf(before.held, ref.player), ClaimsOf(after.held, ref.player))
    requires PromotedAs(before.held, ref, d)
    ensures PromotedAs(after.held, ref, d)
  {
    var i :| PromotedAt(ClaimsOf(before.held, ref.player), i, ref.claimId, d);
    assert Advances(ClaimsOf(before.held, ref.player)[i], ClaimsOf(after.held, ref.player)[i]);
    assert PromotedAt(ClaimsOf(after.held, ref.player), i, ref.claimId, d);
  }

  lemma SameListSamePromotions(a: map<string, seq<AchievementClaim>>, b: map<string, seq<AchievementClaim>>,
                               ref: ClaimRef, d: DefinitionId)
    requires ClaimsOf(a, ref.player) == ClaimsOf(b, ref.player)
    ensures PromotedAs(a, ref, d) <==> PromotedAs(b, ref, d)
  {
  }

  /** Saving a player's set that moved on keeps the saved promotions. */
  lemma SaveStaysPromoted(before: Desk, after: Desk, player: string)
    requires HeldAdvance(before, after) && SavedFrom(before, after, player)
    ensures SavedStaysPromoted(before, after)
  {
    hide PromotedAs;
    forall ref: ClaimRef, d: DefinitionId | PromotedAs(before.held, ref, d) && PromotedAs(before.saved, ref, d)
      ensures PromotedAs(after.saved, ref, d)
    {
      if ClaimsOf(after.saved, ref.player) == ClaimsOf(before.saved, ref.player) {
        SameListSamePromotions(before.saved, after.saved, ref, d);
      } else {
        AdvanceKeepsPromoted(before, after, ref, d);
        SameListSamePromotions(after.held, after.saved, ref, d);
      }
    }
  }

  lemma DeskStays(d: Desk, player: string)
    ensures DeskStep(d, d, player)
  {
  }

  lemma SubmitDesk(env: Env, b: Book, d: Desk, player: string, input: ClaimInput, io: Inputs)
    ensures DeskStep(d, SubmitClaim(env, b, d, player, input, io).0, player)
  {
    var after := SubmitClaim(env, b, d, player, input, io).0;
    var claims := ClaimsOf(d.held, player);
    if player in b.index.profiles && FindClaim(claims, input.claimId).None? {
      var stored := SubmittedClaim(input, io.claimAt);
      var held := d.(held := d.held[player := claims + [stored]]);
      PersistSaves(env, held, player, io.firstSave);
      forall p: string
        ensures DeskInv(d) ==> DistinctClaims(ClaimsOf(held.held, p)) && DistinctClaims(ClaimsOf(held.saved, p))
      {
        assert DeskInv(d) ==> DistinctClaims(ClaimsOf(d.held, p)) && DistinctClaims(ClaimsOf(d.saved, p));
      }
      if DeskInv(d) {
        SaveKeepsDeskInv(held, after, player);
      }
      SavedFromReplaced(d, held, after, player);
      SaveStaysPromoted(d, after, player);
    }
  }

  lemma SavedFromReplaced(d: Desk, held: Desk, after: Desk, player: string)
    requires held.saved == d.saved && SavedFrom(held, after, player)
    ensures SavedFrom(d, after, player)
  {
    forall p: string
      ensures ClaimsOf(after.saved, p) == ClaimsOf(d.saved, p)
              || (p == player && ClaimsOf(after.saved, p) == ClaimsOf(after.held, p))
    {
      assert ClaimsOf(held.saved, p) == ClaimsOf(d.saved, p);
    }
  }

  /** One claim is replaced by a version of itself and the set is saved or not. */
  lemma ReplaceAndPersist(env: Env, d: Desk, player: string, i: nat, c: AchievementClaim, works: bool)
    requires i < |ClaimsOf(d.held, player)| && ClaimsOf(d.held, player)[i].claimId == c.claimId
    ensures var after := PersistClaims(env, ReplaceClaim(d, player, i, c), player, works).0;
      && ClaimsOf(after.held, player) == ClaimsOf(d.held, player)[i := c]
      && (forall p: string :: p != player ==> ClaimsOf(after.held, p) == ClaimsOf(d.held, p))
      && (DeskInv(d) ==> DeskInv(after))
      && SavedFrom(d, after, player)
  {
    var replaced := ReplaceClaim(d, player, i, c);
    ReplaceKeepsOthers(d, player, i, c);
    PersistSaves(env, replaced, player, works);
    SavedFromReplaced(d, replaced, PersistClaims(env, replaced, player, works).0, player);
    if DeskInv(d) {
      SaveKeepsDeskInv(replaced, PersistClaims(env, replaced, player, works).0, player);
    }
  }

  lemma OneClaimMoved(before: Desk, after: Desk, player: string, i: nat, c: AchievementClaim)
    requires i < |ClaimsOf(before.held, player)| && Advances(ClaimsOf(before.held, player)[i], c)
    requires ClaimsOf(after.held, player) == ClaimsOf(before.held, player)[i := c]
    requires forall p: string :: p != player ==> ClaimsOf(after.held, p) == ClaimsOf(before.held, p)
    requires DeskInv(before) ==> DeskInv(after)
    requires SavedStaysPromoted(before, after) || SavedFrom(before, after, player)
    ensures DeskStep(before, after, player)
  {
    assert HeldAdvance(before, after) by { OneClaimAdvanced(before, after, player, i, c); }
    if !SavedStaysPromoted(before, after) {
      SaveStaysPromoted(before, after, player);
    }
  }

  lemma OneClaimAdvanced(before: Desk, after: Desk, player: string, i: nat, c: AchievementClaim)
    requires i < |ClaimsOf(before.held, player)| && Advances(ClaimsOf(before.held, player)[i], c)
    requires ClaimsOf(after.held, player) == ClaimsOf(before.held, player)[i := c]
    requires forall p: string :: p != player ==> ClaimsOf(after.held, p) == ClaimsOf(before.held, p)
    ensures HeldAdvance(before, after)
  {
    forall p: string
      ensures ListAdvances(ClaimsOf(before.held, p), ClaimsOf(after.held, p))
    {
      if p != player {
        assert ClaimsOf(after.held, p) == ClaimsOf(before.held, p);
      }
    }
  }

  /** Recording the receipt on the promoted claim and saving again keeps saved promotions. */
  lemma ReceiptStaysPromoted(d: Desk, d1: Desk, d2: Desk, player: string, i: nat, marked: AchievementClaim,
                             updated: AchievementClaim)
    requires DeskStep(d, d1, player)
    requires i < |ClaimsOf(d1.held, player)| && ClaimsOf(d1.held, player)[i] == marked
    requires marked.status.Promoted? && updated.status.Promoted? && SameSubmission(marked, updated)
    requires ClaimsOf(d2.held, player) == ClaimsOf(d1.held, player)[i := updated]
    requires SavedFrom(d1, d2, player)
    ensures SavedStaysPromoted(d, d2)
  {
    hide PromotedAs, DeskInv;
    forall ref: ClaimRef, def: DefinitionId | PromotedAs(d.held, ref, def) && PromotedAs(d.saved, ref, def)
      ensures PromotedAs(d2.saved, ref, def)
    {
      assert PromotedAs(d1.saved, ref, def);
      if ClaimsOf(d2.saved, ref.player) == ClaimsOf(d1.saved, ref.player) {
        SameListSamePromotions(d1.saved, d2.saved, ref, def);
      } else {
        assert ListAdvances(ClaimsOf(d.held, ref.player), ClaimsOf(d1.held, ref.player));
        AdvanceKeepsPromoted(d, d1, ref, def);
        ReceiptKeepsPromoted(d1, d2, player, i, marked, updated, ref, def);
        SameListSamePromotions(d2.held, d2.saved, ref, def);
      }
    }
  }

  lemma ReceiptKeepsPromoted(d1: Desk, d2: Desk, player: string, i: nat, marked: AchievementClaim,
                             updated: AchievementClaim, ref: ClaimRef, def: DefinitionId)
    requires i < |ClaimsOf(d1.held, player)| && ClaimsOf(d1.held, player)[i] == marked
    requires marked.status.Promoted? && updated.status.Promoted? && SameSubmission(marked, updated)
    requires ClaimsOf(d2.held, player) == ClaimsOf(d1.held, player)[i := updated] && ref.player == player
    requires PromotedAs(d1.held, ref, def)
    ensures PromotedAs(d2.held, ref, def)
  {
    var k :| PromotedAt(ClaimsOf(d1.held, ref.player), k, ref.claimId, def);
    assert PromotedAt(ClaimsOf(d2.held, ref.player), k, ref.claimId, def);
  }

  lemma PromoteDesk(env: Env, b: Book, d: Desk, player: string, i: nat, reviewer: string, note: Option<string>,
                    definition: Option<AchievementDefinition>, io: Inputs)
    requires i < |ClaimsOf(d.held, player)|
    ensures DeskStep(d, PromoteClaim(env, b, d, player, i, reviewer, note, definition, io).1, player)
  {
    hide DeskInv, AwardAchievement;
    var claim := ClaimsOf(d.held, player)[i];
    DeskStays(d, player);
    if claim.status.Pending? && definition.Some? {
      var marked := Reviewed(claim, Promoted, reviewer, note, io.claimAt);
      var (d1, saved1) := PersistClaims(env, ReplaceClaim(d, player, i, marked), player, io.firstSave);
      ReplaceAndPersist(env, d, player, i, marked, io.firstSave);
      OneClaimMoved(d, d1, player, i, marked);
      var (b1, award) := AwardAchievement(env, b, player, definition.value, io);
      if saved1.Ok? && award.Ok? {
        var updated := marked.(awardedTransactionId := Some(award.value.transactionId),
                               awardedBlockHash := Some(award.value.blockHash));
        var d2 := PersistClaims(env, ReplaceClaim(d1, player, i, updated), player, io.secondSave).0;
        ReplaceAndPersist(env, d1, player, i, updated, io.secondSave);
        ReceiptStaysPromoted(d, d1, d2, player, i, marked, updated);
        OneClaimMoved(d, d2, player, i, updated);
      }
    }
  }

  lemma RejectDesk(env: Env, d: Desk, player: string, i: nat, reviewer: string, note: Option<string>, io: Inputs)
    requires i < |ClaimsOf(d.held, player)|
    ensures DeskStep(d, RejectClaim(env, d, player, i, reviewer, note, io).0, player)
  {
    hide DeskInv;
    var claim := ClaimsOf(d.held, player)[i];
    DeskStays(d, player);
    if !claim.status.Promoted? {
      var updated := Reviewed(claim, Rejected, reviewer, note, io.claimAt);
      ReplaceAndPersist(env, d, player, i, updated, io.firstSave);
      OneClaimMoved(d, RejectClaim(env, d, player, i, reviewer, note, io).0, player, i, updated);
    }
  }

  lemma ReviewDesk(env: Env, b: Book, d: Desk, player: string, claimId: string, reviewer: string,
                   action: ReviewAction, note: Option<string>, definition: Option<AchievementDefinition>, io: Inputs)
    ensures DeskStep(d, ReviewClaim(env, b, d, player, claimId, reviewer, action, note, definition, io).1, player)
  {
    hide DeskStep, PromoteClaim, RejectClaim;
    DeskStays(d, player);
    var found := FindClaim(ClaimsOf(d.held, player), claimId);
    if found.Some? {
      PromoteDesk(env, b, d, player, found.value, reviewer, note, definition, io);
      RejectDesk(env, d, player, found.value, reviewer, note, io);
    }
  }

  // -------------------------------------------------------------------- runs

  /** A restart holds exactly the saved claim sets it listed and could read. */
  lemma {:induction false} ReplayedClaimsAreSaved(saved: map<string, seq<AchievementClaim>>, ids: seq<string>,
                                                  faults: ReadFaults, p: string)
    ensures ClaimsOf(ReplayClaims(saved, ids, faults), p)
            == if p in ids && p !in faults.claims then ClaimsOf(saved, p) else []
  {
    if ids != [] {
      var n := |ids| - 1;
      ReplayedClaimsAreSaved(saved, ids[..n], faults, p);
      assert ids == ids[..n] + [ids[n]];
    }
  }

  lemma RestartKeepsDeskInv(saved: map<string, seq<AchievementClaim>>, ids: seq<string>, faults: ReadFaults)
    requires forall p: string :: DistinctClaims(ClaimsOf(saved, p))
    ensures DeskInv(ReplayDesk(saved, ids, faults))
  {
    forall p: string
      ensures DistinctClaims(ClaimsOf(ReplayDesk(saved, ids, faults).held, p))
    {
      ReplayedClaimsAreSaved(saved, ids, faults, p);
      assert DistinctClaims(ClaimsOf(saved, p));
    }
  }

  /** One step: no operation reorders, drops or alters a submitted claim. */
  lemma NextDesk(env: Env, w: World, step: Step)
    ensures DeskInv(w.desk) ==> DeskInv(Next(env, w, step).desk)
    ensures !step.op.RestartOp? ==> HeldAdvance(w.desk, Next(env, w, step).desk)
  {
    hide SubmitClaim, ReviewClaim, DeskInv, HeldAdvance;
    match step.op {
      case RestartOp(ids, now, faults) =>
        if DeskInv(w.desk) {
          assert forall p: string :: DistinctClaims(ClaimsOf(w.desk.saved, p)) by { SavedIsDistinct(w.desk); }
          RestartKeepsDeskInv(w.desk.saved, ids, faults);
        }
      case SubmitClaimOp(player, input) =>
        SubmitDesk(env, w.book, w.desk, player, input, step.io);
      case ReviewClaimOp(player, claimId, reviewer, action, note, definition) =>
        ReviewDesk(env, w.book, w.desk, player, claimId, reviewer, action, note, definition, step.io);
      case _ =>
        DeskStays(w.desk, "");
    }
  }

  lemma SavedIsDistinct(d: Desk)
    requires DeskInv(d)
    ensures forall p: string :: DistinctClaims(ClaimsOf(d.saved, p))
  {
  }

  /** Over every run, with any saves failing and any restarts and reads failing, no player
      ever has two claims with one id, in memory or on disk. */
  lemma {:induction false} ClaimIdsStayDistinct(env: Env, now: Launch, steps: seq<Step>)
    ensures DeskInv(Run(env, Initial(env, now), steps).desk)
  {
    hide DistinctClaims;
    if steps == [] {
      NoClaimsDistinct();
    } else {
      var n := |steps| - 1;
      ClaimIdsStayDistinct(env, now, steps[..n]);
      NextDesk(env, Run(env, Initial(env, now), steps[..n]), steps[n]);
    }
  }

  lemma NoClaimsDistinct()
    ensures DistinctClaims([])
  {
  }

  /** Within one process claims stay in their places, their submitted fields never change,
      and their status only moves Pending to Promoted or to Rejected; a promoted claim is
      never touched again. */
  lemma {:induction false} ClaimsOnlyAdvance(env: Env, w: World, steps: seq<Step>)
    requires NoRestarts(steps)
    ensures HeldAdvance(w.desk, Run(env, w, steps).desk)
  {
    hide Next, HeldAdvance, SavedStaysPromoted, DeskInv;
    if steps == [] {
      DeskStays(w.desk, "");
    } else {
      var n := |steps| - 1;
      ClaimsOnlyAdvance(env, w, steps[..n]);
      NextDesk(env, Run(env, w, steps[..n]), steps[n]);
      HeldAdvanceTransitive(w.desk, Run(env, w, steps[..n]).desk, Run(env, w, steps).desk);
    }
  }

  /** With distinct ids a claim id stands for one definition. */
  lemma PromotedAsOne(claims: map<string, seq<AchievementClaim>>, ref: ClaimRef, a: DefinitionId, b: DefinitionId)
    requires DistinctClaims(ClaimsOf(claims, ref.player))
    requires PromotedAs(claims, ref, a) && PromotedAs(claims, ref, b)
    ensures a == b
  {
    var i :| PromotedAt(ClaimsOf(claims, ref.player), i, ref.claimId, a);
    var j :| PromotedAt(ClaimsOf(claims, ref.player), j, ref.claimId, b);
  }
}
