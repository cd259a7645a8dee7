/** What submitting and reviewing a claim changes and answers, field by field, whatever
    storage answers. */
module ClaimEffects {
  import opened Common
  import opened Blockchain
  import opened Registry
  import opened Journal
  import opened Claims
  import opened ClaimLifecycle
  import opened Effects

  /** The claims of this player become `list`, those of everybody else stay. */
  ghost predicate ListBecomes(a: map<string, seq<AchievementClaim>>, b: map<string, seq<AchievementClaim>>,
                              player: string, list: seq<AchievementClaim>)
  {
    && ClaimsOf(b, player) == list
    && forall p: string | p != player :: ClaimsOf(b, p) == ClaimsOf(a, p)
  }

  /** A save that works writes the list as a whole, for an id that parses; otherwise the disk
      stays as it was. */
  ghost predicate Saves(env: Env, d: Desk, after: Desk, player: string, list: seq<AchievementClaim>, works: bool) {
    if env.isUuid(player) && works then ListBecomes(d.saved, after.saved, player, list) else after.saved == d.saved
  }

  /** What a save that did not work is answered with. */
  predicate SaveError(env: Env, player: string, kind: ErrorKind) {
    kind == if env.isUuid(player) then Other else InvalidInput
  }

  // ------------------------------------------------------------------ submissions

  /** A claim holds the nine fields of an input and the time it was submitted. */
  predicate SubmittedAs(c: AchievementClaim, input: ClaimInput, at: string) {
    && c.developer == input.developer && c.game == input.game
    && c.achievementId == input.achievementId && c.version == input.version
    && c.claimId == input.claimId && c.sessionId == input.sessionId && c.clientSequence == input.clientSequence
    && c.claimedAt == input.claimedAt && c.evidence == input.evidence
    && c.submittedAt == at
  }

  /** A claim as it was submitted: not reviewed yet. */
  predicate IsSubmission(c: AchievementClaim, input: ClaimInput, at: string) {
    SubmittedAs(c, input, at) && c.status == Pending && Unreviewed(c)
  }

  predicate Unreviewed(c: AchievementClaim) {
    && c.reviewedAt == None && c.reviewer == None && c.reviewNote == None
    && c.awardedTransactionId == None && c.awardedBlockHash == None
  }

  /** The position of the first claim with an id. */
  predicate IsFirst(claims: seq<AchievementClaim>, i: nat, claimId: string) {
    && i < |claims| && claims[i].claimId == claimId
    && forall j | 0 <= j < i :: claims[j].claimId != claimId
  }

  predicate Holds(claims: seq<AchievementClaim>, claimId: string) {
    exists c :: c in claims && c.claimId == claimId
  }

  lemma FoundIsFirst(claims: seq<AchievementClaim>, claimId: string)
    ensures FindClaim(claims, claimId).Some? <==> Holds(claims, claimId)
    ensures forall i: nat :: FindClaim(claims, claimId) == Some(i) <==> IsFirst(claims, i, claimId)
  {
    var found := FindClaim(claims, claimId);
    if Holds(claims, claimId) {
      var c :| c in claims && c.claimId == claimId;
      var i :| 0 <= i < |claims| && claims[i] == c;
    }
    if found.Some? {
      assert claims[found.value] in claims;
    }
  }

  /** A new claim id adds one claim at the end, in memory even when the save fails. */
  lemma ClaimIsSubmitted(env: Env, b: Book, d: Desk, player: string, input: ClaimInput, io: Inputs)
    requires player in b.index.profiles && !Holds(ClaimsOf(d.held, player), input.claimId)
    ensures var (after, result) := SubmitClaim(env, b, d, player, input, io);
      var claims, list := ClaimsOf(d.held, player), ClaimsOf(after.held, player);
      && |list| == |claims| + 1 && list[..|claims|] == claims
      && IsSubmission(list[|claims|], input, io.claimAt)
      && ListBecomes(d.held, after.held, player, list)
      && Saves(env, d, after, player, list, io.firstSave)
      && if env.isUuid(player) && io.firstSave then result == Ok(list[|claims|])
         else result.Err? && SaveError(env, player, result.kind)
  {
    FoundIsFirst(ClaimsOf(d.held, player), input.claimId);
  }

  /** An id the player already used is answered with the first claim held under it, and an
      unknown player is NotFound; neither changes anything. */
  lemma ClaimIsNotSubmitted(env: Env, b: Book, d: Desk, player: string, input: ClaimInput, io: Inputs)
    requires player !in b.index.profiles || Holds(ClaimsOf(d.held, player), input.claimId)
    ensures var (after, result) := SubmitClaim(env, b, d, player, input, io);
      && after == d
      && (player !in b.index.profiles ==> result == Err(NotFound))
      && (player in b.index.profiles ==>
            forall i: nat | IsFirst(ClaimsOf(d.held, player), i, input.claimId) ::
              result == Ok(ClaimsOf(d.held, player)[i]))
  {
    FoundIsFirst(ClaimsOf(d.held, player), input.claimId);
  }

  // ---------------------------------------------------------------------- reviews

  /** A claim as a review leaves it: still the same submission, with the review's outcome,
      reviewer, note and time. */
  predicate IsReview(before: AchievementClaim, c: AchievementClaim, status: ClaimStatus, reviewer: string,
                     note: Option<string>, at: string)
  {
    && SameSubmission(before, c)
    && c.status == status
    && c.reviewedAt == Some(at) && c.reviewer == Some(reviewer) && c.reviewNote == note
  }

  predicate SameReceipt(a: AchievementClaim, b: AchievementClaim) {
    a.awardedTransactionId == b.awardedTransactionId && a.awardedBlockHash == b.awardedBlockHash
  }

  /** Putting one claim back in its place and saving. */
  lemma OneClaimBack(env: Env, d: Desk, player: string, i: nat, c: AchievementClaim, works: bool)
    requires i < |ClaimsOf(d.held, player)|
    ensures var (after, saved) := PersistClaims(env, ReplaceClaim(d, player, i, c), player, works);
      var list := ClaimsOf(d.held, player)[i := c];
      && ListBecomes(d.held, after.held, player, list)
      && Saves(env, d, after, player, list, works)
      && (saved.Ok? <==> env.isUuid(player) && works)
      && (saved.Err? ==> SaveError(env, player, saved.kind))
  {
  }

  /** Nothing is found to review. */
  lemma ReviewFindsNothing(env: Env, b: Book, d: Desk, player: string, claimId: string, reviewer: string,
                           action: ReviewAction, note: Option<string>, definition: Option<AchievementDefinition>,
                           io: Inputs)
    requires player !in b.index.profiles || !Holds(ClaimsOf(d.held, player), claimId)
    ensures ReviewClaim(env, b, d, player, claimId, reviewer, action, note, definition, io) == (b, d, Err(NotFound))
  {
    hide PromoteClaim, RejectClaim;
    FoundIsFirst(ClaimsOf(d.held, player), claimId);
  }

  /** Rejecting stores the rejection in its place and saves; only a Promoted claim refuses. */
  lemma ClaimIsRejected(env: Env, b: Book, d: Desk, player: string, claimId: string, reviewer: string,
                        note: Option<string>, definition: Option<AchievementDefinition>, io: Inputs, i: nat)
    requires player in b.index.profiles && IsFirst(ClaimsOf(d.held, player), i, claimId)
    ensures var (book, after, result) :=
        ReviewClaim(env, b, d, player, claimId, reviewer, Reject, note, definition, io);
      var claims, list := ClaimsOf(d.held, player), ClaimsOf(after.held, player);
      && book == b
      && if claims[i].status.Promoted? then after == d && result == Err(InvalidInput)
         else
           && |list| == |claims| && list == claims[i := list[i]]
           && IsReview(claims[i], list[i], Rejected, reviewer, note, io.claimAt) && SameReceipt(claims[i], list[i])
           && ListBecomes(d.held, after.held, player, list)
           && Saves(env, d, after, player, list, io.firstSave)
           && if env.isUuid(player) && io.firstSave then result == Ok((list[i], None))
              else result.Err? && SaveError(env, player, result.kind)
  {
    hide PersistClaims, ReplaceClaim, Saves;
    FoundIsFirst(ClaimsOf(d.held, player), claimId);
    var updated := Reviewed(ClaimsOf(d.held, player)[i], Rejected, reviewer, note, io.claimAt);
    OneClaimBack(env, d, player, i, updated, io.firstSave);
    var saved := PersistClaims(env, ReplaceClaim(d, player, i, updated), player, io.firstSave).1;
    assert saved.Err? ==> SaveError(env, player, saved.kind);
  }

  /** Promoting refuses a Promoted or Rejected claim, and a missing definition. */
  lemma PromotionIsRefused(env: Env, b: Book, d: Desk, player: string, claimId: string, reviewer: string,
                           note: Option<string>, definition: Option<AchievementDefinition>, io: Inputs, i: nat)
    requires player in b.index.profiles && IsFirst(ClaimsOf(d.held, player), i, claimId)
    requires var claim := ClaimsOf(d.held, player)[i]; !claim.status.Pending? || definition.None?
    ensures var (book, after, result) :=
        ReviewClaim(env, b, d, player, claimId, reviewer, Promote, note, definition, io);
      var claim := ClaimsOf(d.held, player)[i];
      && book == b && after == d
      && match claim.status
         case Promoted => result == Ok((claim, None))
         case Rejected => result == Err(InvalidInput)
         case Pending => result == Err(NotFound)
  {
    FoundIsFirst(ClaimsOf(d.held, player), claimId);
  }

  /** The two writes of a promotion that goes through. */
  lemma PromotionPieces(env: Env, b: Book, d: Desk, player: string, i: nat, reviewer: string, note: Option<string>,
                        def: AchievementDefinition, io: Inputs)
    requires i < |ClaimsOf(d.held, player)|
    ensures var claims := ClaimsOf(d.held, player);
      var marked := Reviewed(claims[i], Promoted, reviewer, note, io.claimAt);
      var (d1, saved1) := PersistClaims(env, ReplaceClaim(d, player, i, marked), player, io.firstSave);
      var award := AwardAchievement(env, b, player, def, io).1;
      && (saved1.Ok? <==> env.isUuid(player) && io.firstSave)
      && ListBecomes(d.held, d1.held, player, claims[i := marked])
      && Saves(env, d, d1, player, claims[i := marked], io.firstSave)
      && (award.Ok? ==>
            var updated := marked.(awardedTransactionId := Some(award.value.transactionId),
                                   awardedBlockHash := Some(award.value.blockHash));
            var (d2, saved2) := PersistClaims(env, ReplaceClaim(d1, player, i, updated), player, io.secondSave);
            && (saved2.Ok? <==> env.isUuid(player) && io.secondSave)
            && (saved2.Err? ==> SaveError(env, player, saved2.kind))
            && ListBecomes(d.held, d2.held, player, claims[i := updated])
            && Saves(env, d1, d2, player, claims[i := updated], io.secondSave))
  {
    hide AwardAchievement, PersistClaims, ReplaceClaim, Saves;
    var claims := ClaimsOf(d.held, player);
    var marked := Reviewed(claims[i], Promoted, reviewer, note, io.claimAt);
    var d1 := PersistClaims(env, ReplaceClaim(d, player, i, marked), player, io.firstSave).0;
    OneClaimBack(env, d, player, i, marked, io.firstSave);
    var award := AwardAchievement(env, b, player, def, io).1;
    if award.Ok? {
      var updated := marked.(awardedTransactionId := Some(award.value.transactionId),
                             awardedBlockHash := Some(award.value.blockHash));
      assert claims[i := marked][i := updated] == claims[i := updated];
      OneClaimBack(env, d1, player, i, updated, io.secondSave);
    }
  }

  /** A promotion that stops after its mark was saved is answered with Other. */
  lemma LaterFailureIsOther(env: Env, b: Book, d: Desk, player: string, i: nat, reviewer: string, note: Option<string>,
                        def: AchievementDefinition, io: Inputs)
    requires player in b.index.profiles
    requires i < |ClaimsOf(d.held, player)| && ClaimsOf(d.held, player)[i].status.Pending?
    requires env.isUuid(player) && io.firstSave
    ensures !(io.append.Appended? && io.secondSave) ==>
              PromoteClaim(env, b, d, player, i, reviewer, note, Some(def), io).2 == Err(Other)
  {
    hide Mined;
  }

  /** Promoting a Pending claim marks it in memory with the review, whatever fails. */
  lemma PromotionIsMarked(env: Env, b: Book, d: Desk, player: string, claimId: string, reviewer: string,
                          note: Option<string>, def: AchievementDefinition, io: Inputs, i: nat)
    requires player in b.index.profiles && IsFirst(ClaimsOf(d.held, player), i, claimId)
    requires ClaimsOf(d.held, player)[i].status.Pending?
    ensures var (book, after, result) :=
        ReviewClaim(env, b, d, player, claimId, reviewer, Promote, note, Some(def), io);
      var claims, list := ClaimsOf(d.held, player), ClaimsOf(after.held, player);
      && |list| == |claims| && list == claims[i := list[i]]
      && IsReview(claims[i], list[i], Promoted, reviewer, note, io.claimAt)
      && ListBecomes(d.held, after.held, player, list)
  {
    hide AwardAchievement, PersistClaims, ReplaceClaim, Saves;
    FoundIsFirst(ClaimsOf(d.held, player), claimId);
    PromotionPieces(env, b, d, player, i, reviewer, note, def, io);
  }

  /** When the mark cannot be saved nothing is awarded and the disk stays. */
  lemma UnsavedPromotion(env: Env, b: Book, d: Desk, player: string, claimId: string, reviewer: string,
                         note: Option<string>, def: AchievementDefinition, io: Inputs, i: nat)
    requires player in b.index.profiles && IsFirst(ClaimsOf(d.held, player), i, claimId)
    requires ClaimsOf(d.held, player)[i].status.Pending?
    requires !env.isUuid(player) || !io.firstSave
    ensures var (book, after, result) :=
        ReviewClaim(env, b, d, player, claimId, reviewer, Promote, note, Some(def), io);
      var list := ClaimsOf(after.held, player);
      && book == b && after.saved == d.saved
      && i < |list| && SameReceipt(ClaimsOf(d.held, player)[i], list[i])
      && result.Err? && SaveError(env, player, result.kind)
  {
    hide AwardAchievement;
    FoundIsFirst(ClaimsOf(d.held, player), claimId);
  }

  /** Once the mark is saved the achievement is awarded.  If the append works the claim gets
      the receipt, with the transaction's id and the block's hash, and the claims on disk are
      those in memory unless the last save fails: then the disk keeps the mark without the
      receipt, as it does when the append fails. */
  lemma PromotionIsAwarded(env: Env, b: Book, d: Desk, player: string, claimId: string, reviewer: string,
                           note: Option<string>, def: AchievementDefinition, io: Inputs, i: nat)
    requires player in b.index.profiles && IsFirst(ClaimsOf(d.held, player), i, claimId)
    requires ClaimsOf(d.held, player)[i].status.Pending?
    requires env.isUuid(player) && io.firstSave
    ensures var (book, after, result) :=
        ReviewClaim(env, b, d, player, claimId, reviewer, Promote, note, Some(def), io);
      var claims, list, disk := ClaimsOf(d.held, player), ClaimsOf(after.held, player), ClaimsOf(after.saved, player);
      && i < |list|
      && Awards(env, b, book, player, def, io)
      && ListBecomes(d.saved, after.saved, player, disk)
      && |disk| == |claims| && disk == claims[i := disk[i]]
      && IsReview(claims[i], disk[i], Promoted, reviewer, note, io.claimAt)
      && (if io.append.Appended?
          then && list[i].awardedTransactionId == Some(io.transactionId)
               && list[i].awardedBlockHash == Some(book.chain[|b.chain|].blockHash)
          else SameReceipt(claims[i], list[i]))
      && (if io.append.Appended? && io.secondSave
          then && disk == list
               && result.Ok? && result.value.0 == list[i] && result.value.1.Some?
               && AwardAnswer(env, AchievementEntry(env, player, def, io), book.chain[|b.chain|], io,
                              Ok(result.value.1.value))
          else SameReceipt(claims[i], disk[i]) && result == Err(Other))
  {
    hide AwardAchievement, Awards, PersistClaims, ReplaceClaim;
    FoundIsFirst(ClaimsOf(d.held, player), claimId);
    PromotionPieces(env, b, d, player, i, reviewer, note, def, io);
    LaterFailureIsOther(env, b, d, player, i, reviewer, note, def, io);
    AchievementIsAwarded(env, b, player, def, io);
    assert Awards(env, b, AwardAchievement(env, b, player, def, io).0, player, def, io)
           ==> |AwardAchievement(env, b, player, def, io).0.chain| == |b.chain| + 1 by {
      AwardsGrow(env, b, AwardAchievement(env, b, player, def, io).0, player, def, io);
    }
  }

  lemma AwardsGrow(env: Env, b: Book, after: Book, player: string, def: AchievementDefinition, io: Inputs)
    ensures Awards(env, b, after, player, def, io) ==> |after.chain| == |b.chain| + 1
  {
  }
}
