/** The claim half of the service as values: pending claims, their review, and the one
    claim set per player that storage replaces as a whole. */
module Claims {
  import opened Common
  import opened Journal
  import opened Registry

  datatype ClaimStatus = Pending | Promoted | Rejected

  datatype AchievementClaim = AchievementClaim(
    developer: string, game: string, achievementId: string, version: nat,
    claimId: string, sessionId: string, clientSequence: nat, claimedAt: string, evidence: Option<string>,
    submittedAt: string, status: ClaimStatus,
    reviewedAt: Option<string>, reviewer: Option<string>, reviewNote: Option<string>,
    awardedTransactionId: Option<string>, awardedBlockHash: Option<string>)
  {
    function Definition(): DefinitionId { DefinitionId(developer, game, achievementId, version) }
  }

  datatype ClaimInput = ClaimInput(
    developer: string, game: string, achievementId: string, version: nat,
    claimId: string, sessionId: string, clientSequence: nat, claimedAt: string, evidence: Option<string>)

  datatype ReviewAction = Promote | Reject

  /** Claims in memory, and the claim sets on disk. */
  datatype Desk = Desk(held: map<string, seq<AchievementClaim>>, saved: map<string, seq<AchievementClaim>>)

  function ClaimsOf(claims: map<string, seq<AchievementClaim>>, player: string): seq<AchievementClaim> {
    if player in claims then claims[player] else []
  }

  /** The position of the first claim with an id, as `position` finds it. */
  function FindClaim(claims: seq<AchievementClaim>, claimId: string): (found: Option<nat>)
    ensures found.Some? ==> found.value < |claims| && claims[found.value].claimId == claimId
    ensures found.Some? ==> forall i | 0 <= i < found.value :: claims[i].claimId != claimId
    ensures found.None? ==> forall i | 0 <= i < |claims| :: claims[i].claimId != claimId
  {
    if claims == [] then None
    else
      var found := FindClaim(claims[..|claims| - 1], claimId);
      if found.Some? then found
      else if claims[|claims| - 1].claimId == claimId then Some(|claims| - 1)
      else None
  }

  /** `persist_claims`: the player's whole set is replaced, or nothing is. */
  function PersistClaims(env: Env, d: Desk, player: string, saveWorks: bool): (Desk, Result<()>) {
    if !env.isUuid(player) then (d, Err(InvalidInput))
    else if saveWorks then (d.(saved := d.saved[player := ClaimsOf(d.held, player)]), Ok(()))
    else (d, Err(Other))
  }

  function SubmittedClaim(input: ClaimInput, submittedAt: string): AchievementClaim {
    AchievementClaim(
      input.developer, input.game, input.achievementId, input.version,
      input.claimId, input.sessionId, input.clientSequence, input.claimedAt, input.evidence,
      submittedAt, Pending, None, None, None, None, None)
  }

  /** `submit_achievement_claim`: a known claim id is answered from memory, without a save. */
  function SubmitClaim(env: Env, b: Book, d: Desk, player: string, input: ClaimInput, io: Inputs)
    : (Desk, Result<AchievementClaim>)
  {
    if player !in b.index.profiles then (d, Err(NotFound))
    else
      var claims := ClaimsOf(d.held, player);
      var found := FindClaim(claims, input.claimId);
      if found.Some? then (d, Ok(claims[found.value]))
      else
        var stored := SubmittedClaim(input, io.claimAt);
        var (after, saved) := PersistClaims(env, d.(held := d.held[player := claims + [stored]]), player, io.firstSave);
        (after, if saved.Ok? then Ok(stored) else Err(saved.kind))
  }

  function Reviewed(c: AchievementClaim, status: ClaimStatus, reviewer: string, note: Option<string>, at: string)
    : AchievementClaim
  {
    c.(status := status, reviewedAt := Some(at), reviewer := Some(reviewer), reviewNote := note)
  }

  function ReplaceClaim(d: Desk, player: string, i: nat, c: AchievementClaim): Desk
    requires i < |ClaimsOf(d.held, player)|
  {
    d.(held := d.held[player := ClaimsOf(d.held, player)[i := c]])
  }

  type ReviewResult = Result<(AchievementClaim, Option<AwardRecord>)>

  /** The Promote branch of `review_achievement_claim`, for the claim at position `i`:
      mark and save first, award second, record the receipt and save again last. */
  function PromoteClaim(env: Env, b: Book, d: Desk, player: string, i: nat, reviewer: string, note: Option<string>,
                        achievement: Option<AchievementDefinition>, io: Inputs): (Book, Desk, ReviewResult)
    requires i < |ClaimsOf(d.held, player)|
  {
    var claim := ClaimsOf(d.held, player)[i];
    if claim.status.Promoted? then (b, d, Ok((claim, None)))
    else if claim.status.Rejected? then (b, d, Err(InvalidInput))
    else if achievement.None? then (b, d, Err(NotFound))
    else
      var marked := Reviewed(claim, Promoted, reviewer, note, io.claimAt);
      var (d1, saved1) := PersistClaims(env, ReplaceClaim(d, player, i, marked), player, io.firstSave);
      if saved1.Err? then (b, d1, Err(saved1.kind))
      else
        var (b1, award) := AwardAchievement(env, b, player, achievement.value, io);
        if award.Err? then (b1, d1, Err(award.kind))
        else
          var updated := marked.(awardedTransactionId := Some(award.value.transactionId),
                                 awardedBlockHash := Some(award.value.blockHash));
          var (d2, saved2) := PersistClaims(env, ReplaceClaim(d1, player, i, updated), player, io.secondSave);
          (b1, d2, if saved2.Ok? then Ok((updated, Some(award.value))) else Err(saved2.kind))
  }

  /** The Reject branch: a rejected claim may be rejected again. */
  function RejectClaim(env: Env, d: Desk, player: string, i: nat, reviewer: string, note: Option<string>, io: Inputs)
    : (Desk, ReviewResult)
    requires i < |ClaimsOf(d.held, player)|
  {
    var claim := ClaimsOf(d.held, player)[i];
    if claim.status.Promoted? then (d, Err(InvalidInput))
    else
      var updated := Reviewed(claim, Rejected, reviewer, note, io.claimAt);
      var (after, saved) := PersistClaims(env, ReplaceClaim(d, player, i, updated), player, io.firstSave);
      (after, if saved.Ok? then Ok((updated, None)) else Err(saved.kind))
  }

  /** `review_achievement_claim` */
  function ReviewClaim(env: Env, b: Book, d: Desk, player: string, claimId: string, reviewer: string,
                       action: ReviewAction, note: Option<string>, achievement: Option<AchievementDefinition>,
                       io: Inputs): (Book, Desk, ReviewResult)
  {
    if player !in b.index.profiles then (b, d, Err(NotFound))
    else
      var found := FindClaim(ClaimsOf(d.held, player), claimId);
      if found.None? then (b, d, Err(NotFound))
      else match action
        case Promote => PromoteClaim(env, b, d, player, found.value, reviewer, note, achievement, io)
        case Reject =>
          var (after, result) := RejectClaim(env, d, player, found.value, reviewer, note, io);
          (b, after, result)
  }

  /** The claim half of a restart: the non-empty claim sets of the listed players. */
  function ReplayClaims(saved: map<string, seq<AchievementClaim>>, ids: seq<string>, faults: ReadFaults)
    : map<string, seq<AchievementClaim>>
  {
    if ids == [] then map[]
    else
      var id := ids[|ids| - 1];
      var before := ReplayClaims(saved, ids[..|ids| - 1], faults);
      if id in faults.claims || ClaimsOf(saved, id) == [] then before else before[id := saved[id]]
  }

  function ReplayDesk(saved: map<string, seq<AchievementClaim>>, ids: seq<string>, faults: ReadFaults): Desk {
    Desk(if faults.listing then map[] else ReplayClaims(saved, ids, faults), saved)
  }
}
