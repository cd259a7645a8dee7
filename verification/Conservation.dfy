/** Failure-free runs of one process: no award is lost, none comes from nowhere, and every
    promoted claim names its own transaction. */
module Conservation {
  import opened Common
  import opened BitVectors
  import opened Blockchain
  import opened Registry
  import opened Journal
  import opened Claims
  import opened Runs
  import opened LedgerInvariant
  import opened Recovery

  /** Storage answers every call, and the player's id is well formed. */
  predicate Faultless(env: Env, step: Step) {
    && !step.op.RestartOp?
    && env.isUuid(PlayerOf(step.op))
    && step.io.append.Appended? && step.io.firstSave && step.io.secondSave
  }

  function CountPromoted(claims: seq<AchievementClaim>): nat {
    if claims == [] then 0
    else CountPromoted(claims[..|claims| - 1]) + (if claims[|claims| - 1].status.Promoted? then 1 else 0)
  }

  /** How many awards of a run were given to a player directly. */
  function DirectAwards(env: Env, w: World, steps: seq<Step>, player: string): nat {
    if steps == [] then 0
    else
      var n := |steps| - 1;
      var before := Run(env, w, steps[..n]);
      DirectAwards(env, w, steps[..n], player)
      + (if steps[n].op.AwardAchievementOp? && steps[n].op.player == player && player in before.book.index.profiles
         then 1 else 0)
  }

  function AchievementCount(w: World, player: string): nat {
    |RewardsOf(w.book.index.rewards, player).achievements|
  }

  /** Block k of the chain is the award the claim's receipt names. */
  predicate Named(chain: seq<Block>, player: string, c: AchievementClaim, k: nat) {
    && 1 <= k < |chain|
    && |chain[k].transactions| == 1
    && chain[k].transactions[0].details.AchievementAwarded?
    && chain[k].transactions[0].playerId == player
    && c.awardedTransactionId == Some(chain[k].transactions[0].transactionId)
    && c.awardedBlockHash == Some(chain[k].blockHash)
  }

  ghost predicate NamesAward(chain: seq<Block>, player: string, c: AchievementClaim) {
    exists k: nat :: Named(chain, player, c, k)
  }

  /** Every promoted claim names an award of its player in the ledger. */
  ghost predicate ReceiptsHold(w: World) {
    forall p: string, i | 0 <= i < |ClaimsOf(w.desk.held, p)| && ClaimsOf(w.desk.held, p)[i].status.Promoted? ::
      NamesAward(w.book.chain, p, ClaimsOf(w.desk.held, p)[i])
  }

  /** And no two of them, of any players, name the same transaction. */
  ghost predicate ReceiptsDistinct(w: World) {
    forall p: string, q: string, i, j |
        && 0 <= i < |ClaimsOf(w.desk.held, p)| && ClaimsOf(w.desk.held, p)[i].status.Promoted?
        && 0 <= j < |ClaimsOf(w.desk.held, q)| && ClaimsOf(w.desk.held, q)[j].status.Promoted?
        && ClaimsOf(w.desk.held, p)[i].awardedTransactionId == ClaimsOf(w.desk.held, q)[j].awardedTransactionId ::
      p == q && i == j
  }

  // ------------------------------------------------------------------- counting

  lemma {:induction false} CountAfterUpdate(claims: seq<AchievementClaim>, i: nat, c: AchievementClaim)
    requires i < |claims|
    ensures CountPromoted(claims[i := c]) + (if claims[i].status.Promoted? then 1 else 0)
            == CountPromoted(claims) + (if c.status.Promoted? then 1 else 0)
  {
    var n := |claims| - 1;
    if i < n {
      assert claims[i := c][..n] == claims[..n][i := c];
      CountAfterUpdate(claims[..n], i, c);
    } else {
      assert claims[i := c][..n] == claims[..n];
    }
  }

  lemma CountAfterAppend(claims: seq<AchievementClaim>, c: AchievementClaim)
    ensures CountPromoted(claims + [c]) == CountPromoted(claims) + (if c.status.Promoted? then 1 else 0)
  {
    assert (claims + [c])[..|claims|] == claims;
  }

  // ----------------------------------------------------------- one faultless step

  /** How one step can change a player's claim list. */
  datatype ListChange =
    | NoChange
    | Added(claim: AchievementClaim)
    | Moved(index: nat, claim: AchievementClaim)

  predicate ChangedBy(before: seq<AchievementClaim>, after: seq<AchievementClaim>, change: ListChange) {
    match change
    case NoChange => after == before
    case Added(claim) => after == before + [claim] && !claim.status.Promoted?
    case Moved(i, claim) =>
      i < |before| && after == before[i := claim] && !before[i].status.Promoted?
  }

  /** The outcome of a faultless step for the player it is about: either no achievement and
      no promotion, or a direct award, or one claim promoted together with its award. */
  ghost predicate Balanced(env: Env, w: World, step: Step, change: ListChange) {
    var after, p := Next(env, w, step), PlayerOf(step.op);
    var n := |w.book.chain|;
    && ChangedBy(ClaimsOf(w.desk.held, p), ClaimsOf(after.desk.held, p), change)
    && (forall q: string :: q != p ==>
          && ClaimsOf(after.desk.held, q) == ClaimsOf(w.desk.held, q)
          && AchievementCount(after, q) == AchievementCount(w, q))
    && (change.Moved? ==> step.op.ReviewClaimOp?)
    && (change.Moved? && change.claim.status.Promoted? ==>
          && AchievementCount(after, p) == AchievementCount(w, p) + 1
          && |after.book.chain| == n + 1 && Named(after.book.chain, p, change.claim, n)
          && change.claim.awardedTransactionId == Some(step.io.transactionId))
    && (!(change.Moved? && change.claim.status.Promoted?) ==>
          AchievementCount(after, p) == AchievementCount(w, p)
                                       + (if step.op.AwardAchievementOp? && p in w.book.index.profiles then 1 else 0))
  }

  /** A faultless promotion succeeds as a whole. */
  lemma FaultlessPromotion(env: Env, b: Book, d: Desk, player: string, i: nat, reviewer: string, note: Option<string>,
                           def: AchievementDefinition, io: Inputs)
    requires i < |ClaimsOf(d.held, player)| && ClaimsOf(d.held, player)[i].status.Pending?
    requires player in b.index.profiles && env.isUuid(player)
    requires io.append.Appended? && io.firstSave && io.secondSave
    ensures var (book, desk, result) := PromoteClaim(env, b, d, player, i, reviewer, note, Some(def), io);
      var claims, after := ClaimsOf(d.held, player), ClaimsOf(desk.held, player);
      && book == AwardAchievement(env, b, player, def, io).0
      && |after| == |claims| && after == claims[i := after[i]] && after[i].status.Promoted?
      && Named(book.chain, player, after[i], |b.chain|)
      && after[i].awardedTransactionId == Some(io.transactionId)
      && (forall q: string :: q != player ==> ClaimsOf(desk.held, q) == ClaimsOf(d.held, q))
      && result.Ok? && result.value.1.Some?
  {
    hide Mined;
  }

  lemma ReviewIsBalanced(env: Env, w: World, step: Step) returns (change: ListChange)
    requires Faultless(env, step) && step.op.ReviewClaimOp?
    ensures Balanced(env, w, step, change)
  {
    hide AwardAchievement, PromoteClaim, Mined;
    var op, io := step.op, step.io;
    var claims := ClaimsOf(w.desk.held, op.player);
    var found := FindClaim(claims, op.claimId);
    change := NoChange;
    if op.player in w.book.index.profiles && found.Some? {
      var i := found.value;
      if op.action.Reject? && !claims[i].status.Promoted? {
        change := Moved(i, Reviewed(claims[i], Rejected, op.reviewer, op.note, io.claimAt));
        assert ClaimsOf(Next(env, w, step).desk.held, op.player) == claims[i := change.claim];
      } else if op.action.Promote? && claims[i].status.Pending? && op.definition.Some? {
        FaultlessPromotion(env, w.book, w.desk, op.player, i, op.reviewer, op.note, op.definition.value, io);
        change := Moved(i, ClaimsOf(Next(env, w, step).desk.held, op.player)[i]);
        AwardCounts(env, w.book, op.player, op.definition.value, io);
      } else {
        PromoteRefuses(env, w.book, w.desk, op.player, i, op.reviewer, op.note, op.definition, io);
      }
    }
  }

  lemma PromoteRefuses(env: Env, b: Book, d: Desk, player: string, i: nat, reviewer: string, note: Option<string>,
                       definition: Option<AchievementDefinition>, io: Inputs)
    requires i < |ClaimsOf(d.held, player)|
    requires !ClaimsOf(d.held, player)[i].status.Pending? || definition.None?
    ensures var (book, desk, _) := PromoteClaim(env, b, d, player, i, reviewer, note, definition, io);
      book == b && desk == d
  {
  }

  /** An award adds one achievement, to its player. */
  lemma AwardCounts(env: Env, b: Book, player: string, def: AchievementDefinition, io: Inputs)
    requires player in b.index.profiles
    ensures var after := AwardAchievement(env, b, player, def, io).0;
      && |after.chain| == |b.chain| + 1
      && (forall q: string :: |RewardsOf(after.index.rewards, q).achievements|
                              == |RewardsOf(b.index.rewards, q).achievements| + (if q == player then 1 else 0))
  {
    hide Mined;
  }

  /** No other operation gives anybody an achievement. */
  lemma OthersAwardNothing(env: Env, b: Book, op: Op, io: Inputs, q: string)
    requires op.CreateProfileOp? || op.SetVectorOp? || op.MergeVectorOp? || op.AwardEntitlementOp?
    ensures |RewardsOf(NextBook(env, b, op, io).index.rewards, q).achievements|
            == |RewardsOf(b.index.rewards, q).achievements|
  {
    hide Mined, Xor, New, AppendLog;
  }

  lemma SubmitAppends(env: Env, b: Book, d: Desk, player: string, input: ClaimInput, io: Inputs)
    ensures var after, claims := SubmitClaim(env, b, d, player, input, io).0, ClaimsOf(d.held, player);
      && ClaimsOf(after.held, player)
         == (if player in b.index.profiles && FindClaim(claims, input.claimId).None?
             then claims + [SubmittedClaim(input, io.claimAt)] else claims)
      && forall q: string :: q != player ==> ClaimsOf(after.held, q) == ClaimsOf(d.held, q)
  {
  }

  lemma OtherIsBalanced(env: Env, w: World, step: Step) returns (change: ListChange)
    requires Faultless(env, step) && !step.op.ReviewClaimOp?
    ensures Balanced(env, w, step, change)
  {
    hide SubmitClaim, AwardAchievement, AwardEntitlement, CreateProfile, SetVector, MergeVector, Named, Faultless,
         RewardsOf;
    var op, io := step.op, step.io;
    assert !op.RestartOp? by { FaultlessOp(env, step); }
    change := NoChange;
    if op.SubmitClaimOp? {
      var claims := ClaimsOf(w.desk.held, op.player);
      SubmitAppends(env, w.book, w.desk, op.player, op.input, io);
      if op.player in w.book.index.profiles && FindClaim(claims, op.input.claimId).None? {
        change := Added(SubmittedClaim(op.input, io.claimAt));
      }
    } else if op.AwardAchievementOp? {
      if op.player in w.book.index.profiles {
        AwardCounts(env, w.book, op.player, op.achievement, io);
      } else {
        UnknownAwardsNothing(env, w.book, op.player, op.achievement, io);
      }
    } else {
      forall q: string
        ensures AchievementCount(Next(env, w, step), q) == AchievementCount(w, q)
      {
        OthersAwardNothing(env, w.book, op, io, q);
      }
    }
  }

  lemma FaultlessOp(env: Env, step: Step)
    requires Faultless(env, step)
    ensures !step.op.RestartOp?
  {
  }

  lemma UnknownAwardsNothing(env: Env, b: Book, player: string, def: AchievementDefinition, io: Inputs)
    requires player !in b.index.profiles
    ensures AwardAchievement(env, b, player, def, io).0 == b
  {
  }

  // ------------------------------------------------------------------ receipts

  lemma NamesSurvive(chain: seq<Block>, longer: seq<Block>, player: string, c: AchievementClaim)
    requires NamesAward(chain, player, c) && chain <= longer
    ensures NamesAward(longer, player, c)
  {
    var k: nat :| Named(chain, player, c, k);
    assert Named(longer, player, c, k);
  }

  lemma NamedIdIsUsed(env: Env, w: World, player: string, c: AchievementClaim)
    requires Sound(env, w) && NamesAward(w.book.chain, player, c)
    ensures c.awardedTransactionId.Some? && c.awardedTransactionId.value in w.used
  {
    var k: nat :| Named(w.book.chain, player, c, k);
    assert IdOf(w.book.chain[k]) in w.used;
  }

  /** A promoted claim after the step is one from before, or the one just promoted. */
  lemma PromotedFromBefore(env: Env, w: World, step: Step, change: ListChange, q: string, i: nat)
    requires Balanced(env, w, step, change)
    requires var claims := ClaimsOf(Next(env, w, step).desk.held, q);
      i < |claims| && claims[i].status.Promoted?
    ensures var claims, before := ClaimsOf(Next(env, w, step).desk.held, q), ClaimsOf(w.desk.held, q);
      || (i < |before| && claims[i] == before[i])
      || (q == PlayerOf(step.op) && change.Moved? && i == change.index && claims[i] == change.claim)
  {
    hide Next, Named;
    if q != PlayerOf(step.op) {
      assert ClaimsOf(Next(env, w, step).desk.held, q) == ClaimsOf(w.desk.held, q);
    }
  }

  lemma ReceiptsAfter(env: Env, w: World, step: Step, change: ListChange)
    requires Sound(env, w) && Admissible(w, step) && Faultless(env, step)
    requires ReceiptsHold(w) && ReceiptsDistinct(w) && Balanced(env, w, step, change)
    requires w.book.chain <= Next(env, w, step).book.chain
    ensures ReceiptsHold(Next(env, w, step)) && ReceiptsDistinct(Next(env, w, step))
  {
    hide Next, BookInv, Named, Balanced, NamesAward;
    var after := Next(env, w, step);
    forall q: string, i | 0 <= i < |ClaimsOf(after.desk.held, q)| && ClaimsOf(after.desk.held, q)[i].status.Promoted?
      ensures NamesAward(after.book.chain, q, ClaimsOf(after.desk.held, q)[i])
    {
      PromotedFromBefore(env, w, step, change, q, i);
      var before := ClaimsOf(w.desk.held, q);
      if i < |before| && ClaimsOf(after.desk.held, q)[i] == before[i] {
        NamesSurvive(w.book.chain, after.book.chain, q, before[i]);
      } else {
        NewReceipt(env, w, step, change);
      }
    }
    forall p: string, q: string, i, j |
        && 0 <= i < |ClaimsOf(after.desk.held, p)| && ClaimsOf(after.desk.held, p)[i].status.Promoted?
        && 0 <= j < |ClaimsOf(after.desk.held, q)| && ClaimsOf(after.desk.held, q)[j].status.Promoted?
        && ClaimsOf(after.desk.held, p)[i].awardedTransactionId == ClaimsOf(after.desk.held, q)[j].awardedTransactionId
      ensures p == q && i == j
    {
      OldOrNewReceipt(env, w, step, change, p, i);
      OldOrNewReceipt(env, w, step, change, q, j);
    }
  }

  lemma NewReceipt(env: Env, w: World, step: Step, change: ListChange)
    requires Balanced(env, w, step, change) && change.Moved? && change.claim.status.Promoted?
    ensures NamesAward(Next(env, w, step).book.chain, PlayerOf(step.op), change.claim)
    ensures change.claim.awardedTransactionId == Some(step.io.transactionId)
  {
    assert Named(Next(env, w, step).book.chain, PlayerOf(step.op), change.claim, |w.book.chain|);
  }

  /** An old receipt names a used id, the new one the fresh id. */
  lemma OldOrNewReceipt(env: Env, w: World, step: Step, change: ListChange, q: string, i: nat)
    requires Sound(env, w) && ReceiptsHold(w) && Balanced(env, w, step, change)
    requires var claims := ClaimsOf(Next(env, w, step).desk.held, q);
      i < |claims| && claims[i].status.Promoted?
    ensures var claims, before := ClaimsOf(Next(env, w, step).desk.held, q), ClaimsOf(w.desk.held, q);
      || (i < |before| && claims[i] == before[i] && claims[i].awardedTransactionId.Some?
          && claims[i].awardedTransactionId.value in w.used)
      || (q == PlayerOf(step.op) && change.Moved? && i == change.index
          && claims[i].awardedTransactionId == Some(step.io.transactionId))
  {
    hide Next, BookInv, Named, Balanced, NamesAward;
    PromotedFromBefore(env, w, step, change, q, i);
    var claims, before := ClaimsOf(Next(env, w, step).desk.held, q), ClaimsOf(w.desk.held, q);
    if i < |before| && claims[i] == before[i] {
      NamedIdIsUsed(env, w, q, before[i]);
    } else {
      NewReceipt(env, w, step, change);
    }
  }

  // ------------------------------------------------------------------------ runs

  predicate AllFaultless(env: Env, steps: seq<Step>) {
    forall i | 0 <= i < |steps| :: Faultless(env, steps[i])
  }

  lemma BalancedCounts(env: Env, w: World, step: Step, change: ListChange, player: string)
    requires Balanced(env, w, step, change)
    ensures var after := Next(env, w, step);
      AchievementCount(after, player) - CountPromoted(ClaimsOf(after.desk.held, player))
      == AchievementCount(w, player) - CountPromoted(ClaimsOf(w.desk.held, player))
         + (if step.op.AwardAchievementOp? && step.op.player == player && player in w.book.index.profiles then 1 else 0)
  {
    hide Next, Named;
    var p := PlayerOf(step.op);
    if player == p {
      var claims := ClaimsOf(w.desk.held, p);
      match change {
        case NoChange =>
        case Added(c) => CountAfterAppend(claims, c);
        case Moved(i, c) => CountAfterUpdate(claims, i, c);
      }
    }
  }

  /** Conservation: in every failure-free run of one process a player has exactly as many
      achievements as were awarded directly plus the claims that are Promoted; and every
      Promoted claim names, by transaction id and block hash, an achievement transaction of
      that player in the ledger, a different one for every claim. */
  lemma {:induction false} AwardsAreConserved(env: Env, now: Launch, steps: seq<Step>, player: string)
    requires Binding(env.hash)
    requires AdmissibleRun(env, Initial(env, now), steps) && AllFaultless(env, steps)
    ensures var w := Run(env, Initial(env, now), steps);
      && AchievementCount(w, player)
         == DirectAwards(env, Initial(env, now), steps, player) + CountPromoted(ClaimsOf(w.desk.held, player))
      && ReceiptsHold(w)
      && ReceiptsDistinct(w)
  {
    hide Binding, Next, Admissible, ReceiptsHold, ReceiptsDistinct, Balanced, BookInv, AchievementCount;
    var start := Initial(env, now);
    InitialIsSound(env, now);
    if steps == [] {
      NothingAwarded(env, now, player);
    } else {
      var n := |steps| - 1;
      var w, step := Run(env, start, steps[..n]), steps[n];
      AwardsAreConserved(env, now, steps[..n], player);
      assert NoRestarts(steps[..n]);
      NoRestartsReadLedger(env, start, steps[..n]);
      RunIsSound(env, start, steps[..n]);
      assert Faultless(env, step);
      assert OwnIds(w.book.index) by { SoundOwnIds(env, w); }
      var change;
      if step.op.ReviewClaimOp? {
        change := ReviewIsBalanced(env, w, step);
      } else {
        change := OtherIsBalanced(env, w, step);
      }
      NextOnlyGrows(env, w, step);
      ReceiptsAfter(env, w, step, change);
      BalancedCounts(env, w, step, change, player);
    }
  }

  lemma NothingAwarded(env: Env, now: Launch, player: string)
    ensures var w := Initial(env, now);
      && AchievementCount(w, player) == CountPromoted(ClaimsOf(w.desk.held, player)) == 0
      && ReceiptsHold(w) && ReceiptsDistinct(w)
  {
  }
}
