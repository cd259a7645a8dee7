/** What memory holds is what was asked for: profiles and rewards after any operations of one
    process follow from the requests alone, whatever storage answered; and in every state that
    can be reached they are what the transactions of the ledger say. */
module Requests {
  import opened Common
  import opened BitVectors
  import opened Blockchain
  import opened Journal
  import opened Claims
  import opened Runs
  import opened Recovery
  import opened Effects
  import opened ClaimEffects
  import opened MemoryIndex

  // -------------------------------------------------------------------- profiles

  /** A profile as its requests describe it. */
  datatype Sketch = Sketch(name: string, dim: nat, bits: seq<bool>)

  function SketchOf(w: World, p: string): Option<Sketch> {
    if p in w.book.index.profiles then
      var profile := w.book.index.profiles[p];
      Some(Sketch(profile.name, profile.profileVec.dim, StoredBits(profile.profileVec)))
    else None
  }

  /** A profile starts with 16384 false bits, a set vector replaces them, a vector of the same
      dimension flips them where it is true. */
  function AfterRequest(s: Option<Sketch>, op: Op, p: string): Option<Sketch> {
    match op
    case CreateProfileOp(q, name) => if q == p then Some(Sketch(name, 16384, seq(16384, _ => false))) else s
    case SetVectorOp(q, vec) => if q == p && s.Some? then Some(Sketch(s.value.name, vec.dim, StoredBits(vec))) else s
    case MergeVectorOp(q, vec) =>
      if q == p && s.Some? && s.value.dim == vec.dim
      then Some(Sketch(s.value.name, vec.dim, Merged(s.value.bits, StoredBits(vec)))) else s
    case _ => s
  }

  function Requested(s: Option<Sketch>, steps: seq<Step>, p: string): Option<Sketch> {
    if steps == [] then s
    else AfterRequest(Requested(s, steps[..|steps| - 1], p), steps[|steps| - 1].op, p)
  }

  lemma FalseBitsAreStored(v: BitVec)
    requires WellFormed(v) && v.dim == 16384 && forall i: nat | i < 16384 :: !Bits(v)[i]
    ensures StoredBits(v) == seq(16384, _ => false)
  {
    forall i: nat | i < 16384
      ensures !StoredBits(v)[i]
    {
      assert !Bits(v)[i];
    }
  }

  /** Another player's profile stays. */
  lemma OtherSketchKept(w: World, after: World, player: string, p: string)
    requires OtherProfilesKept(w.book.index, after.book.index, player) && p != player
    ensures SketchOf(after, p) == SketchOf(w, p)
  {
    assert p in w.book.index.profiles <==> p in w.book.index.profiles - {player};
    assert p in after.book.index.profiles <==> p in after.book.index.profiles - {player};
  }

  lemma SketchAfterStep(env: Env, w: World, step: Step, p: string)
    requires !step.op.RestartOp?
    ensures SketchOf(Next(env, w, step), p) == AfterRequest(SketchOf(w, p), step.op, p)
  {
    hide CreateProfile, SetVector, MergeVector, AwardAchievement, AwardEntitlement, ReviewClaim, SubmitClaim, Records,
         RewardsKept, OtherProfilesKept, StoredBits, Merged, Bits, WellFormed;
    var b, io := w.book, step.io;
    var after := Next(env, w, step);
    match step.op {
      case CreateProfileOp(q, name) =>
        CreatedProfile(env, b, q, name, io);
        FalseBitsAreStored(after.book.index.profiles[q].profileVec);
        if p != q { OtherSketchKept(w, after, q, p); }
      case SetVectorOp(q, vec) =>
        VectorIsSet(env, b, q, vec, io);
        if p != q && q in b.index.profiles { OtherSketchKept(w, after, q, p); }
      case MergeVectorOp(q, vec) =>
        if Mergeable(b, q, vec) {
          VectorIsMerged(env, b, q, vec, io);
          if p != q && q in b.index.profiles { OtherSketchKept(w, after, q, p); }
        }
      case AwardAchievementOp(q, def) =>
        AchievementIsAwarded(env, b, q, def, io);
      case AwardEntitlementOp(q, def, quantity, expiration) =>
        EntitlementIsGranted(env, b, q, def, quantity, expiration, io);
      case SubmitClaimOp(_, _) =>
      case ReviewClaimOp(q, claimId, reviewer, action, note, definition) =>
        ReviewBook(env, b, w.desk, q, claimId, reviewer, action, note, definition, io);
        if definition.Some? {
          AchievementIsAwarded(env, b, q, definition.value, io);
        }
    }
  }

  /** After any operations of one process, each profile's name, dimension and bits are what its
      requests ask for, in their order, whether the appends worked or not. */
  lemma {:induction false} ProfilesFollowRequests(env: Env, w: World, steps: seq<Step>, p: string)
    requires NoRestarts(steps)
    ensures SketchOf(Run(env, w, steps), p) == Requested(SketchOf(w, p), steps, p)
  {
    hide Next, SketchOf, AfterRequest;
    if steps != [] {
      var n := |steps| - 1;
      ProfilesFollowRequests(env, w, steps[..n], p);
      SketchAfterStep(env, Run(env, w, steps[..n]), steps[n], p);
    }
  }

  // --------------------------------------------------------------------- rewards

  /** Whether a player has a profile after some operations. */
  predicate Known(known: bool, steps: seq<Step>, p: string) {
    known || exists i :: 0 <= i < |steps| && steps[i].op.CreateProfileOp? && steps[i].op.player == p
  }

  lemma {:induction false} KnownIs(env: Env, w: World, steps: seq<Step>, p: string)
    requires NoRestarts(steps)
    ensures p in Run(env, w, steps).book.index.profiles <==> Known(p in w.book.index.profiles, steps, p)
  {
    hide Next;
    if steps != [] {
      var n := |steps| - 1;
      var init, last := steps[..n], steps[n];
      assert forall i | 0 <= i < n :: init[i] == steps[i];
      KnownIs(env, w, init, p);
      SketchAfterStep(env, Run(env, w, init), last, p);
      assert Known(p in w.book.index.profiles, steps, p)
             <==> Known(p in w.book.index.profiles, init, p) || (last.op.CreateProfileOp? && last.op.player == p);
    }
  }

  /** The entitlements the grants to a player ask for, in order. */
  function EntitlementsAsked(known: bool, steps: seq<Step>, p: string): seq<Entitlement> {
    if steps == [] then []
    else
      var init, op := steps[..|steps| - 1], steps[|steps| - 1].op;
      EntitlementsAsked(known, init, p)
      + (if op.AwardEntitlementOp? && op.player == p && Known(known, init, p)
         then [EntitlementOf(op.entitlement, op.quantity, op.expiration)] else [])
  }

  predicate FirstIsPending(claims: seq<AchievementClaim>, claimId: string) {
    exists i: nat | i < |claims| :: IsFirst(claims, i, claimId) && claims[i].status.Pending?
  }

  /** What one step asks to award to a player: a direct award, or the promotion of a Pending
      claim whose mark could be saved. */
  function AchievementsAskedBy(env: Env, w: World, step: Step, p: string): seq<Achievement> {
    match step.op
    case AwardAchievementOp(q, def) => if q == p then [AchievementOf(def, step.io.earnedAt)] else []
    case ReviewClaimOp(q, claimId, _, action, _, definition) =>
      if && q == p && action.Promote? && definition.Some?
         && FirstIsPending(ClaimsOf(w.desk.held, p), claimId) && env.isUuid(p) && step.io.firstSave
      then [AchievementOf(definition.value, step.io.earnedAt)] else []
    case _ => []
  }

  function AchievementsAsked(env: Env, w: World, steps: seq<Step>, p: string): seq<Achievement> {
    if steps == [] then []
    else
      var init, step := steps[..|steps| - 1], steps[|steps| - 1];
      AchievementsAsked(env, w, init, p)
      + (if Known(p in w.book.index.profiles, init, p)
         then AchievementsAskedBy(env, Run(env, w, init), step, p) else [])
  }

  function RewardsIn(w: World, p: string): RewardState {
    RewardsOf(w.book.index.rewards, p)
  }

  lemma ReviewRewards(env: Env, w: World, step: Step, p: string)
    requires step.op.ReviewClaimOp?
    ensures var after := Next(env, w, step);
      && RewardsIn(after, p).entitlements == RewardsIn(w, p).entitlements
      && RewardsIn(after, p).achievements
         == RewardsIn(w, p).achievements
            + (if p in w.book.index.profiles then AchievementsAskedBy(env, w, step, p) else [])
  {
    hide ReviewClaim, Records, RewardsOf, SameReceipt, IsReview, Saves, ListBecomes, AwardAnswer;
    var op, io, b, d := step.op, step.io, w.book, w.desk;
    var claims := ClaimsOf(d.held, op.player);
    if op.player !in b.index.profiles || !Holds(claims, op.claimId) {
      ReviewFindsNothing(env, b, d, op.player, op.claimId, op.reviewer, op.action, op.note, op.definition, io);
      assert !FirstIsPending(claims, op.claimId) || op.player !in b.index.profiles;
    } else {
      var i := FirstOf(claims, op.claimId);
      assert FirstIsPending(claims, op.claimId) <==> claims[i].status.Pending?;
      if op.action.Reject? {
        ClaimIsRejected(env, b, d, op.player, op.claimId, op.reviewer, op.note, op.definition, io, i);
      } else if !claims[i].status.Pending? || op.definition.None? {
        PromotionIsRefused(env, b, d, op.player, op.claimId, op.reviewer, op.note, op.definition, io, i);
      } else if !env.isUuid(op.player) || !io.firstSave {
        UnsavedPromotion(env, b, d, op.player, op.claimId, op.reviewer, op.note, op.definition.value, io, i);
      } else {
        PromotionIsAwarded(env, b, d, op.player, op.claimId, op.reviewer, op.note, op.definition.value, io, i);
      }
    }
  }

  lemma FirstOf(claims: seq<AchievementClaim>, claimId: string) returns (i: nat)
    requires Holds(claims, claimId)
    ensures IsFirst(claims, i, claimId)
    ensures forall j: nat :: IsFirst(claims, j, claimId) <==> i == j
  {
    FoundIsFirst(claims, claimId);
    i := FindClaim(claims, claimId).value;
  }

  lemma RewardsAfterStep(env: Env, w: World, step: Step, p: string)
    requires !step.op.RestartOp?
    ensures var after, known := Next(env, w, step), p in w.book.index.profiles;
      && RewardsIn(after, p).entitlements
         == RewardsIn(w, p).entitlements
            + (if step.op.AwardEntitlementOp? && step.op.player == p && known
               then [EntitlementOf(step.op.entitlement, step.op.quantity, step.op.expiration)] else [])
      && RewardsIn(after, p).achievements
         == RewardsIn(w, p).achievements + (if known then AchievementsAskedBy(env, w, step, p) else [])
  {
    hide CreateProfile, SetVector, MergeVector, AwardAchievement, AwardEntitlement, ReviewClaim, SubmitClaim, Records,
         OtherProfilesKept, StoredBits, Merged, Bits, WellFormed, RewardsOf, FirstIsPending, AwardAnswer;
    var b, io := w.book, step.io;
    match step.op {
      case CreateProfileOp(q, name) =>
        CreatedProfile(env, b, q, name, io);
      case SetVectorOp(q, vec) =>
        VectorIsSet(env, b, q, vec, io);
      case MergeVectorOp(q, vec) =>
        if Mergeable(b, q, vec) {
          VectorIsMerged(env, b, q, vec, io);
        }
      case AwardAchievementOp(q, def) =>
        AchievementIsAwarded(env, b, q, def, io);
      case AwardEntitlementOp(q, def, quantity, expiration) =>
        EntitlementIsGranted(env, b, q, def, quantity, expiration, io);
      case SubmitClaimOp(_, _) =>
      case ReviewClaimOp(_, _, _, _, _, _) =>
        ReviewRewards(env, w, step, p);
    }
  }

  /** After any operations of one process a player's rewards are those from before and then, in
      order and with all their fields, the ones asked for: none is lost when an append fails,
      and none comes from nowhere. */
  lemma {:induction false} RewardsFollowRequests(env: Env, w: World, steps: seq<Step>, p: string)
    requires NoRestarts(steps)
    ensures var after := RewardsIn(Run(env, w, steps), p);
      && after.entitlements
         == RewardsIn(w, p).entitlements + EntitlementsAsked(p in w.book.index.profiles, steps, p)
      && after.achievements == RewardsIn(w, p).achievements + AchievementsAsked(env, w, steps, p)
  {
    hide Next, RewardsIn, AchievementsAskedBy, Known;
    if steps != [] {
      var n := |steps| - 1;
      RewardsFollowRequests(env, w, steps[..n], p);
      KnownIs(env, w, steps[..n], p);
      RewardsAfterStep(env, Run(env, w, steps[..n]), steps[n], p);
    }
  }

  // ------------------------------------------------------------ through a restart

  /** What was asked for survives: when all operations of a process are about one player and no
      append lost its block, a restart brings back exactly the profile and the rewards that
      were asked for. */
  lemma RequestsSurviveRestart(env: Env, started: Launch, steps: seq<Step>, p: string, restart: Step)
    requires Binding(env.hash)
    requires AdmissibleRun(env, Initial(env, started), steps) && NoRestarts(steps) && LosslessFor(env, p, steps)
    requires restart.op.RestartOp? && restart.op.faults == NO_FAULTS
    requires Admissible(Run(env, Initial(env, started), steps), restart)
    ensures var after := Next(env, Run(env, Initial(env, started), steps), restart);
      && SketchOf(after, p) == Requested(None, steps, p)
      && RewardsIn(after, p).entitlements == EntitlementsAsked(false, steps, p)
      && RewardsIn(after, p).achievements == AchievementsAsked(env, Initial(env, started), steps, p)
  {
    hide Binding, ReplayBook, Lists, Run, AdmissibleRun, LosslessFor, Requested, AchievementsAsked, EntitlementsAsked,
         NoRestarts, ReplayClaims;
    var w0 := Initial(env, started);
    NoRestartsReadLedger(env, w0, steps);
    SinglePlayerFullyRecovered(env, started, steps, p, restart.op.ids, restart.op.now);
    ProfilesFollowRequests(env, w0, steps, p);
    RewardsFollowRequests(env, w0, steps, p);
  }

  // ------------------------------------------------------- what the ledger says

  function TransactionsOf(blocks: seq<Block>): seq<Transaction> {
    if blocks == [] then []
    else TransactionsOf(blocks[..|blocks| - 1]) + blocks[|blocks| - 1].transactions
  }

  /** The entitlements in a player's transactions. */
  function EntitlementsTo(p: string, txns: seq<Transaction>): seq<Entitlement> {
    if txns == [] then []
    else
      var init, t := txns[..|txns| - 1], txns[|txns| - 1];
      EntitlementsTo(p, init)
      + (if t.playerId == p && t.details.EntitlementGranted? then [t.details.entitlement] else [])
  }

  /** The achievements in a player's transactions. */
  function AchievementsTo(p: string, txns: seq<Transaction>): seq<Achievement> {
    if txns == [] then []
    else
      var init, t := txns[..|txns| - 1], txns[|txns| - 1];
      AchievementsTo(p, init)
      + (if t.playerId == p && t.details.AchievementAwarded? then [t.details.achievement] else [])
  }

  /** The last profile recorded under an id. */
  function LastProfile(p: string, txns: seq<Transaction>): Option<PlayerProfile> {
    if txns == [] then None
    else
      var init, t := txns[..|txns| - 1], txns[|txns| - 1];
      if t.details.ProfileChanged? && t.details.change.profile.playerId == p then Some(t.details.change.profile)
      else LastProfile(p, init)
  }

  /** An index says what a list of transactions says about a player, on top of another index. */
  predicate Tells(before: Index, txns: seq<Transaction>, after: Index, p: string) {
    && RewardsOf(after.rewards, p).entitlements == RewardsOf(before.rewards, p).entitlements + EntitlementsTo(p, txns)
    && RewardsOf(after.rewards, p).achievements == RewardsOf(before.rewards, p).achievements + AchievementsTo(p, txns)
    && (if LastProfile(p, txns).Some?
        then p in after.profiles && after.profiles[p] == LastProfile(p, txns).value
        else && (p in after.profiles <==> p in before.profiles)
             && (p in after.profiles ==> after.profiles[p] == before.profiles[p]))
  }

  lemma {:induction false} TransactionsTell(ix: Index, txns: seq<Transaction>, p: string)
    ensures Tells(ix, txns, ApplyTransactions(ix, txns), p)
  {
    if txns != [] {
      var n := |txns| - 1;
      TransactionsTell(ix, txns[..n], p);
      OneTells(ix, txns[..n], ApplyTransactions(ix, txns[..n]), txns[n], p);
      assert txns == txns[..n] + [txns[n]];
    }
  }

  lemma OneTells(ix: Index, txns: seq<Transaction>, mid: Index, t: Transaction, p: string)
    requires Tells(ix, txns, mid, p)
    ensures Tells(ix, txns + [t], ApplyTransaction(mid, t), p)
  {
    assert (txns + [t])[..|txns|] == txns;
  }

  lemma {:induction false} ListsAppend(p: string, a: seq<Transaction>, b: seq<Transaction>)
    ensures EntitlementsTo(p, a + b) == EntitlementsTo(p, a) + EntitlementsTo(p, b)
    ensures AchievementsTo(p, a + b) == AchievementsTo(p, a) + AchievementsTo(p, b)
  {
    if b == [] {
      assert a + b == a;
    } else {
      var n := |b| - 1;
      var all := a + b;
      assert all[..|all| - 1] == a + b[..n] && all[|all| - 1] == b[n];
      ListsAppend(p, a, b[..n]);
    }
  }

  lemma {:induction false} LastProfileAppend(p: string, a: seq<Transaction>, b: seq<Transaction>)
    ensures LastProfile(p, a + b) == if LastProfile(p, b).Some? then LastProfile(p, b) else LastProfile(p, a)
  {
    if b == [] {
      assert a + b == a;
    } else {
      var n := |b| - 1;
      var all := a + b;
      assert all[..|all| - 1] == a + b[..n] && all[|all| - 1] == b[n];
      LastProfileAppend(p, a, b[..n]);
    }
  }

  lemma {:induction false} BlocksTell(ix: Index, blocks: seq<Block>, p: string)
    ensures Tells(ix, TransactionsOf(blocks), ApplyBlocks(ix, blocks), p)
  {
    hide ApplyTransactions, EntitlementsTo, AchievementsTo, LastProfile, RewardsOf;
    if blocks == [] {
      NothingTells(ix, p);
    } else {
      var n := |blocks| - 1;
      var before, txns := TransactionsOf(blocks[..n]), blocks[n].transactions;
      BlocksTell(ix, blocks[..n], p);
      TransactionsTell(ApplyBlocks(ix, blocks[..n]), txns, p);
      ListsAppend(p, before, txns);
      LastProfileAppend(p, before, txns);
    }
  }

  lemma NothingTells(ix: Index, p: string)
    ensures Tells(ix, [], ix, p)
  {
  }

  /** In every state that can be reached, after failed appends and whatever restarts failed to
      read: a player's entitlements and achievements are, in order, the details of that
      player's transactions in the ledger, and the profile is the last one recorded there. */
  lemma LedgerTellsMemory(env: Env, w: World, p: string)
    requires Binding(env.hash) && Reached(env, w)
    ensures var txns := TransactionsOf(w.book.chain);
      && RewardsIn(w, p).entitlements == EntitlementsTo(p, txns)
      && RewardsIn(w, p).achievements == AchievementsTo(p, txns)
      && (p in w.book.index.profiles <==> LastProfile(p, txns).Some?)
      && (p in w.book.index.profiles ==> LastProfile(p, txns) == Some(w.book.index.profiles[p]))
  {
    hide Binding, Reached, ApplyBlocks, EntitlementsTo, AchievementsTo, LastProfile;
    MemoryIndexesLedger(env, w);
    BlocksTell(EMPTY_INDEX, w.book.chain[1..], p);
    GenesisIsEmpty(env, w);
    FirstAddsNothing(w.book.chain);
  }

  lemma {:induction false} FirstAddsNothing(chain: seq<Block>)
    requires chain != [] && chain[0].transactions == []
    ensures TransactionsOf(chain) == TransactionsOf(chain[1..])
  {
    var n := |chain| - 1;
    if n > 0 {
      assert chain[..n][1..] == chain[1..][..n - 1];
      FirstAddsNothing(chain[..n]);
    } else {
      assert chain[..n] == [];
    }
  }

  lemma GenesisIsEmpty(env: Env, w: World)
    requires Reached(env, w)
    ensures w.book.chain[0].transactions == []
  {
    hide Run, AdmissibleRun;
    var now, steps :| ReachedBy(env, now, steps, w);
    RunKeepsGenesis(env, Initial(env, now), steps);
  }

  lemma {:induction false} RunKeepsGenesis(env: Env, w: World, steps: seq<Step>)
    requires w.book.chain[0].transactions == []
    ensures Run(env, w, steps).book.chain[0].transactions == []
  {
    hide Next;
    if steps != [] {
      var n := |steps| - 1;
      RunKeepsGenesis(env, w, steps[..n]);
      NextKeepsGenesis(env, Run(env, w, steps[..n]), steps[n]);
    }
  }

  lemma NextKeepsGenesis(env: Env, w: World, step: Step)
    requires w.book.chain[0].transactions == []
    ensures Next(env, w, step).book.chain[0].transactions == []
  {
    hide Mined, ReviewClaim, SubmitClaim, AppendLog, ApplyBlocks, SortByTime, DedupByHash, ReplayedBlocks;
    var op := step.op;
    if op.ReviewClaimOp? {
      ReviewBook(env, w.book, w.desk, op.player, op.claimId, op.reviewer, op.action, op.note, op.definition, step.io);
    }
  }
}
