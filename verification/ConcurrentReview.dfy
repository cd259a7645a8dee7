/** The review handler in three atomic pieces: a snapshot of the claim under the read lock,
    a registry lookup under no lock, and the review under the write lock, interleaved with
    every other handler and with restarts. */
module ConcurrentReview {
  import opened Common
  import opened Blockchain
  import opened Registry
  import opened Journal
  import opened Claims
  import opened Runs
  import opened LedgerInvariant
  import opened Recovery
  import opened Filing
  import opened ClaimLifecycle
  import opened AwardOnce

  datatype Phase =
    | Snapshotted
    | LookedUp(definition: Option<AchievementDefinition>)

  /** A review in flight: the developer of its token, what it is about, and the claim it saw. */
  datatype Task = Task(developer: string, player: string, claimId: string, action: ReviewAction,
                       snapshot: AchievementClaim, phase: Phase)

  type RegistryMap = map<string, AchievementDefinition>

  /** The service, the achievement registry on disk, the copies of it that registrations in
      flight have loaded, and the reviews in flight. */
  datatype Server = Server(world: World, registry: RegistryMap, loaded: map<nat, RegistryMap>, tasks: map<nat, Task>)

  /** The registry file is read and written without a lock, and a read that fails gives an
      empty registry. */
  datatype Event =
    | Operate(step: Step)
    | LoadRegistry(handler: nat, readable: bool)
    | SaveRegistry(handler: nat, definition: AchievementDefinition)
    | Snapshot(task: nat, developer: string, player: string, claimId: string, action: ReviewAction)
    | Lookup(task: nat, readable: bool)
    | Commit(task: nat, note: Option<string>, io: Inputs)

  function CommitStep(t: Task, note: Option<string>, io: Inputs): Step {
    Step(ReviewClaimOp(t.player, t.claimId, t.developer, t.action, note,
                       if t.phase.LookedUp? then t.phase.definition else None), io)
  }

  /** One atomic piece.  A missing claim, a foreign developer or a missing definition ends the
      handler with an error response and no effect. */
  function NextEvent(env: Env, s: Server, e: Event): Server {
    match e
    case Operate(step) =>
      if step.op.RestartOp? then Server(Next(env, s.world, step), s.registry, map[], map[])
      else s.(world := Next(env, s.world, step))
    case LoadRegistry(handler, readable) =>
      s.(loaded := s.loaded[handler := if readable then s.registry else map[]])
    case SaveRegistry(handler, definition) =>
      if handler !in s.loaded then s
      else s.(registry := s.loaded[handler][Key(definition.Id()) := definition], loaded := s.loaded - {handler})
    case Snapshot(task, developer, player, claimId, action) =>
      var claims := ClaimsOf(s.world.desk.held, player);
      var found := FindClaim(claims, claimId);
      if found.None? || claims[found.value].developer != developer then s
      else s.(tasks := s.tasks[task := Task(developer, player, claimId, action, claims[found.value], Snapshotted)])
    case Lookup(task, readable) =>
      if task !in s.tasks || !s.tasks[task].phase.Snapshotted? then s
      else
        var t := s.tasks[task];
        var key := Key(t.snapshot.Definition());
        if t.action.Reject? then s.(tasks := s.tasks[task := t.(phase := LookedUp(None))])
        else if readable && key in s.registry then
          s.(tasks := s.tasks[task := t.(phase := LookedUp(Some(s.registry[key])))])
        else s.(tasks := s.tasks - {task})
    case Commit(task, note, io) =>
      if task !in s.tasks || !s.tasks[task].phase.LookedUp? then s
      else s.(world := Next(env, s.world, CommitStep(s.tasks[task], note, io)), tasks := s.tasks - {task})
  }

  /** Reviews happen through the handler only. */
  predicate HandledEvent(e: Event) {
    e.Operate? ==> !e.step.op.ReviewClaimOp?
  }

  predicate HandledEvents(events: seq<Event>) {
    forall i | 0 <= i < |events| :: HandledEvent(events[i])
  }

  /** And transaction ids are fresh, the clock does not go back, restarts list every log. */
  predicate AdmissibleEvent(s: Server, e: Event) {
    && HandledEvent(e)
    && match e
       case Operate(step) => Admissible(s.world, step)
       case Commit(task, note, io) => task in s.tasks ==> Admissible(s.world, CommitStep(s.tasks[task], note, io))
       case _ => true
  }

  /** No restart failed to list the players or to read this player's claims. */
  predicate ReadsFor(events: seq<Event>, player: string) {
    forall i | 0 <= i < |events| :: ReadsClaimsFor(events[i], player)
  }

  predicate ReadsClaimsFor(e: Event, player: string) {
    e.Operate? ==> ReadsClaimsOf(e.step, player)
  }

  function Serve(env: Env, s: Server, events: seq<Event>): Server {
    if events == [] then s else NextEvent(env, Serve(env, s, events[..|events| - 1]), events[|events| - 1])
  }

  predicate AdmissibleEvents(env: Env, s: Server, events: seq<Event>) {
    events == []
    || (AdmissibleEvents(env, s, events[..|events| - 1])
        && AdmissibleEvent(Serve(env, s, events[..|events| - 1]), events[|events| - 1]))
  }

  lemma {:induction false} AdmissibleIsHandled(env: Env, s: Server, events: seq<Event>)
    requires AdmissibleEvents(env, s, events)
    ensures HandledEvents(events)
  {
    hide NextEvent, Serve, HandledEvent, Admissible;
    if events != [] {
      var n := |events| - 1;
      AdmissibleIsHandled(env, s, events[..n]);
      assert HandledEvent(events[n]);
      assert forall i | 0 <= i < n :: events[..n][i] == events[i];
    }
  }

  function FirstServer(env: Env, now: Launch): Server {
    Server(Initial(env, now), map[], map[], map[])
  }

  // ---------------------------------------------------------------- invariant

  /** Whoever reviewed a claim is its developer. */
  predicate OwnReview(c: AchievementClaim) {
    c.reviewer.None? || c.reviewer == Some(c.developer)
  }

  predicate OwnReviews(claims: seq<AchievementClaim>) {
    forall i | 0 <= i < |claims| :: OwnReview(claims[i])
  }

  ghost predicate DeskOwn(d: Desk) {
    forall p: string :: OwnReviews(ClaimsOf(d.held, p)) && OwnReviews(ClaimsOf(d.saved, p))
  }

  predicate StillThere(claims: seq<AchievementClaim>, i: int, snapshot: AchievementClaim) {
    0 <= i < |claims| && SameSubmission(snapshot, claims[i])
  }

  /** The snapshot of a review in flight: the claim is still there with the submitted fields
      it had, its developer is the one reviewing, and the definition found is stored under its key. */
  ghost predicate TaskValid(s: Server, t: Task) {
    && (exists i :: StillThere(ClaimsOf(s.world.desk.held, t.player), i, t.snapshot))
    && t.snapshot.claimId == t.claimId
    && t.snapshot.developer == t.developer
    && (t.phase.LookedUp? && t.action.Promote? ==>
          t.phase.definition.Some? && Key(t.phase.definition.value.Id()) == Key(t.snapshot.Definition()))
  }

  /** What an award block awards. */
  function AwardedId(x: Block): Option<DefinitionId> {
    if x.transactions != [] && x.transactions[0].details.AchievementAwarded? then
      var a := x.transactions[0].details.achievement;
      Some(DefinitionId(a.developer, a.game, a.achievementId, a.version))
    else None
  }

  /** The awards promotions caused for a player carry the keys of the definitions its claims
      are for. */
  ghost predicate AwardsMatch(w: World, player: string) {
    forall x: Block, d: DefinitionId |
        Caused(w, x) && Owner(x) == player && PromotedAs(w.desk.held, CauseOf(w, x), d) ::
      AwardedId(x).Some? && Key(AwardedId(x).value) == Key(d)
  }

  predicate KeyedRegistry(registry: RegistryMap) {
    forall k | k in registry :: Key(registry[k].Id()) == k
  }

  ghost predicate ServerInv(s: Server) {
    && DeskInv(s.world.desk)
    && DeskOwn(s.world.desk)
    && KeyedRegistry(s.registry)
    && (forall h | h in s.loaded :: KeyedRegistry(s.loaded[h]))
    && (forall t | t in s.tasks :: TaskValid(s, s.tasks[t]))
  }

  // ------------------------------------------------------- who reviewed a claim

  lemma PersistKeepsOwn(env: Env, d: Desk, player: string, works: bool)
    requires DeskOwn(d)
    ensures DeskOwn(PersistClaims(env, d, player, works).0)
  {
    PersistSaves(env, d, player, works);
    var after := PersistClaims(env, d, player, works).0;
    forall p: string
      ensures OwnReviews(ClaimsOf(after.held, p)) && OwnReviews(ClaimsOf(after.saved, p))
    {
      assert OwnReviews(ClaimsOf(d.held, p)) && OwnReviews(ClaimsOf(d.saved, p));
    }
  }

  lemma ReplaceKeepsOwn(d: Desk, player: string, i: nat, c: AchievementClaim)
    requires i < |ClaimsOf(d.held, player)| && DeskOwn(d) && OwnReview(c)
    ensures DeskOwn(ReplaceClaim(d, player, i, c))
  {
    var after := ReplaceClaim(d, player, i, c);
    forall p: string
      ensures OwnReviews(ClaimsOf(after.held, p)) && OwnReviews(ClaimsOf(after.saved, p))
    {
      assert OwnReviews(ClaimsOf(d.held, p)) && OwnReviews(ClaimsOf(d.saved, p));
    }
  }

  lemma SubmitKeepsOwn(env: Env, b: Book, d: Desk, player: string, input: ClaimInput, io: Inputs)
    requires DeskOwn(d)
    ensures DeskOwn(SubmitClaim(env, b, d, player, input, io).0)
  {
    var claims := ClaimsOf(d.held, player);
    if player in b.index.profiles && FindClaim(claims, input.claimId).None? {
      var held := d.(held := d.held[player := claims + [SubmittedClaim(input, io.claimAt)]]);
      forall p: string
        ensures OwnReviews(ClaimsOf(held.held, p)) && OwnReviews(ClaimsOf(held.saved, p))
      {
        assert OwnReviews(ClaimsOf(d.held, p)) && OwnReviews(ClaimsOf(d.saved, p));
      }
      PersistKeepsOwn(env, held, player, io.firstSave);
    }
  }

  /** A review by the claim's own developer keeps every reviewer the developer. */
  lemma ReviewKeepsOwn(env: Env, b: Book, d: Desk, player: string, claimId: string, reviewer: string,
                       action: ReviewAction, note: Option<string>, definition: Option<AchievementDefinition>,
                       io: Inputs)
    requires DeskOwn(d)
    requires var found := FindClaim(ClaimsOf(d.held, player), claimId);
      found.Some? ==> ClaimsOf(d.held, player)[found.value].developer == reviewer
    ensures DeskOwn(ReviewClaim(env, b, d, player, claimId, reviewer, action, note, definition, io).1)
  {
    hide DeskOwn, AwardAchievement, PersistClaims, ReplaceClaim;
    var claims := ClaimsOf(d.held, player);
    var found := FindClaim(claims, claimId);
    if found.Some? {
      var i, claim := found.value, claims[found.value];
      var status := if action.Promote? then Promoted else Rejected;
      var marked := Reviewed(claim, status, reviewer, note, io.claimAt);
      ReplaceKeepsOwn(d, player, i, marked);
      PersistKeepsOwn(env, ReplaceClaim(d, player, i, marked), player, io.firstSave);
      if action.Promote? && definition.Some? {
        var d1 := PersistClaims(env, ReplaceClaim(d, player, i, marked), player, io.firstSave).0;
        assert ClaimsOf(d1.held, player) == claims[i := marked] by {
          ReplaceAndPersist(env, d, player, i, marked, io.firstSave);
        }
        var award := AwardAchievement(env, b, player, definition.value, io).1;
        if award.Ok? {
          var updated := marked.(awardedTransactionId := Some(award.value.transactionId),
                                 awardedBlockHash := Some(award.value.blockHash));
          ReplaceKeepsOwn(d1, player, i, updated);
          PersistKeepsOwn(env, ReplaceClaim(d1, player, i, updated), player, io.secondSave);
        }
      }
    }
  }

  // ---------------------------------------------------------------- tasks

  lemma TaskStaysValid(s: Server, after: Server, t: Task)
    requires TaskValid(s, t)
    requires ListAdvances(ClaimsOf(s.world.desk.held, t.player), ClaimsOf(after.world.desk.held, t.player))
    ensures TaskValid(after, t)
  {
    var i :| StillThere(ClaimsOf(s.world.desk.held, t.player), i, t.snapshot);
    assert Advances(ClaimsOf(s.world.desk.held, t.player)[i], ClaimsOf(after.world.desk.held, t.player)[i]);
    assert StillThere(ClaimsOf(after.world.desk.held, t.player), i, t.snapshot);
  }

  /** At commit the review finds the very claim of its snapshot. */
  lemma CommitFindsSnapshot(s: Server, t: Task)
    requires DeskInv(s.world.desk) && TaskValid(s, t)
    ensures var found := FindClaim(ClaimsOf(s.world.desk.held, t.player), t.claimId);
      found.Some? && SameSubmission(t.snapshot, ClaimsOf(s.world.desk.held, t.player)[found.value])
  {
    var claims := ClaimsOf(s.world.desk.held, t.player);
    var i :| StillThere(claims, i, t.snapshot);
    assert DistinctClaims(claims);
  }

  // ----------------------------------------------------------------- awards

  lemma OldAwardMatches(w: World, after: World, x: Block, d: DefinitionId, player: string)
    requires AwardsMatch(w, Owner(x)) && DeskInv(after.desk)
    requires Caused(w, x) && Backed(w, x) && Caused(after, x) && CauseOf(after, x) == CauseOf(w, x)
    requires DeskStep(w.desk, after.desk, player)
    requires PromotedAs(after.desk.held, CauseOf(w, x), d)
    ensures AwardedId(x).Some? && Key(AwardedId(x).value) == Key(d)
  {
    hide OnRecord, PromotedAs, DistinctClaims;
    var d0 :| BackedAs(w, x, d0);
    var ref := CauseOf(w, x);
    assert ListAdvances(ClaimsOf(w.desk.held, ref.player), ClaimsOf(after.desk.held, ref.player));
    AdvanceKeepsPromoted(w.desk, after.desk, ref, d0);
    assert DistinctClaims(ClaimsOf(after.desk.held, ref.player));
    PromotedAsOne(after.desk.held, ref, d0, d);
  }

  /** After a restart the claims in memory are the saved ones, which name the same definitions. */
  lemma RestartAwardsMatch(env: Env, w: World, step: Step, p: string)
    requires Guarded(w) && AwardInv(w, p) && AwardsMatch(w, p)
    requires step.op.RestartOp? && Admissible(w, step) && ReadsClaimsOf(step, p)
    ensures AwardsMatch(Next(env, w, step), p)
  {
    hide PromotedAs, Next, Admissible, LogsFiled, DistinctClaims, Key, AwardedId, OnRecord;
    var after := Next(env, w, step);
    forall x: Block, d: DefinitionId |
        Caused(after, x) && Owner(x) == p && PromotedAs(after.desk.held, CauseOf(after, x), d)
      ensures AwardedId(x).Some? && Key(AwardedId(x).value) == Key(d)
    {
      CausedWasDurable(env, w, step, x);
      assert Backed(w, x);
      var d0 :| BackedAs(w, x, d0);
      var ref := CauseOf(w, x);
      RestartHoldsSaved(env, w, step, p);
      SameListSamePromotions(w.desk.saved, after.desk.held, ref, d);
      assert DistinctClaims(ClaimsOf(w.desk.saved, ref.player));
      // d0 is promoted in memory too, so the awarded key is the key of d0
      PromotedAsOne(w.desk.saved, ref, d0, d);
    }
  }

  /** An operation that is no review causes no award. */
  lemma OperationAwardsMatch(env: Env, w: World, step: Step, p: string)
    requires Guarded(w) && AwardInv(w, p) && AwardsMatch(w, p) && Admissible(w, step)
    requires DeskInv(Next(env, w, step).desk)
    requires !step.op.RestartOp? && !step.op.ReviewClaimOp?
    ensures AwardsMatch(Next(env, w, step), p)
  {
    hide PromotedAs, Admissible, LogsFiled, DeskInv, Key, AwardedId, OnRecord, NextBook, SubmitClaim, DeskStep;
    var after := Next(env, w, step);
    DeskOfStep(env, w, step);
    forall x: Block, d: DefinitionId |
        Caused(after, x) && Owner(x) == p && PromotedAs(after.desk.held, CauseOf(after, x), d)
      ensures AwardedId(x).Some? && Key(AwardedId(x).value) == Key(d)
    {
      CausedByStep(env, w, step, x);
      assert Backed(w, x);
      OldAwardMatches(w, after, x, d, PlayerOf(step.op));
    }
  }

  /** The award a commit causes is for the definition of the claim the snapshot saw. */
  lemma CommitAwardsMatch(env: Env, s: Server, t: Task, note: Option<string>, io: Inputs, p: string)
    requires ServerInv(s) && TaskValid(s, t) && t.phase.LookedUp?
    requires Guarded(s.world) && AwardInv(s.world, p) && AwardsMatch(s.world, p)
    requires Admissible(s.world, CommitStep(t, note, io))
    requires DeskInv(Next(env, s.world, CommitStep(t, note, io)).desk)
    ensures AwardsMatch(Next(env, s.world, CommitStep(t, note, io)), p)
  {
    hide OnRecord, PromotedAs, DeskInv, LogsFiled, Mined, ReviewClaim, StillThere, Key, DeskStep, AwardedId, Admissible;
    var w, step := s.world, CommitStep(t, note, io);
    var after, player := Next(env, w, step), t.player;
    DeskOfStep(env, w, step);
    if after.book != w.book {
      OnlyPromotionsAward(env, w, t, note, io);
      CommitPromotes(env, s, t, note, io);
    }
    forall x: Block, d: DefinitionId |
        Caused(after, x) && Owner(x) == p && PromotedAs(after.desk.held, CauseOf(after, x), d)
      ensures AwardedId(x).Some? && Key(AwardedId(x).value) == Key(d)
    {
      CausedByStep(env, w, step, x);
      if Caused(w, x) {
        assert Backed(w, x);
        assert IdOf(x) != io.transactionId by { AdmissibleIsFresh(w, step, x); }
        OldAwardMatches(w, after, x, d, player);
      } else {
        assert CauseOf(after, x) == ClaimRef(player, t.claimId);
        assert DistinctClaims(ClaimsOf(after.desk.held, player)) by { HeldIsDistinct(after.desk, player); }
        PromotedAsOne(after.desk.held, ClaimRef(player, t.claimId), t.snapshot.Definition(), d);
      }
    }
  }

  lemma AdmissibleIsFresh(w: World, step: Step, x: Block)
    requires CausesFiled(w) && Admissible(w, step) && !step.op.RestartOp? && Caused(w, x)
    ensures IdOf(x) != step.io.transactionId
  {
  }

  /** A commit that awards promotes the claim of its snapshot, for that claim's definition. */
  lemma CommitPromotes(env: Env, s: Server, t: Task, note: Option<string>, io: Inputs)
    requires ServerInv(s) && TaskValid(s, t)
    requires Next(env, s.world, CommitStep(t, note, io)).book != s.world.book
    ensures var after := Next(env, s.world, CommitStep(t, note, io)).desk;
      PromotedAs(after.held, ClaimRef(t.player, t.claimId), t.snapshot.Definition())
  {
    hide ReviewClaim, PromotedAs, IsPromoted, StillThere, Key;
    var w, step := s.world, CommitStep(t, note, io);
    AwardMeansPromoted(env, w.book, w.desk, t.player, t.claimId, t.developer, t.action, note, step.op.definition, io);
    CommitFindsSnapshot(s, t);
  }

  /** A step adds no award for a claim but the one of a review, for the definition it was given. */
  lemma CausedByStep(env: Env, w: World, step: Step, x: Block)
    requires Guarded(w) && Admissible(w, step)
    requires Caused(Next(env, w, step), x)
    ensures || (Caused(w, x) && (!step.op.ReviewClaimOp? ==> CauseOf(Next(env, w, step), x) == CauseOf(w, x)))
            || (&& step.op.ReviewClaimOp? && step.op.definition.Some?
                && Next(env, w, step).book != w.book
                && CauseOf(Next(env, w, step), x) == ClaimRef(step.op.player, step.op.claimId)
                && AwardedId(x) == Some(step.op.definition.value.Id()))
  {
    hide LogsFiled, DeskInv, OnRecord, Mined, NextBook, ReviewClaim, SubmitClaim, ReplayBook, ReplayDesk, Lists;
    var after := Next(env, w, step);
    if step.op.RestartOp? {
      CausedWasDurable(env, w, step, x);
    } else {
      var t := NextRecordsAtMostOnce(env, w, step);
      RecordGainsOne(env, w.book, after.book, t, step.io);
      if IdOf(x) == step.io.transactionId {
        RecordedIdsAreUsed(w);
        OnlyTheNewBlock(env, w.book, after.book, t, step.io, w.used, x);
        assert x.transactions == [t];
      }
    }
  }

  lemma HeldIsDistinct(d: Desk, player: string)
    requires DeskInv(d)
    ensures DistinctClaims(ClaimsOf(d.held, player))
  {
  }

  lemma OnlyPromotionsAward(env: Env, w: World, t: Task, note: Option<string>, io: Inputs)
    requires Next(env, w, CommitStep(t, note, io)).book != w.book
    ensures t.action.Promote?
  {
    hide AwardAchievement, PersistClaims;
  }

  // ------------------------------------------------------------------ every event

  /** An operation that is not a review, or a restart. */
  lemma OperateKeepsInv(env: Env, s: Server, step: Step)
    requires ServerInv(s) && HandledEvent(Operate(step))
    ensures ServerInv(NextEvent(env, s, Operate(step)))
  {
    hide DeskInv, Next, TaskValid, DeskOwn, KeyedRegistry;
    var w, s' := s.world, NextEvent(env, s, Operate(step));
    NextDesk(env, w, step);
    if step.op.RestartOp? {
      RestartKeepsOwn(env, w, step);
    } else {
      OperationKeepsOwn(env, w, step);
      forall t | t in s.tasks
        ensures TaskValid(s', s.tasks[t])
      {
        assert ListAdvances(ClaimsOf(w.desk.held, s.tasks[t].player), ClaimsOf(s'.world.desk.held, s.tasks[t].player));
        TaskStaysValid(s, s', s.tasks[t]);
      }
    }
  }

  lemma RestartKeepsOwn(env: Env, w: World, step: Step)
    requires DeskOwn(w.desk) && step.op.RestartOp?
    ensures DeskOwn(Next(env, w, step).desk)
  {
    hide ReplayBook, ReplayClaims;
    var after := Next(env, w, step).desk;
    forall p: string
      ensures OwnReviews(ClaimsOf(after.held, p)) && OwnReviews(ClaimsOf(after.saved, p))
    {
      ReplayedClaimsAreSaved(w.desk.saved, step.op.ids, step.op.faults, p);
      assert OwnReviews(ClaimsOf(w.desk.saved, p));
    }
  }

  lemma OperationKeepsOwn(env: Env, w: World, step: Step)
    requires DeskOwn(w.desk) && !step.op.RestartOp? && !step.op.ReviewClaimOp?
    ensures DeskOwn(Next(env, w, step).desk)
  {
    hide DeskOwn, NextBook, SubmitClaim;
    if step.op.SubmitClaimOp? {
      SubmitKeepsOwn(env, w.book, w.desk, step.op.player, step.op.input, step.io);
    }
  }

  lemma SnapshotKeepsInv(env: Env, s: Server, e: Event)
    requires ServerInv(s) && e.Snapshot?
    ensures ServerInv(NextEvent(env, s, e))
  {
    hide DeskInv, DeskOwn, KeyedRegistry, Key;
    var s' := NextEvent(env, s, e);
    var claims := ClaimsOf(s.world.desk.held, e.player);
    var found := FindClaim(claims, e.claimId);
    if s' != s {
      assert StillThere(claims, found.value, claims[found.value]);
      assert TaskValid(s', s'.tasks[e.task]);
      forall t | t in s'.tasks
        ensures TaskValid(s', s'.tasks[t])
      {
        if t != e.task {
          assert TaskValid(s, s.tasks[t]);
        }
      }
    }
  }

  lemma LookedUpIsValid(s: Server, after: Server, t: Task, definition: Option<AchievementDefinition>)
    requires TaskValid(s, t) && after.world == s.world
    requires t.action.Promote? ==>
               definition.Some? && Key(definition.value.Id()) == Key(t.snapshot.Definition())
    ensures TaskValid(after, t.(phase := LookedUp(definition)))
  {
    hide StillThere, Key;
  }

  lemma SameWorldSameTask(s: Server, after: Server, t: Task)
    requires TaskValid(s, t) && after.world == s.world
    ensures TaskValid(after, t)
  {
    hide StillThere, Key;
  }

  lemma LookupKeepsInv(env: Env, s: Server, e: Event)
    requires ServerInv(s) && e.Lookup?
    ensures ServerInv(NextEvent(env, s, e))
  {
    hide DeskInv, DeskOwn, TaskValid, Key;
    var s' := NextEvent(env, s, e);
    forall k | k in s'.tasks
      ensures TaskValid(s', s'.tasks[k])
    {
      var t := s.tasks[k];
      if s'.tasks[k] == t {
        SameWorldSameTask(s, s', t);
      } else {
        LookedUpIsValid(s, s', t, s'.tasks[k].phase.definition);
      }
    }
  }

  lemma CommitKeepsInv(env: Env, s: Server, e: Event)
    requires ServerInv(s) && e.Commit?
    ensures ServerInv(NextEvent(env, s, e))
  {
    hide DeskInv, Next, TaskValid, DeskOwn, KeyedRegistry;
    var s' := NextEvent(env, s, e);
    if s' != s {
      var t := s.tasks[e.task];
      var step := CommitStep(t, e.note, e.io);
      NextDesk(env, s.world, step);
      CommitKeepsOwn(env, s, t, e.note, e.io);
      forall k | k in s'.tasks
        ensures TaskValid(s', s'.tasks[k])
      {
        var p := s.tasks[k].player;
        assert ListAdvances(ClaimsOf(s.world.desk.held, p), ClaimsOf(s'.world.desk.held, p));
        TaskStaysValid(s, s', s.tasks[k]);
      }
    }
  }

  lemma CommitKeepsOwn(env: Env, s: Server, t: Task, note: Option<string>, io: Inputs)
    requires DeskInv(s.world.desk) && TaskValid(s, t) && DeskOwn(s.world.desk)
    ensures DeskOwn(Next(env, s.world, CommitStep(t, note, io)).desk)
  {
    hide ReviewClaim, DeskOwn, DeskInv, Key;
    CommitFindsSnapshot(s, t);
    ReviewKeepsOwn(env, s.world.book, s.world.desk, t.player, t.claimId, t.developer, t.action, note,
                   if t.phase.LookedUp? then t.phase.definition else None, io);
  }

  lemma RegistryKeepsInv(env: Env, s: Server, e: Event)
    requires ServerInv(s) && (e.LoadRegistry? || e.SaveRegistry?)
    ensures ServerInv(NextEvent(env, s, e))
  {
    hide DeskInv, DeskOwn, Key, TaskValid;
    var s' := NextEvent(env, s, e);
    forall t | t in s'.tasks
      ensures TaskValid(s', s'.tasks[t])
    {
      SameWorldSameTask(s, s', s.tasks[t]);
    }
  }

  /** Whatever the registry file, the storage and the restarts do: the claims of one player have
      distinct ids and were reviewed by their developers, and reviews in flight stay valid. */
  lemma {:induction false} ServingKeepsInv(env: Env, now: Launch, events: seq<Event>)
    requires HandledEvents(events)
    ensures ServerInv(Serve(env, FirstServer(env, now), events))
  {
    hide NextEvent, HandledEvent, ServerInv;
    var n := |events| - 1;
    if events == [] {
      FirstServerInv(env, now);
    } else {
      ServingKeepsInv(env, now, events[..n]);
      var s, e := Serve(env, FirstServer(env, now), events[..n]), events[n];
      match e {
        case Operate(step) => OperateKeepsInv(env, s, step);
        case LoadRegistry(_, _) => RegistryKeepsInv(env, s, e);
        case SaveRegistry(_, _) => RegistryKeepsInv(env, s, e);
        case Snapshot(_, _, _, _, _) => SnapshotKeepsInv(env, s, e);
        case Lookup(_, _) => LookupKeepsInv(env, s, e);
        case Commit(_, _, _) => CommitKeepsInv(env, s, e);
      }
    }
  }

  lemma FirstServerInv(env: Env, now: Launch)
    ensures ServerInv(FirstServer(env, now))
  {
  }

  /** Under every interleaving of snapshots, lookups, commits, submissions, awards, new
      definitions and restarts, whatever reads and writes fail, a reviewed claim was reviewed by
      its developer. */
  lemma ReviewersAreDevelopers(env: Env, now: Launch, events: seq<Event>, player: string, i: nat)
    requires HandledEvents(events)
    requires i < |ClaimsOf(Serve(env, FirstServer(env, now), events).world.desk.held, player)|
    ensures var c := ClaimsOf(Serve(env, FirstServer(env, now), events).world.desk.held, player)[i];
      c.reviewer.None? || c.reviewer.value == c.developer
  {
    hide DeskInv, KeyedRegistry, TaskValid, Key;
    ServingKeepsInv(env, now, events);
    var s := Serve(env, FirstServer(env, now), events);
    assert OwnReviews(ClaimsOf(s.world.desk.held, player));
    assert OwnReview(ClaimsOf(s.world.desk.held, player)[i]);
  }

  /** Under every interleaving, whatever reads and writes fail, a review in flight will find at
      commit the claim its snapshot saw, with every submitted field unchanged. */
  lemma SnapshotStaysValid(env: Env, now: Launch, events: seq<Event>, task: nat)
    requires HandledEvents(events)
    requires task in Serve(env, FirstServer(env, now), events).tasks
    ensures var s := Serve(env, FirstServer(env, now), events);
      var t, claims := s.tasks[task], ClaimsOf(s.world.desk.held, s.tasks[task].player);
      var found := FindClaim(claims, t.claimId);
      && found.Some?
      && SameSubmission(t.snapshot, claims[found.value])
      && claims[found.value].developer == t.developer
  {
    hide DeskInv, DeskOwn, KeyedRegistry, Key;
    ServingKeepsInv(env, now, events);
    var s := Serve(env, FirstServer(env, now), events);
    CommitFindsSnapshot(s, s.tasks[task]);
  }

  // ------------------------------------------------- what is awarded for a player's claims

  /** A piece changes the world by at most one admissible step. */
  function StepOf(s: Server, e: Event): Option<Step> {
    match e
    case Operate(step) => Some(step)
    case Commit(task, note, io) =>
      if task in s.tasks && s.tasks[task].phase.LookedUp? then Some(CommitStep(s.tasks[task], note, io)) else None
    case _ => None
  }

  lemma EventIsAStep(env: Env, s: Server, e: Event)
    requires AdmissibleEvent(s, e)
    ensures StepOf(s, e).None? ==> NextEvent(env, s, e).world == s.world
    ensures StepOf(s, e).Some? ==> NextEvent(env, s, e).world == Next(env, s.world, StepOf(s, e).value)
    ensures StepOf(s, e).Some? ==> Admissible(s.world, StepOf(s, e).value)
  {
    hide Next, Admissible;
  }

  lemma {:induction false} ServingIsGuarded(env: Env, now: Launch, events: seq<Event>)
    requires AdmissibleEvents(env, FirstServer(env, now), events)
    ensures Guarded(Serve(env, FirstServer(env, now), events).world)
  {
    hide NextEvent, AdmissibleEvent, Guarded, Next, Admissible, StepOf;
    if events == [] {
      InitialIsGuarded(env, now, "");
    } else {
      var n := |events| - 1;
      ServingIsGuarded(env, now, events[..n]);
      var s := Serve(env, FirstServer(env, now), events[..n]);
      EventIsAStep(env, s, events[n]);
      if StepOf(s, events[n]).Some? {
        NextIsGuarded(env, s.world, StepOf(s, events[n]).value);
      }
    }
  }

  ghost predicate AwardsInOrder(w: World, player: string) {
    AwardInv(w, player) && AwardsMatch(w, player)
  }

  lemma EventKeepsAwards(env: Env, s: Server, e: Event, p: string)
    requires ServerInv(s) && Guarded(s.world) && AwardsInOrder(s.world, p)
    requires AdmissibleEvent(s, e) && ReadsClaimsFor(e, p)
    ensures AwardsInOrder(NextEvent(env, s, e).world, p)
  {
    hide Guarded, AwardInv, AwardsMatch, Next, Admissible, DeskInv, TaskValid;
    EventIsAStep(env, s, e);
    if StepOf(s, e).Some? {
      var w, step := s.world, StepOf(s, e).value;
      NextKeepsAwards(env, w, step, p);
      NextDesk(env, w, step);
      if step.op.RestartOp? {
        RestartAwardsMatch(env, w, step, p);
      } else if step.op.ReviewClaimOp? {
        CommitAwardsMatch(env, s, s.tasks[e.task], e.note, e.io, p);
      } else {
        OperationAwardsMatch(env, w, step, p);
      }
    }
  }

  lemma {:induction false} ServingKeepsAwards(env: Env, now: Launch, events: seq<Event>, p: string)
    requires AdmissibleEvents(env, FirstServer(env, now), events) && ReadsFor(events, p)
    ensures AwardsInOrder(Serve(env, FirstServer(env, now), events).world, p)
  {
    hide NextEvent, AdmissibleEvent, Guarded, ServerInv, AwardsInOrder, ReadsClaimsFor, HandledEvents;
    if events == [] {
      NothingAwardedYet(env, now, p);
    } else {
      var n := |events| - 1;
      ServingKeepsAwards(env, now, events[..n], p);
      ServingIsGuarded(env, now, events[..n]);
      AdmissibleIsHandled(env, FirstServer(env, now), events[..n]);
      ServingKeepsInv(env, now, events[..n]);
      EventKeepsAwards(env, Serve(env, FirstServer(env, now), events[..n]), events[n], p);
    }
  }

  lemma NothingAwardedYet(env: Env, now: Launch, p: string)
    ensures AwardsInOrder(Initial(env, now), p)
  {
  }

  // ------------------------------------------------- which definitions are awarded

  /** The definitions registrations were given. */
  function Registered(events: seq<Event>): set<DefinitionId> {
    if events == [] then {}
    else
      Registered(events[..|events| - 1])
      + (match events[|events| - 1] case SaveRegistry(_, def) => {def.Id()} case _ => {})
  }

  lemma {:induction false} RegisteredByEvents(events: seq<Event>, d: DefinitionId)
    ensures d in Registered(events) <==> exists e :: e in events && e.SaveRegistry? && e.definition.Id() == d
  {
    if events != [] {
      var n := |events| - 1;
      assert events == events[..n] + [events[n]];
      RegisteredByEvents(events[..n], d);
    }
  }

  predicate HoldsOnly(registry: RegistryMap, ids: set<DefinitionId>) {
    forall k | k in registry :: registry[k].Id() in ids
  }

  predicate KnowsOnly(t: Task, ids: set<DefinitionId>) {
    t.phase.LookedUp? && t.phase.definition.Some? ==> t.phase.definition.value.Id() in ids
  }

  /** What is stored, loaded, looked up or awarded for a claim was registered. */
  ghost predicate OnlyRegistered(s: Server, ids: set<DefinitionId>) {
    && HoldsOnly(s.registry, ids)
    && (forall h | h in s.loaded :: HoldsOnly(s.loaded[h], ids))
    && (forall t | t in s.tasks :: KnowsOnly(s.tasks[t], ids))
    && (forall x: Block | Caused(s.world, x) && AwardedId(x).Some? :: AwardedId(x).value in ids)
  }

  lemma NextOnlyRegistered(env: Env, s: Server, e: Event, ids: set<DefinitionId>, more: set<DefinitionId>)
    requires Guarded(s.world) && AdmissibleEvent(s, e) && OnlyRegistered(s, ids)
    requires more == ids + (match e case SaveRegistry(_, def) => {def.Id()} case _ => {})
    ensures OnlyRegistered(NextEvent(env, s, e), more)
  {
    hide Guarded, Next, Admissible, Key, Caused, AwardedId;
    var s' := NextEvent(env, s, e);
    EventIsAStep(env, s, e);
    forall x: Block | Caused(s'.world, x) && AwardedId(x).Some?
      ensures AwardedId(x).value in more
    {
      if StepOf(s, e).Some? {
        CausedByStep(env, s.world, StepOf(s, e).value, x);
        assert e.Commit? ==> KnowsOnly(s.tasks[e.task], ids);
      }
    }
    forall t | t in s'.tasks
      ensures KnowsOnly(s'.tasks[t], more)
    {
      assert t in s.tasks ==> KnowsOnly(s.tasks[t], ids);
    }
  }

  lemma {:induction false} ServingOnlyRegistered(env: Env, now: Launch, events: seq<Event>)
    requires AdmissibleEvents(env, FirstServer(env, now), events)
    ensures OnlyRegistered(Serve(env, FirstServer(env, now), events), Registered(events))
  {
    hide NextEvent, AdmissibleEvent, Guarded, OnlyRegistered;
    if events == [] {
      NothingRegistered(env, now);
    } else {
      var n := |events| - 1;
      ServingOnlyRegistered(env, now, events[..n]);
      ServingIsGuarded(env, now, events[..n]);
      NextOnlyRegistered(env, Serve(env, FirstServer(env, now), events[..n]), events[n], Registered(events[..n]),
                         Registered(events));
    }
  }

  lemma NothingRegistered(env: Env, now: Launch)
    ensures OnlyRegistered(FirstServer(env, now), {})
  {
  }

  /** Under every interleaving in which restarts see the player's claims, registrations losing
      each other or not: an award caused by promoting a claim is for a definition that was
      registered under the key the claim asks for; and racing promotions of one claim produce
      one award. */
  lemma AwardsAreRegistered(env: Env, now: Launch, events: seq<Event>, x: Block, y: Block, d: DefinitionId)
    requires AdmissibleEvents(env, FirstServer(env, now), events) && ReadsFor(events, Owner(x))
    requires var w := Serve(env, FirstServer(env, now), events).world;
      && Caused(w, x) && PromotedAs(w.desk.held, CauseOf(w, x), d)
      && Caused(w, y) && CauseOf(w, x) == CauseOf(w, y)
    ensures AwardedId(x).Some? && AwardedId(x).value in Registered(events)
    ensures Key(AwardedId(x).value) == Key(d)
    ensures IdOf(x) == IdOf(y)
  {
    hide LogsFiled, DeskInv, Key, PromotedAs, OnRecord, Serve, AdmissibleEvents, ReadsFor;
    ServingIsGuarded(env, now, events);
    ServingKeepsAwards(env, now, events, Owner(x));
    ServingOnlyRegistered(env, now, events);
  }

  /** So the award is for exactly what the claim asks if every registered definition and the
      claim keep colons out of their developer and game, ids holding any number of them. */
  lemma AwardsAreForTheirClaims(env: Env, now: Launch, events: seq<Event>, x: Block, d: DefinitionId)
    requires AdmissibleEvents(env, FirstServer(env, now), events) && ReadsFor(events, Owner(x))
    requires forall e | e in events && e.SaveRegistry? :: ColonFree(e.definition.Id())
    requires ColonFree(d)
    requires var w := Serve(env, FirstServer(env, now), events).world;
      Caused(w, x) && PromotedAs(w.desk.held, CauseOf(w, x), d)
    ensures AwardedId(x) == Some(d)
  {
    hide Key, Serve, AdmissibleEvents, PromotedAs, Caused, ColonFree, ReadsFor;
    AwardsAreRegistered(env, now, events, x, x, d);
    RegisteredByEvents(events, AwardedId(x).value);
    KeyInjective(AwardedId(x).value, d);
  }

  /** And, whatever was registered, if the claim keeps colons out of all three names. */
  lemma PlainClaimsGetTheirAwards(env: Env, now: Launch, events: seq<Event>, x: Block, d: DefinitionId)
    requires AdmissibleEvents(env, FirstServer(env, now), events) && ReadsFor(events, Owner(x))
    requires ColonFree(d) && ':' !in d.id
    requires var w := Serve(env, FirstServer(env, now), events).world;
      Caused(w, x) && PromotedAs(w.desk.held, CauseOf(w, x), d)
    ensures AwardedId(x) == Some(d)
  {
    hide Key, Serve, AdmissibleEvents, PromotedAs, Caused, ReadsFor;
    AwardsAreRegistered(env, now, events, x, x, d);
    KeyUnambiguousIff(d);
  }
}
