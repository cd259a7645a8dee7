/** Steps that can always be taken next, and what they do: the pieces concrete runs are made of. */
module Scenarios {
  import opened Common
  import BitVectors
  import opened Order
  import opened Blockchain
  import opened Registry
  import opened Journal
  import opened Claims
  import opened Runs
  import opened LedgerInvariant
  import opened Recovery
  import opened ClaimLifecycle
  import opened AwardOnce
  import opened ConcurrentReview

  // ------------------------------------------------------- fresh ids and listings

  lemma LongerThanAll(texts: set<string>) returns (n: nat)
    ensures forall t | t in texts :: |t| < n
  {
    if texts == {} {
      n := 0;
    } else {
      var t :| t in texts;
      n := LongerThanAll(texts - {t});
      n := if |t| < n then n else |t| + 1;
      assert forall u | u in texts :: u == t || u in texts - {t};
    }
  }

  lemma FreshText(used: set<string>) returns (text: string)
    ensures text !in used
  {
    var n := LongerThanAll(used);
    text := seq(n, _ => 'a');
  }

  lemma ListingOf(players: set<string>) returns (ids: seq<string>)
    ensures forall p :: p in ids <==> p in players
    ensures forall i, j | 0 <= i < j < |ids| :: ids[i] != ids[j]
  {
    if players == {} {
      ids := [];
    } else {
      var p :| p in players;
      var rest := ListingOf(players - {p});
      ids := rest + [p];
    }
  }

  /** A time the service clock can still show. */
  predicate Later(w: World, at: string) {
    IsStamp(at) && TextLe(w.clock, at)
  }

  function InputsAt(id: string, at: string, append: AppendOutcome): Inputs {
    Inputs(id, "", at, at, at, at, append, true, true)
  }

  lemma StillLater(at: string)
    ensures TextLe(at, at)
  {
    TextTotalOrder(at, at, at);
  }

  // ------------------------------------------------------------------ their effects

  lemma CreateEffect(env: Env, w: World, player: string, io: Inputs) returns (block: Block)
    requires env.isUuid(player)
    ensures var after := Next(env, w, Step(CreateProfileOp(player, ""), io));
      && player in after.book.index.profiles
      && after.desk == w.desk && after.promoted == w.promoted
      && after.clock == io.minedAt && after.used == w.used + {io.transactionId}
      && after.book.chain == w.book.chain + [block]
      && after.book.logs == AppendLog(w.book.logs, player, block, io.append)
      && Owner(block) == player
      && block.previousBlockHash == w.book.chain[|w.book.chain| - 1].blockHash
  {
    hide Mined, AppendLog;
    var profile := PlayerProfile(player, "", BitVectors.New(DEFAULT_DIM));
    block := RecordBlock(env, w.book.chain, ChangeTransaction(env, profile, io), io);
  }

  lemma SubmitEffect(env: Env, w: World, player: string, input: ClaimInput, io: Inputs)
    requires env.isUuid(player) && player in w.book.index.profiles && io.firstSave
    requires FindClaim(ClaimsOf(w.desk.held, player), input.claimId).None?
    ensures var after := Next(env, w, Step(SubmitClaimOp(player, input), io));
      && after.book == w.book && after.promoted == w.promoted
      && after.clock == io.minedAt && after.used == w.used + {io.transactionId}
      && ClaimsOf(after.desk.held, player) == ClaimsOf(w.desk.held, player) + [SubmittedClaim(input, io.claimAt)]
      && ClaimsOf(after.desk.saved, player) == ClaimsOf(after.desk.held, player)
  {
  }

  function PromoteStep(player: string, claim: AchievementClaim, def: AchievementDefinition, io: Inputs): Step {
    Step(ReviewClaimOp(player, claim.claimId, claim.developer, Promote, None, Some(def)), io)
  }

  /** Promoting the only claim of a player, whatever becomes of the append. */
  lemma PromoteEffect(env: Env, w: World, player: string, claim: AchievementClaim, def: AchievementDefinition,
                      io: Inputs)
    returns (block: Block)
    requires env.isUuid(player) && player in w.book.index.profiles && io.firstSave
    requires ClaimsOf(w.desk.held, player) == [claim] && claim.status.Pending?
    ensures var after, ref := Next(env, w, PromoteStep(player, claim, def, io)), ClaimRef(player, claim.claimId);
      && after.promoted == w.promoted[io.transactionId := ref]
      && after.clock == io.minedAt && after.used == w.used + {io.transactionId}
      && after.book.chain == w.book.chain + [block]
      && after.book.logs == AppendLog(w.book.logs, player, block, io.append)
      && IdOf(block) == io.transactionId && Owner(block) == player
      && PromotedAs(after.desk.held, ref, claim.Definition()) && PromotedAs(after.desk.saved, ref, claim.Definition())
  {
    hide Mined, AppendLog, AwardAchievement, PromoteClaim, PromotedAs;
    block := RecordBlock(env, w.book.chain, AchievementTransaction(env, player, def, io), io);
    assert FindClaim([claim], claim.claimId) == Some(0) by { assert [claim][0] == claim; }
    LoneClaimPromoted(env, w.book, w.desk, player, claim, def, io);
    AwardEffect(env, w.book, player, def, io);
  }

  lemma LoneClaimPromoted(env: Env, b: Book, d: Desk, player: string, claim: AchievementClaim,
                          def: AchievementDefinition, io: Inputs)
    requires env.isUuid(player) && io.firstSave
    requires ClaimsOf(d.held, player) == [claim] && claim.status.Pending?
    ensures var (book, after, _) := PromoteClaim(env, b, d, player, 0, claim.developer, None, Some(def), io);
      var ref := ClaimRef(player, claim.claimId);
      && book == AwardAchievement(env, b, player, def, io).0
      && PromotedAs(after.held, ref, claim.Definition()) && PromotedAs(after.saved, ref, claim.Definition())
  {
    hide AwardAchievement;
    var after := PromoteClaim(env, b, d, player, 0, claim.developer, None, Some(def), io).1;
    assert PromotedAt(ClaimsOf(after.held, player), 0, claim.claimId, claim.Definition());
    assert PromotedAt(ClaimsOf(after.saved, player), 0, claim.claimId, claim.Definition());
  }

  lemma AwardEffect(env: Env, b: Book, player: string, def: AchievementDefinition, io: Inputs)
    requires env.isUuid(player) && player in b.index.profiles
    ensures var after := AwardAchievement(env, b, player, def, io).0;
      RecordedAs(env, b, after, AchievementTransaction(env, player, def, io), io)
  {
    hide Mined, AppendLog;
  }

  // --------------------------------------------------------------------- whole runs

  /** On empty storage: create a profile, submit a claim, promote it. */
  lemma PromotionRun(env: Env, player: string, input: ClaimInput, def: AchievementDefinition, at: string,
                     created: AppendOutcome, awarded: AppendOutcome)
    returns (steps: seq<Step>)
    requires env.isUuid(player) && IsStamp(at)
    ensures AdmissibleRun(env, Initial(env, Launch(at, "")), steps) && NoRestarts(steps)
    ensures var w, ref := Run(env, Initial(env, Launch(at, "")), steps), ClaimRef(player, input.claimId);
      var d := DefinitionId(input.developer, input.game, input.achievementId, input.version);
      && w.clock == at
      && PromotedAs(w.desk.held, ref, d) && PromotedAs(w.desk.saved, ref, d)
      && (created == awarded == Dropped(false) ==> w.book.logs == map[])
      && (!awarded.Dropped? ==>
            && player in w.book.logs && w.book.logs[player] != []
            && var id := IdOf(w.book.logs[player][|w.book.logs[player]| - 1]);
               id in w.promoted && w.promoted[id] == ref)
  {
    hide Next, PromotedAs, TextLe, IsStamp;
    StillLater(at);
    var w0 := Initial(env, Launch(at, ""));
    var create := Step(CreateProfileOp(player, ""), InputsAt("1", at, created));
    var w1 := Next(env, w0, create);
    var first := CreateEffect(env, w0, player, create.io);
    var submit := Step(SubmitClaimOp(player, input), InputsAt("2", at, Appended));
    var w2 := Next(env, w1, submit);
    SubmitEffect(env, w1, player, input, submit.io);
    var claim := SubmittedClaim(input, at);
    var promote := PromoteStep(player, claim, def, InputsAt("3", at, awarded));
    var block := PromoteEffect(env, w2, player, claim, def, promote.io);
    steps := [create, submit, promote];
    RunThree(env, w0, create, submit, promote);
  }

  lemma RunTwo(env: Env, w: World, a: Step, b: Step)
    requires Admissible(w, a) && Admissible(Next(env, w, a), b)
    ensures Run(env, w, [a, b]) == Next(env, Next(env, w, a), b) && AdmissibleRun(env, w, [a, b])
  {
    hide Next, Admissible;
    RunOne(env, w, a);
    assert [a, b][..1] == [a];
  }

  lemma RunThree(env: Env, w: World, a: Step, b: Step, c: Step)
    requires Admissible(w, a) && Admissible(Next(env, w, a), b) && Admissible(Next(env, Next(env, w, a), b), c)
    ensures Run(env, w, [a, b, c]) == Next(env, Next(env, Next(env, w, a), b), c) && AdmissibleRun(env, w, [a, b, c])
  {
    hide Next, Admissible;
    RunTwo(env, w, a, b);
    assert [a, b, c][..2] == [a, b];
  }

  // --------------------------------------------------------------------- lost players

  /** The loss is real: two players created one after the other, both appends written.  The
      second one's block is in its log, and still every restart forgets its profile. */
  lemma SecondPlayerIsLost(env: Env, first: string, second: string, at: string) returns (w: World)
    requires Binding(env.hash) && IsStamp(at)
    requires env.isUuid(first) && env.isUuid(second) && first != second
    ensures Reachable(env, w)
    ensures second in w.book.index.profiles
    ensures |w.book.chain| == 3 && second in w.book.logs && w.book.logs[second] == [w.book.chain[2]]
    ensures forall ids, now | Lists(ids, w.book.logs) ::
              var after := ReplayBook(env, w.book.logs, ids, NO_FAULTS, now);
              second !in after.index.profiles && after.chain[1..] != w.book.chain[1..]
  {
    hide Next, Binding, TextLe, IsStamp, Lists, ReplayBook, BookInv;
    StillLater(at);
    var w0 := Initial(env, Launch(at, ""));
    var a := Step(CreateProfileOp(first, ""), InputsAt("1", at, Appended));
    var b := Step(CreateProfileOp(second, ""), InputsAt("2", at, Appended));
    var w1 := Next(env, w0, a);
    var x := CreateEffect(env, w0, first, a.io);
    var y := CreateEffect(env, w1, second, b.io);
    w := Next(env, w1, b);
    RunTwo(env, w0, a, b);
    NoRestartsReadLedger(env, w0, [a, b]);
    assert ReachedBy(env, Launch(at, ""), [a, b], w) && LedgerReadRun(env, w0, [a, b]);
    assert w.book.chain[1] == x && w.book.chain[2] == y;
    forall ids, now | Lists(ids, w.book.logs)
      ensures var after := ReplayBook(env, w.book.logs, ids, NO_FAULTS, now);
        second !in after.index.profiles && after.chain[1..] != w.book.chain[1..]
    {
      OnlyFirstPlayerComesBack(env, w, ids, now, second);
      FullyRecoveredIff(env, w, ids, now);
      assert x in Tail(w.book) && y in Tail(w.book);
    }
  }

  // ----------------------------------------------------------- a ledger not read back

  /** A restart that missed durable blocks of the chain starts a second one. */
  lemma MissedLedgerForks(env: Env, w: World, restart: Step, at: string) returns (create: Step)
    requires Binding(env.hash) && Reachable(env, w) && Later(w, at)
    requires restart.op.RestartOp? && Admissible(w, restart) && !ReadsLedger(w, restart)
    ensures Admissible(Next(env, w, restart), create) && !create.op.RestartOp?
    ensures !OneGenesisLink(Next(env, Next(env, w, restart), create).book.logs)
  {
    hide Binding, Next, ReplayBook, Lists, IsStamp, TextLe, Reachable, BookInv, Made, Recoverable;
    var tail, logs := Tail(w.book), w.book.logs;
    ReachableIsSound(env, w);
    var i := FirstIsDurable(env, w);
    var p := Owner(tail[0]);
    NextRestart(env, w, restart);
    RestartKeepsLogs(env, w, restart);
    FoundIsEnoughIff(env, w.book, w.clock, w.used, restart.op.ids, restart.op.faults, restart.op.now);
    var started := Next(env, w, restart);
    StillLater(at);
    var id := FreshText(started.used);
    create := Step(CreateProfileOp(p, ""), InputsAt(id, at, Appended));
    var block := CreateEffect(env, started, p, create.io);
    var after := Next(env, started, create).book.logs;
    assert started.book.chain[|started.book.chain| - 1].blockHash == GENESIS_HASH by {
      LoneGenesis(env, w.book.logs, restart.op.ids, restart.op.faults, restart.op.now);
    }
    assert after[p] == logs[p] + [block];
    assert after[p][i] == logs[p][i] && after[p][|logs[p]|] == block;
  }

  lemma LoneGenesis(env: Env, logs: map<string, seq<Block>>, ids: seq<string>, faults: ReadFaults, now: Launch)
    ensures var book := ReplayBook(env, logs, ids, faults, now);
      Tail(book) == [] ==> book.chain[|book.chain| - 1].blockHash == GENESIS_HASH
  {
  }

  /** Block 1 of a chain some of which is durable is in the log of its player. */
  lemma FirstIsDurable(env: Env, w: World) returns (i: nat)
    requires Sound(env, w) && Recoverable(Tail(w.book), w.book.logs) != []
    ensures Tail(w.book) != []
    ensures var first := Tail(w.book)[0];
      && env.isUuid(Owner(first)) && Owner(first) in w.book.logs && i < |w.book.logs[Owner(first)]|
      && w.book.logs[Owner(first)][i] == first && first.previousBlockHash == GENESIS_HASH
  {
    hide RecoveryInv, IndexInv, Made;
    var first := Tail(w.book)[0];
    assert first in LogOf(w.book.logs, Owner(first));
    i :| 0 <= i < |w.book.logs[Owner(first)]| && w.book.logs[Owner(first)][i] == first;
    assert Logged(env, Owner(first), w.book.logs[Owner(first)][i], w.used);
    assert Accepts(env.hash, w.book.chain[0].blockHash, w.book.chain[1]);
  }

  /** Exactly when a restart keeps the promise that at most one durable block ever links to the
      genesis hash: it read the log of the player owning block 1, unless nothing of the chain
      was durable. */
  lemma OneGenesisLinkIff(env: Env, w: World, restart: Step, at: string)
    requires Binding(env.hash) && Reachable(env, w) && Later(w, at)
    requires restart.op.RestartOp? && Admissible(w, restart)
    ensures (forall steps |
               AdmissibleRun(env, Next(env, w, restart), steps) && LedgerReadRun(env, Next(env, w, restart), steps) ::
               OneGenesisLink(Run(env, Next(env, w, restart), steps).book.logs))
            <==> ReadsLedger(w, restart)
  {
    hide Binding, Next, Sound, Reachable, OneGenesisLink, Admissible, ReadsLedger, Run, AdmissibleRun, LedgerReadRun,
         Later;
    var started := Next(env, w, restart);
    if ReadsLedger(w, restart) {
      ReachableIsSound(env, w);
      NextIsSound(env, w, restart);
      forall steps | AdmissibleRun(env, started, steps) && LedgerReadRun(env, started, steps)
        ensures OneGenesisLink(Run(env, started, steps).book.logs)
      {
        RunIsSound(env, started, steps);
        SoundHasOneLink(env, Run(env, started, steps));
      }
    } else {
      var create := MissedLedgerForks(env, w, restart, at);
      RunOne(env, started, create);
      NoRestartsReadLedger(env, started, [create]);
      assert !OneGenesisLink(Run(env, started, [create]).book.logs);
    }
  }

  // --------------------------------------------------------------- a served review

  lemma ServeOne(env: Env, s: Server, events: seq<Event>, e: Event)
    ensures Serve(env, s, events + [e]) == NextEvent(env, Serve(env, s, events), e)
    ensures AdmissibleEvents(env, s, events + [e])
            <==> AdmissibleEvents(env, s, events) && AdmissibleEvent(Serve(env, s, events), e)
  {
    hide NextEvent, AdmissibleEvent;
    assert (events + [e])[..|events|] == events;
  }

  /** A claim is submitted and promoted by its developer's handler, for a definition that was
      registered under the claim's key: the award is durable, and it is for that definition. */
  lemma ServedPromotion(env: Env, player: string, input: ClaimInput, def: AchievementDefinition, at: string)
    returns (events: seq<Event>, x: Block)
    requires env.isUuid(player) && IsStamp(at)
    requires Key(def.Id()) == Key(SubmittedClaim(input, at).Definition())
    ensures AdmissibleEvents(env, FirstServer(env, Launch(at, "")), events) && ReadsFor(events, player)
    ensures forall e | e in events && e.SaveRegistry? :: e.definition == def
    ensures var w := Serve(env, FirstServer(env, Launch(at, "")), events).world;
      && Caused(w, x) && Owner(x) == player && x in LogOf(w.book.logs, player)
      && CauseOf(w, x) == ClaimRef(player, input.claimId)
      && PromotedAs(w.desk.held, CauseOf(w, x), SubmittedClaim(input, at).Definition())
  {
    hide Next, PromotedAs, IsStamp, TextLe, Key, Serve, AdmissibleEvents, NextEvent, AdmissibleEvent, Caused;
    var claim := SubmittedClaim(input, at);
    var s0 := FirstServer(env, Launch(at, ""));
    var before := ServedSubmission(env, player, input, def, at);
    var s := Serve(env, s0, before);
    StillLater(at);
    var review := [Snapshot(0, input.developer, player, input.claimId, Promote), Lookup(0, true),
                   Commit(0, None, InputsAt("3", at, Appended))];
    x := ReviewEffect(env, s, player, claim, def, review, at);
    ServeOne(env, s0, before, review[0]);
    ServeOne(env, s0, before + [review[0]], review[1]);
    ServeOne(env, s0, before + [review[0]] + [review[1]], review[2]);
    events := before + [review[0]] + [review[1]] + [review[2]];
  }

  /** The profile is created, the claim submitted and the definition registered. */
  lemma ServedSubmission(env: Env, player: string, input: ClaimInput, def: AchievementDefinition, at: string)
    returns (events: seq<Event>)
    requires env.isUuid(player) && IsStamp(at)
    ensures AdmissibleEvents(env, FirstServer(env, Launch(at, "")), events) && ReadsFor(events, player)
    ensures forall e | e in events && e.SaveRegistry? :: e.definition == def
    ensures var s := Serve(env, FirstServer(env, Launch(at, "")), events);
      && player in s.world.book.index.profiles && ClaimsOf(s.world.desk.held, player) == [SubmittedClaim(input, at)]
      && s.world.clock == at && s.world.used == {"1", "2"}
      && Key(def.Id()) in s.registry && s.registry[Key(def.Id())] == def
  {
    hide Next, IsStamp, TextLe, Key, Serve, AdmissibleEvents;
    StillLater(at);
    var s0 := FirstServer(env, Launch(at, ""));
    ServeNothing(env, s0);
    var create := Step(CreateProfileOp(player, ""), InputsAt("1", at, Appended));
    var submit := Step(SubmitClaimOp(player, input), InputsAt("2", at, Appended));
    var first := CreateEffect(env, s0.world, player, create.io);
    SubmitEffect(env, Next(env, s0.world, create), player, input, submit.io);
    var a := [Operate(create)];
    assert a == [] + [Operate(create)];
    ServeOne(env, s0, [], Operate(create));
    var b := a + [Operate(submit)];
    ServeOne(env, s0, a, Operate(submit));
    var rest, registered := RegisterOne(env, Serve(env, s0, b), def);
    ServeOne(env, s0, b, rest[0]);
    ServeOne(env, s0, b + [rest[0]], rest[1]);
    events := b + [rest[0]] + [rest[1]];
  }

  lemma ServeNothing(env: Env, s: Server)
    ensures Serve(env, s, []) == s && AdmissibleEvents(env, s, [])
  {
  }

  lemma RegisterOne(env: Env, s: Server, def: AchievementDefinition) returns (events: seq<Event>, after: Server)
    ensures events == [LoadRegistry(0, true), SaveRegistry(0, def)]
    ensures after == NextEvent(env, NextEvent(env, s, events[0]), events[1])
    ensures after.world == s.world && after.tasks == s.tasks
    ensures Key(def.Id()) in after.registry && after.registry[Key(def.Id())] == def
  {
    hide Key, Next;
    events := [LoadRegistry(0, true), SaveRegistry(0, def)];
    after := NextEvent(env, NextEvent(env, s, events[0]), events[1]);
  }

  /** Snapshot, lookup and commit of the only claim of a player. */
  lemma ReviewEffect(env: Env, s: Server, player: string, claim: AchievementClaim, def: AchievementDefinition,
                     review: seq<Event>, at: string)
    returns (x: Block)
    requires env.isUuid(player) && player in s.world.book.index.profiles
    requires ClaimsOf(s.world.desk.held, player) == [claim] && claim.status.Pending?
    requires Key(claim.Definition()) in s.registry && s.registry[Key(claim.Definition())] == def
    requires Later(s.world, at) && "3" !in s.world.used
    requires review == [Snapshot(0, claim.developer, player, claim.claimId, Promote), Lookup(0, true),
                        Commit(0, None, InputsAt("3", at, Appended))]
    ensures var s1 := NextEvent(env, s, review[0]); var s2 := NextEvent(env, s1, review[1]);
      && AdmissibleEvent(s, review[0]) && AdmissibleEvent(s1, review[1]) && AdmissibleEvent(s2, review[2])
      && var w := NextEvent(env, s2, review[2]).world;
         && Caused(w, x) && Owner(x) == player && x in LogOf(w.book.logs, player)
         && CauseOf(w, x) == ClaimRef(player, claim.claimId)
         && PromotedAs(w.desk.held, CauseOf(w, x), claim.Definition())
  {
    hide Next, PromotedAs, IsStamp, TextLe, Key;
    assert FindClaim([claim], claim.claimId) == Some(0) by { assert [claim][0] == claim; }
    var s1 := NextEvent(env, s, review[0]);
    var s2 := NextEvent(env, s1, review[1]);
    assert s2.tasks[0] == Task(claim.developer, player, claim.claimId, Promote, claim, LookedUp(Some(def)));
    var promote := PromoteStep(player, claim, def, InputsAt("3", at, Appended));
    assert CommitStep(s2.tasks[0], None, InputsAt("3", at, Appended)) == promote;
    x := PromoteEffect(env, s.world, player, claim, def, promote.io);
    var w := NextEvent(env, s2, review[2]).world;
    assert w == Next(env, s.world, promote);
    assert w.book.logs[player] == LogOf(s.world.book.logs, player) + [x];
  }
}
