/** The endpoints in several pieces: run alone, snapshot, lookup and commit act as one review,
    load and save as one registration; and how a registration is lost. */
module ReviewHandler {
  import opened Common
  import opened Registry
  import opened Journal
  import opened Claims
  import opened Runs
  import opened ConcurrentReview
  import opened ClaimEffects

  /** The definition a promotion needs: the one registered under the claim's key. */
  predicate Registers(s: Server, c: AchievementClaim, readable: bool) {
    readable && Key(DefinitionId(c.developer, c.game, c.achievementId, c.version)) in s.registry
  }

  /** What reviewing the first claim under the id does to the service: nothing for a foreign
      developer, or for a promotion whose definition is not found. */
  ghost predicate ReviewedAlone(env: Env, s: Server, after: World, developer: string, player: string, i: nat,
                                action: ReviewAction, note: Option<string>, readable: bool, io: Inputs)
    requires i < |ClaimsOf(s.world.desk.held, player)|
  {
    var c := ClaimsOf(s.world.desk.held, player)[i];
    if c.developer != developer || (action.Promote? && !Registers(s, c, readable)) then after == s.world
    else
      var key := Key(DefinitionId(c.developer, c.game, c.achievementId, c.version));
      var definition := if action.Promote? then Some(s.registry[key]) else None;
      after == Next(env, s.world, Step(ReviewClaimOp(player, c.claimId, developer, action, note, definition), io))
  }

  lemma ServeThree(env: Env, s: Server, a: Event, b: Event, c: Event)
    ensures Serve(env, s, [a, b, c]) == NextEvent(env, NextEvent(env, NextEvent(env, s, a), b), c)
  {
    hide NextEvent;
    assert [a, b, c][..2] == [a, b] && [a, b][..1] == [a] && [a][..0] == [];
    assert Serve(env, s, [a]) == NextEvent(env, s, a);
    assert Serve(env, s, [a, b]) == NextEvent(env, Serve(env, s, [a]), b);
  }

  lemma InAndOut(tasks: map<nat, Task>, task: nat, t: Task)
    requires task !in tasks
    ensures tasks[task := t] - {task} == tasks
  {
  }

  /** What snapshot and lookup leave to commit: the claim's review, or nothing. */
  lemma ReadyToCommit(env: Env, s: Server, task: nat, developer: string, player: string, claimId: string,
                      action: ReviewAction, readable: bool)
    returns (t: Option<Task>)
    requires task !in s.tasks
    ensures var mid := NextEvent(env, NextEvent(env, s, Snapshot(task, developer, player, claimId, action)),
                                 Lookup(task, readable));
      mid == if t.Some? then s.(tasks := s.tasks[task := t.value]) else s
    ensures var found := FindClaim(ClaimsOf(s.world.desk.held, player), claimId);
      if found.None? then t.None?
      else
        var c := ClaimsOf(s.world.desk.held, player)[found.value];
        if c.developer != developer || (action.Promote? && !Registers(s, c, readable)) then t.None?
        else t == Some(Task(developer, player, claimId, action, c,
                            LookedUp(if action.Promote? then Some(s.registry[Key(c.Definition())]) else None)))
  {
    hide Key;
    var claims := ClaimsOf(s.world.desk.held, player);
    var found := FindClaim(claims, claimId);
    t := None;
    if found.Some? && claims[found.value].developer == developer {
      var c := claims[found.value];
      var taken := Task(developer, player, claimId, action, c, Snapshotted);
      InAndOut(s.tasks, task, taken);
      if action.Reject? || Registers(s, c, readable) {
        t := Some(taken.(phase := LookedUp(if action.Promote? then Some(s.registry[Key(c.Definition())]) else None)));
        assert s.tasks[task := taken][task := t.value] == s.tasks[task := t.value];
      }
    }
  }

  /** An uninterrupted review reviews its claim once, with its own developer as reviewer, and
      leaves registry, registrations in flight and other reviews in flight as they were. */
  lemma ReviewAlone(env: Env, s: Server, task: nat, developer: string, player: string, claimId: string,
                    action: ReviewAction, note: Option<string>, readable: bool, io: Inputs)
    requires task !in s.tasks
    ensures var after := Serve(env, s, [Snapshot(task, developer, player, claimId, action), Lookup(task, readable),
                                        Commit(task, note, io)]);
      && after.registry == s.registry && after.loaded == s.loaded && after.tasks == s.tasks
      && (!Holds(ClaimsOf(s.world.desk.held, player), claimId) ==> after.world == s.world)
      && forall i: nat | IsFirst(ClaimsOf(s.world.desk.held, player), i, claimId) ::
           ReviewedAlone(env, s, after.world, developer, player, i, action, note, readable, io)
  {
    hide Next, Key, Serve, Registers, NextEvent;
    ServeThree(env, s, Snapshot(task, developer, player, claimId, action), Lookup(task, readable),
               Commit(task, note, io));
    FoundIsFirst(ClaimsOf(s.world.desk.held, player), claimId);
    var t := ReadyToCommit(env, s, task, developer, player, claimId, action, readable);
    CommitsReady(env, s, task, t, note, io);
  }

  lemma CommitsReady(env: Env, s: Server, task: nat, t: Option<Task>, note: Option<string>, io: Inputs)
    requires task !in s.tasks && (t.Some? ==> t.value.phase.LookedUp?)
    ensures var mid := if t.Some? then s.(tasks := s.tasks[task := t.value]) else s;
      NextEvent(env, mid, Commit(task, note, io))
      == if t.Some? then s.(world := Next(env, s.world, CommitStep(t.value, note, io))) else s
  {
    hide Next;
    if t.Some? {
      InAndOut(s.tasks, task, t.value);
    }
  }

  // ---------------------------------------------------------------- registrations

  lemma ServeTwo(env: Env, s: Server, a: Event, b: Event)
    ensures Serve(env, s, [a, b]) == NextEvent(env, NextEvent(env, s, a), b)
  {
    hide NextEvent;
    assert [a, b][..1] == [a] && [a][..0] == [];
    assert Serve(env, s, [a]) == NextEvent(env, s, a);
  }

  /** A registration with nothing in between stores its definition under its key, keeping the
      others unless the file could not be read. */
  lemma RegistrationAlone(env: Env, s: Server, handler: nat, readable: bool, def: AchievementDefinition)
    ensures var after := Serve(env, s, [LoadRegistry(handler, readable), SaveRegistry(handler, def)]);
      && after.registry == (if readable then s.registry else map[])[Key(def.Id()) := def]
      && after.world == s.world && after.tasks == s.tasks
  {
    hide Key;
    ServeTwo(env, s, LoadRegistry(handler, readable), SaveRegistry(handler, def));
  }

  /** Of two registrations that both load before either saves, only the later one is stored. */
  lemma RacingRegistrationIsLost(env: Env, s: Server, a: nat, b: nat, first: AchievementDefinition,
                                 second: AchievementDefinition)
    requires a != b && Key(first.Id()) != Key(second.Id()) && Key(first.Id()) !in s.registry
    ensures var after := Serve(env, s, [LoadRegistry(a, true), LoadRegistry(b, true)]
                                       + [SaveRegistry(a, first), SaveRegistry(b, second)]);
      && Key(first.Id()) !in after.registry
      && Key(second.Id()) in after.registry && after.registry[Key(second.Id())] == second
  {
    hide Key;
    var loads := [LoadRegistry(a, true), LoadRegistry(b, true)];
    var saves := [SaveRegistry(a, first), SaveRegistry(b, second)];
    ServeAppend(env, s, loads, saves);
    ServeTwo(env, s, loads[0], loads[1]);
    ServeTwo(env, Serve(env, s, loads), saves[0], saves[1]);
  }

  lemma {:induction false} ServeAppend(env: Env, s: Server, a: seq<Event>, b: seq<Event>)
    ensures Serve(env, s, a + b) == Serve(env, Serve(env, s, a), b)
  {
    hide NextEvent;
    if b == [] {
      assert a + b == a;
    } else {
      var n := |b| - 1;
      var all := a + b;
      assert all[..|all| - 1] == a + b[..n] && all[|all| - 1] == b[n];
      ServeAppend(env, s, a, b[..n]);
    }
  }
}
