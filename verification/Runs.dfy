/** The service as a state machine: operations and restarts over memory and disk, with the
    clock, the transaction ids used so far, and what each promotion caused. */
module Runs {
  import opened Common
  import opened Order
  import opened BitVectors
  import opened Blockchain
  import opened Registry
  import opened Journal
  import opened Claims

  datatype Op =
    | CreateProfileOp(player: string, name: string)
    | SetVectorOp(player: string, vec: BitVec)
    | MergeVectorOp(player: string, vec: BitVec)
    | AwardAchievementOp(player: string, achievement: AchievementDefinition)
    | AwardEntitlementOp(player: string, entitlement: EntitlementDefinition, quantity: nat, expiration: Option<string>)
    | SubmitClaimOp(player: string, input: ClaimInput)
    | ReviewClaimOp(player: string, claimId: string, reviewer: string, action: ReviewAction,
                    note: Option<string>, definition: Option<AchievementDefinition>)
    | RestartOp(ids: seq<string>, now: Launch, faults: ReadFaults)

  /** The claim a promotion was about. */
  datatype ClaimRef = ClaimRef(player: string, claimId: string)

  /** Memory and disk, the last clock reading, the transaction ids handed out so far, and for
      every transaction a promotion caused, the promoted claim. */
  datatype World = World(book: Book, desk: Desk, clock: string, used: set<string>, promoted: map<string, ClaimRef>)

  datatype Step = Step(op: Op, io: Inputs)

  /** The first start on empty storage. */
  function Initial(env: Env, now: Launch): World {
    World(Book(EMPTY_INDEX, [GenesisBlock(now.at, now.version)], map[]), Desk(map[], map[]), now.at, {}, map[])
  }

  /** One operation on the book alone. */
  function NextBook(env: Env, b: Book, op: Op, io: Inputs): Book
    requires !op.ReviewClaimOp? && !op.RestartOp?
  {
    match op
    case CreateProfileOp(player, name) => CreateProfile(env, b, player, name, io).0
    case SetVectorOp(player, vec) => SetVector(env, b, player, vec, io).0
    case MergeVectorOp(player, vec) => if Mergeable(b, player, vec) then MergeVector(env, b, player, vec, io).0 else b
    case AwardAchievementOp(player, def) => AwardAchievement(env, b, player, def, io).0
    case AwardEntitlementOp(player, def, quantity, expiration) =>
      AwardEntitlement(env, b, player, def, quantity, expiration, io).0
    case SubmitClaimOp(_, _) => b
  }

  /** One step: every operation may consume its fresh id and reads the clock; a crash is a
      storage failure followed by a restart. */
  function Next(env: Env, w: World, step: Step): World {
    var io := step.io;
    match step.op
    case ReviewClaimOp(player, claimId, reviewer, action, note, definition) =>
      var (book, desk, result) :=
        ReviewClaim(env, w.book, w.desk, player, claimId, reviewer, action, note, definition, io);
      World(book, desk, io.minedAt, w.used + {io.transactionId},
            if book == w.book then w.promoted else w.promoted[io.transactionId := ClaimRef(player, claimId)])
    case RestartOp(ids, now, faults) =>
      w.(book := ReplayBook(env, w.book.logs, ids, faults, now), desk := ReplayDesk(w.desk.saved, ids, faults))
    case SubmitClaimOp(player, input) =>
      w.(desk := SubmitClaim(env, w.book, w.desk, player, input, io).0,
         clock := io.minedAt, used := w.used + {io.transactionId})
    case _ =>
      w.(book := NextBook(env, w.book, step.op, io), clock := io.minedAt, used := w.used + {io.transactionId})
  }

  /** Transaction ids are fresh and the clock does not go back; a restart lists every log. */
  predicate Admissible(w: World, step: Step) {
    if step.op.RestartOp? then Lists(step.op.ids, w.book.logs)
    else
      && step.io.transactionId !in w.used
      && IsStamp(step.io.minedAt)
      && TextLe(w.clock, step.io.minedAt)
  }

  /** The step is no restart that failed to read something. */
  predicate ReadsAll(step: Step) {
    step.op.RestartOp? ==> step.op.faults == NO_FAULTS
  }

  /** The step is no restart that failed to list the players or to read this player's claim
      set; it may fail to read anything else. */
  predicate ReadsClaimsOf(step: Step, player: string) {
    step.op.RestartOp? ==> !step.op.faults.listing && player !in step.op.faults.claims
  }

  predicate AllReadsWork(steps: seq<Step>) {
    forall i | 0 <= i < |steps| :: ReadsAll(steps[i])
  }

  predicate ClaimReadsWork(steps: seq<Step>, player: string) {
    forall i | 0 <= i < |steps| :: ReadsClaimsOf(steps[i], player)
  }

  predicate NoRestarts(steps: seq<Step>) {
    forall i | 0 <= i < |steps| :: !steps[i].op.RestartOp?
  }

  function Run(env: Env, w: World, steps: seq<Step>): World {
    if steps == [] then w else Next(env, Run(env, w, steps[..|steps| - 1]), steps[|steps| - 1])
  }

  predicate AdmissibleRun(env: Env, w: World, steps: seq<Step>) {
    steps == []
    || (AdmissibleRun(env, w, steps[..|steps| - 1])
        && Admissible(Run(env, w, steps[..|steps| - 1]), steps[|steps| - 1]))
  }

  ghost predicate ReachedBy(env: Env, now: Launch, steps: seq<Step>, w: World) {
    AdmissibleRun(env, Initial(env, now), steps) && w == Run(env, Initial(env, now), steps)
  }

  /** A state some run of processes, failed writes and restarts leads to from empty storage,
      whatever the restarts fail to read. */
  ghost predicate Reached(env: Env, w: World) {
    exists now, steps :: ReachedBy(env, now, steps, w)
  }

  /** The same when restarts list the players and read this player's claim set. */
  ghost predicate ReachedReading(env: Env, w: World, player: string) {
    exists now, steps :: ReachedBy(env, now, steps, w) && ClaimReadsWork(steps, player)
  }

  lemma {:induction false} RunAppend(env: Env, w: World, a: seq<Step>, b: seq<Step>)
    ensures Run(env, w, a + b) == Run(env, Run(env, w, a), b)
    ensures AdmissibleRun(env, w, a + b) <==> AdmissibleRun(env, w, a) && AdmissibleRun(env, Run(env, w, a), b)
  {
    hide Next, Admissible;
    if b == [] {
      assert a + b == a;
    } else {
      var n := |b| - 1;
      assert (a + b)[..|a + b| - 1] == a + b[..n];
      RunAppend(env, w, a, b[..n]);
    }
  }

  lemma RunOne(env: Env, w: World, step: Step)
    ensures Run(env, w, [step]) == Next(env, w, step)
    ensures AdmissibleRun(env, w, [step]) <==> Admissible(w, step)
  {
    hide Next, Admissible;
    assert [step][..0] == [];
  }
}
