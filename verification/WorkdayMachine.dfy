/** `run` of src/agent-company/operational-agent-company-service.ts as a machine of racing
    runners over one workday.  A runner makes one transaction per step, may stop for good
    between any two, and brings its own clock and its own executor results.  `log` is
    bookkeeping: every record ever stored, in order. */
module WorkdayMachine {
  import opened Collections
  import opened AgentCompany

  datatype Runner =
    | Inserting(initial: Workday)
    | AtTask(next: nat, record: Workday)
    | Executing(current: nat, record: Workday, started: int)
    | Catching(current: nat, record: Workday, started: int)
    | Returned(record: Workday)
    | Thrown

  datatype Attempt = Executed(output: Output, maxBudgetCents: int) | Threw(error: Failure)

  /** One step of one runner.  `fits` says whether the database takes the record it is given. */
  datatype Action =
    | Load(runner: nat, input: nat)
    | Insert(runner: nat, fits: bool)
    | Advance(runner: nat, now: int, fits: bool)
    | Finish(runner: nat, attempt: Attempt, end: int, now: int, fits: bool)
    | Catch(runner: nat, error: Failure, end: int, now: int, fits: bool)
    | Crash(runner: nat)

  datatype System = System(store: Store, runners: map<nat, Runner>, log: seq<Workday>)

  const START := System(Store(None, []), map[], [])

  /** An executor that always throws produces nothing else. */
  predicate CanProduce(co: Company, agent: Agent, attempt: Attempt) {
    agent in co.failing ==> attempt == Threw(co.failing[agent])
  }

  function DependencyBlock(w: Workday, t: Task, now: int): Workday {
    Block(w, t.agent, DependencyNotCompleted(Incomplete(w, t.dependencies)), BlockedGates(OtherError), 0, now)
  }

  /** The head of the loop: what a runner at task `i` proposes to the database, if anything. */
  function AdvanceProposal(co: Company, i: nat, w: Workday, now: int): Option<Workday> {
    if i >= |co.catalog| then Some(AwaitFabio(w))
    else
      var t := TaskOf(w, co.catalog[i]);
      if t.None? || t.value.status.Completed? then None
      else if Incomplete(w, t.value.dependencies) != [] then Some(DependencyBlock(w, t.value, now))
      else Some(MarkRunning(w, t.value.agent, now))
  }

  /** The update that ends the attempt, unless the database refuses it. */
  function AttemptProposal(agent: Agent, w: Workday, attempt: Attempt, durationMs: int, now: int): Workday {
    match attempt
    case Threw(error) => Block(w, agent, ExecutorBlocker(error), BlockedGates(error), durationMs, now)
    case Executed(output, maxBudgetCents) =>
      var gates := Gates(agent, output, maxBudgetCents);
      var blocked := FirstBlockedGate(gates);
      if blocked.None? then Complete(w, agent, output, gates, durationMs, now)
      else Block(w, agent, GateBlocked(blocked.value.name, blocked.value.findings), gates, durationMs, now)
  }

  /** What the runner of `a` proposes to the database in this step, and what it read before. */
  function ProposalOf(co: Company, sys: System, a: Action): Option<Workday> {
    if a.runner !in sys.runners then None
    else
      var r := sys.runners[a.runner];
      match a
      case Advance(_, now, _) => if r.AtTask? then AdvanceProposal(co, r.next, r.record, now) else None
      case Finish(_, attempt, end, now, _) =>
        if !r.Executing? || r.current >= |co.catalog| then None
        else if !CanProduce(co, co.catalog[r.current], attempt) then None
        else Some(AttemptProposal(co.catalog[r.current], r.record, attempt, Elapsed(r.started, end), now))
      case Catch(_, error, end, now, _) =>
        if !r.Catching? || r.current >= |co.catalog| then None
        else
          Some(AttemptProposal(co.catalog[r.current], r.record, Threw(error), Elapsed(r.started, end), now))
      case _ => None
  }

  function Fits(a: Action): bool {
    match a
    case Insert(_, fits) => fits
    case Advance(_, _, fits) => fits
    case Finish(_, _, _, _, fits) => fits
    case Catch(_, _, _, _, fits) => fits
    case _ => true
  }

  /** Where a runner goes once its update committed. */
  function AfterCommit(r: Runner, a: Action, next: Workday): Runner {
    if next.status != DayRunning then Returned(next)
    else
      match a
      case Advance(_, now, _) => if r.AtTask? then Executing(r.next, next, now) else Thrown
      case Finish(_, _, _, _, _) => if r.Executing? then AtTask(r.current + 1, next) else Thrown
      case _ => Thrown
  }

  /** Where it goes when the database refused: only the body of the loop has a handler. */
  function AfterRefusal(r: Runner, a: Action): Runner {
    if a.Finish? && r.Executing? && a.attempt.Executed? then Catching(r.current, r.record, r.started) else Thrown
  }

  function LoadStep(co: Company, sys: System, runner: nat, input: nat): Runner
    requires WellFormed(co)
  {
    if sys.store.record.None? then Inserting(Initial(co, input))
    else
      var w := sys.store.record.value;
      if w.input != input then Thrown
      else if w.status != DayRunning then Returned(w)
      else AtTask(0, w)
  }

  function Step(co: Company, sys: System, a: Action): System
    requires WellFormed(co)
  {
    var proposal := ProposalOf(co, sys, a);
    if proposal.Some? then
      var r := sys.runners[a.runner];
      var stored := Update(co, sys.store, r.record, proposal.value, Fits(a));
      if stored.None? then sys.(runners := sys.runners[a.runner := AfterRefusal(r, a)])
      else
        System(stored.value, sys.runners[a.runner := AfterCommit(r, a, proposal.value)], sys.log + [proposal.value])
    else
      match a
      case Load(runner, input) =>
        if runner in sys.runners then sys else sys.(runners := sys.runners[runner := LoadStep(co, sys, runner, input)])
      case Insert(runner, fits) =>
        if runner !in sys.runners || !sys.runners[runner].Inserting? then sys
        else
          var initial := sys.runners[runner].initial;
          var stored := AgentCompany.Insert(co, sys.store, initial, fits);
          if stored.None? then sys.(runners := sys.runners[runner := Thrown])
          else System(stored.value, sys.runners[runner := AtTask(0, initial)], sys.log + [initial])
      case Advance(runner, _, _) =>
        if runner !in sys.runners || !sys.runners[runner].AtTask? then sys
        else sys.(runners := sys.runners[runner := SkipCompleted(co, sys.runners[runner])])
      case Crash(runner) => sys.(runners := sys.runners - {runner})
      case _ => sys
  }

  /** The head of the loop without an update: `continue`, or a task the record does not have. */
  function SkipCompleted(co: Company, r: Runner): Runner
    requires r.AtTask?
  {
    if r.next < |co.catalog| && TaskOf(r.record, co.catalog[r.next]).Some? then AtTask(r.next + 1, r.record) else Thrown
  }

  function Run(co: Company, sys: System, actions: seq<Action>): System
    requires WellFormed(co)
    decreases |actions|
  {
    if actions == [] then sys else Run(co, Step(co, sys, actions[0]), actions[1..])
  }
}
