/** Exactly when the repository's validator takes what a runner writes, and how long a runner
    can go on. */
module WorkdayAcceptance {
  import opened Collections
  import opened AgentCompany
  import opened WorkdayMachine
  import opened WorkdayShape
  import opened WorkdayInvariants
  import opened WorkdayTheorems

  /** Bounds a caller can check before the update: attempts so far, the clock's elapsed time,
      the size of the output, the error text. */
  predicate WithinBounds(co: Company, r: Runner, a: Action) {
    match a
    case Advance(_, _, _) =>
      r.AtTask? && (r.next < |co.catalog| ==> r.next < |r.record.tasks| && r.record.tasks[r.next].attempts < 100)
    case Finish(_, attempt, end, _, _) =>
      && r.Executing? && r.current < |co.catalog| && Elapsed(r.started, end) <= 86_400_000
      && AttemptFits(co.catalog[r.current], attempt)
    case Catch(_, error, end, _, _) =>
      r.Catching? && Elapsed(r.started, end) <= 86_400_000 && MessageFits(error)
    case _ => false
  }

  /** The output says something, is not a developer's that fails to deny having implemented, not a
      blocked business dossier or content package, declares no external effect and stays within the
      budget. */
  predicate IsClean(agent: Agent, output: Output, maxBudgetCents: int) {
    && output.keys > 0 && !output.externalEffect && output.costCents <= maxBudgetCents
    && (agent.DeveloperAgent? ==> output.implementationDenied)
    && (agent.BusinessAgent? || agent.ContentProducer? ==> !output.blocked)
  }

  /** The error's message can be stored; any other error has a text that can. */
  predicate MessageFits(error: Failure) {
    match error
    case ConflictError(m) => |m| <= 4_000 && exists i :: 0 <= i < |m| && m[i] !in " \t\r\n"
    case ValidationError(m) => |m| <= 4_000 && exists i :: 0 <= i < |m| && m[i] !in " \t\r\n"
    case OtherError => true
  }

  predicate AttemptFits(agent: Agent, attempt: Attempt) {
    match attempt
    case Threw(error) => MessageFits(error)
    case Executed(output, maxBudgetCents) => IsClean(agent, output, maxBudgetCents) ==> output.bytes <= 65_536
  }

  lemma MessageFitsExactly(error: Failure)
    ensures MessageFits(error) <==> FindingOk(Message(SafeBlocker(error)))
  {
    if error.OtherError? {
      assert |UNFINISHED| == 58 && UNFINISHED[57] == '.';
    }
  }

  /** Only the rewritten task decides. */
  lemma RewrittenTaskDecides(co: Company, w: Workday, i: nat, t: Task, next: Workday)
    requires RecordOk(co, w) && w.status.DayRunning? && i < |w.tasks| && next.tasks == w.tasks[i := t]
    requires t.agent == w.tasks[i].agent && !next.status.AwaitingFabio?
    requires next.status.DayBlocked? ==> t.status.Blocked?
    ensures RecordOk(co, next) <==> TaskOk(co, t)
  {
    hide TaskOk;
    assert next.tasks[i] == t;
    assert forall k :: 0 <= k < |w.tasks| ==> w.tasks[k] in w.tasks;
  }

  lemma StartAccepted(co: Company, w: Workday, i: nat, now: int)
    requires GoodRecord(co, w) && w.status.DayRunning? && i < |w.tasks| && !w.tasks[i].status.Completed?
    ensures RecordOk(co, MarkRunning(w, co.catalog[i], now)) <==> w.tasks[i].attempts < 100
  {
    var t := StartTask(w.tasks[i], now);
    RewritesAt(co, w, i, now, Output(0, 0, 0, false, false, false, 0), ExecutorOutputUnverified, [], 0);
    MarkRunningFields(w, co.catalog[i], now);
    assert w.tasks[i] in w.tasks;
    assert TaskOk(co, w.tasks[i]) && !w.tasks[i].status.Blocked?;
    hide MarkRunning, Shape, Conserved, RecordOk;
    assert TaskOk(co, t) <==> w.tasks[i].attempts < 100;
    hide TaskOk;
    RewrittenTaskDecides(co, w, i, t, MarkRunning(w, co.catalog[i], now));
  }

  /** Gates over a few coded findings. */
  predicate Coded(g: Gate) {
    && |g.findings| <= 4 && (forall f :: f in g.findings ==> !f.Message?)
    && g == MakeGate(g.name, g.findings)
  }

  lemma GatesAreCoded(agent: Agent, output: Output, maxBudgetCents: int)
    ensures
      var gs := Gates(agent, output, maxBudgetCents);
      && |gs| == 3 && gs[0].name == Quality && gs[1].name == Risk && gs[2].name == Cost
      && Coded(gs[0]) && Coded(gs[1]) && Coded(gs[2])
  {
  }

  lemma GatesAreWellFormed(agent: Agent, output: Output, maxBudgetCents: int)
    ensures GatesOk(Gates(agent, output, maxBudgetCents))
    ensures
      var blocked := FirstBlockedGate(Gates(agent, output, maxBudgetCents));
      blocked.Some? ==> BlockerOk(GateBlocked(blocked.value.name, blocked.value.findings))
  {
    hide Gates;
    GatesAreCoded(agent, output, maxBudgetCents);
    var gs := Gates(agent, output, maxBudgetCents);
    assert forall g :: g in gs ==> g == gs[0] || g == gs[1] || g == gs[2];
  }

  /** The gates let an output through exactly when it is clean. */
  lemma GatesPassExactly(agent: Agent, output: Output, maxBudgetCents: int)
    ensures FirstBlockedGate(Gates(agent, output, maxBudgetCents)).None? <==> IsClean(agent, output, maxBudgetCents)
  {
    var gs := Gates(agent, output, maxBudgetCents);
    assert gs[0] in gs && gs[1] in gs && gs[2] in gs;
    assert forall g :: g in gs ==> g == gs[0] || g == gs[1] || g == gs[2];
  }

  lemma BlockedGatesAreWellFormed(error: Failure)
    ensures GatesOk(BlockedGates(error)) <==> FindingOk(Message(SafeBlocker(error)))
  {
    var gs := BlockedGates(error);
    assert gs[0] in gs && gs[0].findings[0] == Message(SafeBlocker(error));
    assert Message(SafeBlocker(error)) in gs[0].findings;
  }

  lemma AttemptAccepted(co: Company, w: Workday, i: nat, attempt: Attempt, ms: int, now: int)
    requires GoodRecord(co, w) && w.status.DayRunning? && i < |w.tasks| && w.tasks[i].status.Running? && 0 <= ms
    ensures RecordOk(co, AttemptProposal(co.catalog[i], w, attempt, ms, now))
            <==> ms <= 86_400_000 && AttemptFits(co.catalog[i], attempt)
  {
    var next := AttemptProposal(co.catalog[i], w, attempt, ms, now);
    AttemptRewrites(co, w, i, attempt, ms, now);
    assert w.tasks[i] in w.tasks;
    RewrittenTaskDecides(co, w, i, next.tasks[i], next);
    AttemptTaskAccepted(co, w, i, attempt, ms, now);
  }

  lemma AttemptTaskAccepted(co: Company, w: Workday, i: nat, attempt: Attempt, ms: int, now: int)
    requires Bound(co, w) && i < |w.tasks| && TaskOk(co, w.tasks[i]) && w.tasks[i].startedAt.Some?
    requires w.tasks[i].status.Running? && 0 <= ms
    requires |AttemptProposal(co.catalog[i], w, attempt, ms, now).tasks| == |w.tasks|
    ensures TaskOk(co, AttemptProposal(co.catalog[i], w, attempt, ms, now).tasks[i])
            <==> ms <= 86_400_000 && AttemptFits(co.catalog[i], attempt)
  {
    hide GatesOk, Gates, BlockedGates;
    match attempt {
      case Threw(error) =>
        BlockedGatesAreWellFormed(error);
        MessageFitsExactly(error);
      case Executed(output, maxBudgetCents) =>
        GatesAreWellFormed(co.catalog[i], output, maxBudgetCents);
        GatesPassExactly(co.catalog[i], output, maxBudgetCents);
    }
  }

  /** In every reachable state of a company with a topological catalogue, whatever any runner
      proposes to store passes the validator exactly when it stays within the bounds. */
  lemma ValidatorAcceptsExactly(co: Company, actions: seq<Action>, a: Action, next: Workday)
    requires WellFormed(co) && Topological(co.catalog, co.dependencies)
    requires ProposalOf(co, Reached(co, actions), a) == Some(next)
    ensures a.runner in Reached(co, actions).runners
    ensures RecordOk(co, next) <==> WithinBounds(co, Reached(co, actions).runners[a.runner], a)
  {
    var sys := Reached(co, actions);
    ReachedIsSound(co, actions);
    ProposalNeedsRunner(co, sys, a);
    var r := sys.runners[a.runner];
    RunnerIsRunning(co, sys, a.runner);
    assert RunnerOk(co, r, sys.log);
    assert Bound(co, r.record);
    hide Run, Reached, LogOk, StoreOk, RecordOk, InOrder, ClosedUnderDependencies, Coherent, Conserved, Incomplete,
         AttemptProposal, AttemptFits, MarkRunning, WellFormed;
    match a {
      case Advance(_, now, _) =>
        if r.next < |co.catalog| {
          HeadIsReady(co, r.record, r.next);
          StartAccepted(co, r.record, r.next, now);
        } else {
          AwaitIsGood(co, r.record);
        }
      case Finish(_, attempt, end, now, _) =>
        AttemptAccepted(co, r.record, r.current, attempt, Elapsed(r.started, end), now);
      case Catch(_, error, end, now, _) =>
        AttemptAccepted(co, r.record, r.current, Threw(error), Elapsed(r.started, end), now);
        ThrewFits(co.catalog[r.current], error);
    }
  }

  lemma ThrewFits(agent: Agent, error: Failure)
    ensures AttemptFits(agent, Threw(error)) == MessageFits(error)
  {
  }

  // ------------------------------------------------------------------- termination

  /** Steps a runner can still make before it returns or throws. */
  function Remaining(co: Company, r: Runner): nat {
    match r
    case Inserting(_) => 2 * |co.catalog| + 3
    case AtTask(i, _) => if i <= |co.catalog| then 2 * (|co.catalog| - i) + 2 else 1
    case Executing(i, _, _) => if i < |co.catalog| then 2 * (|co.catalog| - i) + 1 else 1
    case Catching(_, _, _) => 1
    case Returned(_) => 0
    case Thrown => 0
  }

  /** The action is this runner's next transaction, and one its executor can produce. */
  predicate Moves(co: Company, sys: System, a: Action, runner: nat) {
    && a.runner == runner && runner in sys.runners
    && match sys.runners[runner]
       case Inserting(_) => a.Insert?
       case AtTask(_, _) => a.Advance?
       case Executing(i, _, _) =>
         a.Finish? && i < |co.catalog| && CanProduce(co, co.catalog[i], a.attempt)
       case Catching(i, _, _) => a.Catch? && i < |co.catalog|
       case _ => false
  }

  lemma MoveCounts(co: Company, sys: System, a: Action, runner: nat)
    requires WellFormed(co) && Moves(co, sys, a, runner)
    ensures runner in Step(co, sys, a).runners
    ensures Remaining(co, Step(co, sys, a).runners[runner]) < Remaining(co, sys.runners[runner])
  {
    hide WellFormed, Update, TaskOf, Incomplete, MarkRunning, Complete, Block;
  }

  lemma OthersDoNotMove(co: Company, sys: System, a: Action, runner: nat)
    requires WellFormed(co) && runner in sys.runners && !Moves(co, sys, a, runner) && a != Crash(runner)
    ensures runner in Step(co, sys, a).runners && Step(co, sys, a).runners[runner] == sys.runners[runner]
  {
    hide WellFormed, Update, TaskOf, Incomplete, AttemptProposal, MarkRunning;
  }

  function MovesOf(co: Company, sys: System, actions: seq<Action>, runner: nat): nat
    requires WellFormed(co)
    decreases |actions|
  {
    if actions == [] then 0
    else
      (if Moves(co, sys, actions[0], runner) then 1 else 0)
      + MovesOf(co, Step(co, sys, actions[0]), actions[1..], runner)
  }

  lemma {:induction false} MovesAreBounded(co: Company, sys: System, actions: seq<Action>, runner: nat)
    requires WellFormed(co) && runner in sys.runners && Crash(runner) !in actions
    ensures runner in Run(co, sys, actions).runners
    ensures MovesOf(co, sys, actions, runner) + Remaining(co, Run(co, sys, actions).runners[runner])
            <= Remaining(co, sys.runners[runner])
    decreases |actions|
  {
    if actions != [] {
      hide Step, Moves, Remaining, WellFormed;
      if Moves(co, sys, actions[0], runner) {
        MoveCounts(co, sys, actions[0], runner);
      } else {
        OthersDoNotMove(co, sys, actions[0], runner);
      }
      MovesAreBounded(co, Step(co, sys, actions[0]), actions[1..], runner);
    }
  }

  lemma LoadedRunner(co: Company, sys: System, runner: nat, input: nat)
    requires WellFormed(co) && runner !in sys.runners
    ensures
      var loaded := Step(co, sys, Load(runner, input));
      runner in loaded.runners && Remaining(co, loaded.runners[runner]) <= 2 * |co.catalog| + 3
  {
  }

  /** Every run terminates: however the others interleave, a runner makes at most 2n + 3
      transactions after its first read, and stops moving only because it returned or threw. */
  lemma EveryRunTerminates(co: Company, actions: seq<Action>, runner: nat, input: nat, more: seq<Action>)
    requires WellFormed(co) && runner !in Reached(co, actions).runners && Crash(runner) !in more
    ensures
      var loaded := Step(co, Reached(co, actions), Load(runner, input));
      && MovesOf(co, loaded, more, runner) <= 2 * |co.catalog| + 3
      && runner in Run(co, loaded, more).runners
      && (MovesOf(co, loaded, more, runner) == 2 * |co.catalog| + 3 ==>
            Run(co, loaded, more).runners[runner].Returned? || Run(co, loaded, more).runners[runner].Thrown?)
  {
    var loaded := Step(co, Reached(co, actions), Load(runner, input));
    LoadedRunner(co, Reached(co, actions), runner, input);
    hide Reached, Run, Step, MovesOf;
    MovesAreBounded(co, loaded, more, runner);
  }

  lemma InCatalogueCanMove(co: Company, sys: System, runner: nat)
    requires runner in sys.runners && !sys.runners[runner].Returned? && !sys.runners[runner].Thrown?
    requires sys.runners[runner].Executing? || sys.runners[runner].Catching? ==>
               sys.runners[runner].current < |co.catalog|
    ensures exists a :: Moves(co, sys, a, runner)
  {
    match sys.runners[runner] {
      case Inserting(_) => assert Moves(co, sys, Insert(runner, true), runner);
      case AtTask(_, _) => assert Moves(co, sys, Advance(runner, 0, true), runner);
      case Executing(i, _, _) =>
        var error := if co.catalog[i] in co.failing then co.failing[co.catalog[i]] else OtherError;
        assert Moves(co, sys, Finish(runner, Threw(error), 0, 0, true), runner);
      case Catching(_, _, _) => assert Moves(co, sys, Catch(runner, OtherError, 0, 0, true), runner);
    }
  }

  /** An unfinished runner always has a next transaction. */
  lemma NeverStuck(co: Company, actions: seq<Action>, runner: nat)
    requires WellFormed(co) && runner in Reached(co, actions).runners
    requires !Reached(co, actions).runners[runner].Returned? && !Reached(co, actions).runners[runner].Thrown?
    ensures exists a :: Moves(co, Reached(co, actions), a, runner)
  {
    var sys := Reached(co, actions);
    ReachedIsSound(co, actions);
    hide Run, Reached, Conserved, InOrder, ClosedUnderDependencies, StartedAfterDependencies, Coherent, RecordOk,
         StoreOk, EventsOf, CompletedBefore, WellFormed, Moves;
    assert RunnerOk(co, sys.runners[runner], sys.log);
    InCatalogueCanMove(co, sys, runner);
  }
}
