/** What every reachable state of the racing runners satisfies, and that every step keeps it. */
module WorkdayInvariants {
  import opened Collections
  import opened AgentCompany
  import opened WorkdayMachine
  import opened WorkdayShape

  ghost predicate GoodRecord(co: Company, w: Workday) {
    Shape(co, w) && Conserved(w) && RecordOk(co, w)
  }

  /** The runner holds a record it may propose to update. */
  predicate MayUpdate(r: Runner) {
    r.AtTask? || r.Executing? || r.Catching?
  }

  predicate CompletedBefore(w: Workday, i: nat) {
    i <= |w.tasks| && forall j :: 0 <= j < i ==> w.tasks[j].status.Completed?
  }

  /** What one update may do to the record stored before it. */
  ghost predicate Follows(w: Workday, next: Workday) {
    w.status.DayRunning? && Keeps(w, next) && next.input == w.input && next.version == w.version + 1
  }

  ghost predicate LogOk(co: Company, log: seq<Workday>) {
    && (forall v :: 0 <= v < |log| ==> log[v].version == v && GoodRecord(co, log[v]))
    && (forall v :: 0 <= v < |log| - 1 ==> Follows(log[v], log[v + 1]))
  }

  function EventsOf(log: seq<Workday>): seq<Event> {
    if log == [] then []
    else
      var w := log[|log| - 1];
      EventsOf(log[..|log| - 1]) + [TaskChanged(w.version)]
      + if w.status.AwaitingFabio? then [ApprovalRequested(w.version)] else []
  }

  ghost predicate StoreOk(store: Store, log: seq<Workday>) {
    && store.record == (if log == [] then None else Some(log[|log| - 1]))
    && store.events == EventsOf(log)
  }

  ghost predicate Snapshot(w: Workday, log: seq<Workday>) {
    w.version < |log| && log[w.version] == w
  }

  ghost predicate RunnerOk(co: Company, r: Runner, log: seq<Workday>) {
    match r
    case Inserting(initial) => WellFormed(co) && initial == Initial(co, initial.input)
    case AtTask(i, w) => Snapshot(w, log) && w.status.DayRunning? && CompletedBefore(w, i)
    case Executing(i, w, _) =>
      Snapshot(w, log) && w.status.DayRunning? && CompletedBefore(w, i) && i < |w.tasks| && w.tasks[i].status.Running?
    case Catching(i, w, _) =>
      && Snapshot(w, log) && w.status.DayRunning? && CompletedBefore(w, i) && i < |w.tasks|
      && w.tasks[i].status.Running? && i < |co.catalog| && co.catalog[i] !in co.failing
    case Returned(w) => Snapshot(w, log) && !w.status.DayRunning?
    case Thrown => true
  }

  ghost predicate Inv(co: Company, sys: System)
  {
    && WellFormed(co) && LogOk(co, sys.log) && StoreOk(sys.store, sys.log)
    && forall r :: r in sys.runners ==> RunnerOk(co, sys.runners[r], sys.log)
  }

  // ------------------------------------------------------------------- proposals

  /** `next` is what an update stores after `w`. */
  ghost predicate GoodStep(co: Company, w: Workday, next: Workday) {
    GoodRecord(co, next) && Follows(w, next)
  }

  lemma MarkRunningIsGood(co: Company, w: Workday, i: nat, now: int)
    requires GoodRecord(co, w) && w.status.DayRunning? && CompletedBefore(w, i) && i < |w.tasks|
    requires !w.tasks[i].status.Completed? && Incomplete(w, w.tasks[i].dependencies) == []
    requires RecordOk(co, MarkRunning(w, co.catalog[i], now))
    ensures GoodStep(co, w, MarkRunning(w, co.catalog[i], now))
    ensures MarkRunning(w, co.catalog[i], now).tasks[i].status.Running?
    ensures CompletedBefore(MarkRunning(w, co.catalog[i], now), i)
  {
    var next := MarkRunning(w, co.catalog[i], now);
    RewritesAt(co, w, i, now, Output(0, 0, 0, false, false, false, 0), ExecutorOutputUnverified, [], 0);
    NothingIncomplete(co, w, w.tasks[i].dependencies);
    assert w.tasks[i] in w.tasks;
    hide MarkRunning, RecordOk, Incomplete;
    assert next.status == DayRunning && next.version == w.version + 1 && next.input == w.input by {
      MarkRunningFields(w, co.catalog[i], now);
    }
    OneTaskMovesOn(co, w, i, StartTask(w.tasks[i], now), next);
    MovingOnConserves(w, i, StartTask(w.tasks[i], now), next);
  }

  lemma MarkRunningFields(w: Workday, agent: Agent, now: int)
    ensures
      var next := MarkRunning(w, agent, now);
      next.status == DayRunning && next.version == w.version + 1 && next.input == w.input
  {
  }

  /** A task whose dependencies are open has never started, so the block it would get lacks a
      start time and the validator refuses it: this branch never stores anything. */
  lemma DependencyBlockIsRefused(co: Company, w: Workday, i: nat, now: int)
    requires GoodRecord(co, w) && i < |w.tasks| && Incomplete(w, w.tasks[i].dependencies) != []
    ensures !RecordOk(co, DependencyBlock(w, w.tasks[i], now))
  {
    NothingIncomplete(co, w, w.tasks[i].dependencies);
    assert w.tasks[i] in w.tasks && w.tasks[i].startedAt.None?;
    hide Conserved, InOrder, ClosedUnderDependencies, Coherent, Incomplete, BlockedGates, GatesOk, BlockerOk;
    var blocker := DependencyNotCompleted(Incomplete(w, w.tasks[i].dependencies));
    RewritesAt(co, w, i, now, Output(0, 0, 0, false, false, false, 0), blocker, BlockedGates(OtherError), 0);
    var next := DependencyBlock(w, w.tasks[i], now);
    assert next.tasks[i] in next.tasks;
  }

  lemma AwaitIsGood(co: Company, w: Workday)
    requires GoodRecord(co, w) && w.status.DayRunning? && CompletedBefore(w, |w.tasks|)
    ensures GoodStep(co, w, AwaitFabio(w))
  {
    var next := AwaitFabio(w);
    assert next.tasks == w.tasks;
    forall x, d | x in next.tasks && !x.status.Queued? && d in x.dependencies
      ensures Done(next, d)
    {
      assert Done(w, d);
    }
    forall k, d | 0 <= k < |next.tasks| && !next.tasks[k].status.Queued? && d in next.tasks[k].dependencies
      ensures Before(next, k, d)
    {
      assert Before(w, k, d);
    }
  }

  lemma AttemptIsGood(co: Company, w: Workday, i: nat, attempt: Attempt, ms: int, now: int)
    requires GoodRecord(co, w) && w.status.DayRunning? && CompletedBefore(w, i) && i < |w.tasks|
    requires w.tasks[i].status.Running? && (attempt.Executed? ==> co.catalog[i] !in co.failing)
    requires RecordOk(co, AttemptProposal(co.catalog[i], w, attempt, ms, now))
    ensures
      var next := AttemptProposal(co.catalog[i], w, attempt, ms, now);
      && GoodStep(co, w, next)
      && (next.status.DayRunning? ==> CompletedBefore(next, i + 1))
  {
    AttemptRewrites(co, w, i, attempt, ms, now);
    hide AttemptProposal, GoodRecord, RecordOk, CompletedBefore;
    RunningTaskEnds(co, w, i, AttemptProposal(co.catalog[i], w, attempt, ms, now));
  }

  lemma RunningTaskEnds(co: Company, w: Workday, i: nat, next: Workday)
    requires GoodRecord(co, w) && w.status.DayRunning? && CompletedBefore(w, i) && i < |w.tasks|
    requires w.tasks[i].status.Running? && RecordOk(co, next)
    requires |next.tasks| == |w.tasks| && next.tasks == w.tasks[i := next.tasks[i]]
    requires next.tasks[i].agent == w.tasks[i].agent && next.tasks[i].dependencies == w.tasks[i].dependencies
    requires next.tasks[i].startedAt == w.tasks[i].startedAt && next.tasks[i].attempts == w.tasks[i].attempts
    requires next.tasks[i].status.Completed? || next.tasks[i].status.Blocked?
    requires next.tasks[i].status.Completed? ==> next.tasks[i].agent !in co.failing
    requires next.status == if next.tasks[i].status.Blocked? then DayBlocked else DayRunning
    requires next.version == w.version + 1 && next.input == w.input
    ensures GoodStep(co, w, next) && (next.status.DayRunning? ==> CompletedBefore(next, i + 1))
  {
    hide RecordOk, Conserved, InOrder;
    assert w.tasks[i] in w.tasks;
    OneTaskMovesOn(co, w, i, next.tasks[i], next);
    MovingOnConserves(w, i, next.tasks[i], next);
  }

  /** An attempt completes its task or blocks it and the day, keeping what was recorded of it. */
  lemma AttemptRewrites(co: Company, w: Workday, i: nat, attempt: Attempt, ms: int, now: int)
    requires Bound(co, w) && i < |w.tasks| && w.status.DayRunning?
    ensures w.tasks[i].agent == co.catalog[i]
    ensures
      var next := AttemptProposal(co.catalog[i], w, attempt, ms, now);
      && |next.tasks| == |w.tasks| && next.tasks == w.tasks[i := next.tasks[i]]
      && next.tasks[i].agent == w.tasks[i].agent && next.tasks[i].dependencies == w.tasks[i].dependencies
      && next.tasks[i].startedAt == w.tasks[i].startedAt && next.tasks[i].attempts == w.tasks[i].attempts
      && (next.tasks[i].status.Completed? || next.tasks[i].status.Blocked?)
      && (next.tasks[i].status.Completed? ==> attempt.Executed?)
      && next.status == (if next.tasks[i].status.Blocked? then DayBlocked else DayRunning)
      && next.version == w.version + 1 && next.input == w.input
  {
    match attempt {
      case Threw(error) =>
        RewritesAt(co, w, i, now, Output(0, 0, 0, false, false, false, 0), ExecutorBlocker(error),
                   BlockedGates(error), ms);
      case Executed(output, maxBudgetCents) =>
        var gates := Gates(co.catalog[i], output, maxBudgetCents);
        var blocked := FirstBlockedGate(gates);
        var blocker := if blocked.None? then ExecutorOutputUnverified
                       else GateBlocked(blocked.value.name, blocked.value.findings);
        RewritesAt(co, w, i, now, output, blocker, gates, ms);
    }
  }

  /** What a runner may store, and where storing it leaves the runner. */
  ghost predicate Storable(co: Company, r: Runner, a: Action, next: Workday, log: seq<Workday>) {
    && MayUpdate(r)
    && Snapshot(r.record, log) && GoodStep(co, r.record, next)
    && forall later: seq<Workday> :: Snapshot(next, later) ==> RunnerOk(co, AfterCommit(r, a, next), later)
  }

  lemma AdvanceIsGood(co: Company, r: Runner, a: Action, next: Workday, log: seq<Workday>)
    requires r.AtTask? && a.Advance? && RunnerOk(co, r, log) && GoodRecord(co, r.record)
    requires AdvanceProposal(co, r.next, r.record, a.now) == Some(next) && RecordOk(co, next)
    ensures Storable(co, r, a, next, log)
  {
    hide RecordOk, Conserved, InOrder, ClosedUnderDependencies, Coherent, Keeps;
    if r.next >= |co.catalog| {
      AwaitIsGood(co, r.record);
    } else {
      TaskAt(co, r.record, r.next);
      if Incomplete(r.record, r.record.tasks[r.next].dependencies) != [] {
        DependencyBlockIsRefused(co, r.record, r.next, a.now);
      } else {
        MarkRunningIsGood(co, r.record, r.next, a.now);
        MarkRunningFields(r.record, co.catalog[r.next], a.now);
      }
    }
  }

  lemma FinishedRunnerOk(co: Company, r: Runner, a: Action, next: Workday, log: seq<Workday>)
    requires (r.Executing? && a.Finish?) || (r.Catching? && a.Catch? && !next.status.DayRunning?)
    requires Snapshot(next, log) && (next.status.DayRunning? ==> CompletedBefore(next, r.current + 1))
    ensures RunnerOk(co, AfterCommit(r, a, next), log)
  {
  }

  lemma FinishIsGood(
      co: Company, r: Runner, a: Action, attempt: Attempt, ms: int, now: int, next: Workday, log: seq<Workday>)
    requires (r.Executing? && a.Finish?) || (r.Catching? && a.Catch? && attempt.Threw?)
    requires RunnerOk(co, r, log) && GoodRecord(co, r.record)
    requires attempt.Executed? ==> co.catalog[r.current] !in co.failing
    requires AttemptProposal(co.catalog[r.current], r.record, attempt, ms, now) == next && RecordOk(co, next)
    ensures Storable(co, r, a, next, log)
  {
    hide GoodStep, AttemptProposal, AfterCommit, CompletedBefore, RecordOk, InOrder, Coherent, Conserved;
    AttemptIsGood(co, r.record, r.current, attempt, ms, now);
    AttemptRewrites(co, r.record, r.current, attempt, ms, now);
    assert next.tasks[r.current].status.Completed? ==> attempt.Executed?;
    hide RunnerOk, GoodRecord;
    forall later: seq<Workday> | Snapshot(next, later)
      ensures RunnerOk(co, AfterCommit(r, a, next), later)
    {
      FinishedRunnerOk(co, r, a, next, later);
    }
  }

  lemma ProposalIsGood(co: Company, sys: System, a: Action, next: Workday)
    requires Inv(co, sys) && ProposalOf(co, sys, a) == Some(next) && RecordOk(co, next)
    ensures Storable(co, sys.runners[a.runner], a, next, sys.log)
  {
    var r := sys.runners[a.runner];
    hide RecordOk, Shape, Conserved, AdvanceProposal, AttemptProposal, Storable, EventsOf, Keeps, CompletedBefore;
    assert RunnerOk(co, r, sys.log);
    match a {
      case Advance(_, _, _) => AdvanceIsGood(co, r, a, next, sys.log);
      case Finish(_, attempt, end, now, _) =>
        FinishIsGood(co, r, a, attempt, Elapsed(r.started, end), now, next, sys.log);
      case Catch(_, error, end, now, _) =>
        FinishIsGood(co, r, a, Threw(error), Elapsed(r.started, end), now, next, sys.log);
    }
  }

  // ------------------------------------------------------------------- steps

  lemma EventsGrow(log: seq<Workday>, next: Workday)
    ensures EventsOf(log + [next])
            == EventsOf(log) + [TaskChanged(next.version)]
               + if next.status.AwaitingFabio? then [ApprovalRequested(next.version)] else []
  {
    assert (log + [next])[..|log|] == log;
  }

  lemma {:induction false} LogGrows(co: Company, log: seq<Workday>, next: Workday)
    requires LogOk(co, log) && GoodRecord(co, next)
    requires log == [] ==> next.version == 0
    requires log != [] ==> Follows(log[|log| - 1], next)
    ensures LogOk(co, log + [next]) && Snapshot(next, log + [next])
    ensures EventsOf(log + [next])
            == EventsOf(log) + [TaskChanged(next.version)]
               + if next.status.AwaitingFabio? then [ApprovalRequested(next.version)] else []
  {
    EventsGrow(log, next);
    hide GoodRecord, EventsOf, Keeps;
    assert log != [] ==> next.version == log[|log| - 1].version + 1;
    hide Follows;
  }

  lemma RunnersSurvive(co: Company, runners: map<nat, Runner>, log: seq<Workday>, next: Workday)
    requires forall r :: r in runners ==> RunnerOk(co, runners[r], log)
    ensures forall r :: r in runners ==> RunnerOk(co, runners[r], log + [next])
  {
    hide CompletedBefore, WellFormed;
  }

  /** The version check makes sure that what the runner read is what is stored. */
  lemma UpdateSawTheLatest(co: Company, sys: System, w: Workday, next: Workday, fits: bool, stored: Store)
    requires LogOk(co, sys.log) && StoreOk(sys.store, sys.log) && Snapshot(w, sys.log) && w.status.DayRunning?
    requires Update(co, sys.store, w, next, fits) == Some(stored)
    ensures RecordOk(co, next) && sys.log != [] && w == sys.log[|sys.log| - 1]
    ensures stored.record == Some(next)
    ensures stored.events
            == EventsOf(sys.log) + [TaskChanged(next.version)]
               + if next.status.AwaitingFabio? then [ApprovalRequested(next.version)] else []
  {
    hide GoodRecord, RecordOk, EventsOf, TransitionAllowed;
  }

  lemma StorableAfter(co: Company, r: Runner, a: Action, next: Workday, log: seq<Workday>, later: seq<Workday>)
    requires Storable(co, r, a, next, log) && Snapshot(next, later)
    ensures RunnerOk(co, AfterCommit(r, a, next), later)
  {
    hide RunnerOk, AfterCommit, GoodStep;
  }

  lemma StorableNow(co: Company, r: Runner, a: Action, next: Workday, log: seq<Workday>)
    requires Storable(co, r, a, next, log)
    ensures MayUpdate(r) && GoodRecord(co, next) && Follows(r.record, next)
  {
    hide RunnerOk, AfterCommit, GoodRecord, Follows;
  }

  lemma RunnerIsRunning(co: Company, sys: System, runner: nat)
    requires Inv(co, sys) && runner in sys.runners
    ensures
      var r := sys.runners[runner];
      MayUpdate(r) ==>
        Snapshot(r.record, sys.log) && r.record.status.DayRunning? && GoodRecord(co, r.record)
  {
    hide GoodRecord, StoreOk;
    assert RunnerOk(co, sys.runners[runner], sys.log);
  }

  lemma CommitKeepsInv(co: Company, sys: System, a: Action, next: Workday, stored: Store)
    requires Inv(co, sys) && ProposalOf(co, sys, a) == Some(next)
    requires a.runner in sys.runners && MayUpdate(sys.runners[a.runner])
    requires Update(co, sys.store, sys.runners[a.runner].record, next, Fits(a)) == Some(stored)
    ensures
      var runner := AfterCommit(sys.runners[a.runner], a, next);
      Inv(co, System(stored, sys.runners[a.runner := runner], sys.log + [next]))
  {
    hide ProposalOf, GoodRecord, LogOk, RunnerOk, EventsOf, AfterCommit, WellFormed, Update, Snapshot,
         Follows, Storable;
    var r := sys.runners[a.runner];
    RunnerIsRunning(co, sys, a.runner);
    UpdateSawTheLatest(co, sys, r.record, next, Fits(a), stored);
    ProposalIsGood(co, sys, a, next);
    StorableNow(co, r, a, next, sys.log);
    LogGrows(co, sys.log, next);
    StorableAfter(co, r, a, next, sys.log, sys.log + [next]);
    RunnersSurvive(co, sys.runners, sys.log, next);
  }

  lemma InsertCommits(co: Company, sys: System, runner: nat, initial: Workday, stored: Store)
    requires Inv(co, sys) && sys.store.record.None?
    requires GoodRecord(co, initial) && initial.version == 0 && initial.status.DayRunning?
    requires stored == Store(Some(initial), sys.store.events + [TaskChanged(0)])
    ensures Inv(co, System(stored, sys.runners[runner := AtTask(0, initial)], sys.log + [initial]))
  {
    hide GoodRecord, LogOk, EventsOf, RunnerOk, WellFormed;
    assert sys.log == [];
    LogGrows(co, sys.log, initial);
    RunnersSurvive(co, sys.runners, sys.log, initial);
    assert RunnerOk(co, AtTask(0, initial), sys.log + [initial]) by {
      AtFirstTask(co, initial, sys.log + [initial]);
    }
  }

  lemma AtFirstTask(co: Company, w: Workday, log: seq<Workday>)
    requires Snapshot(w, log) && w.status.DayRunning?
    ensures RunnerOk(co, AtTask(0, w), log)
  {
  }

  lemma InsertKeepsInv(co: Company, sys: System, a: Action)
    requires Inv(co, sys) && a.Insert? && ProposalOf(co, sys, a).None?
    ensures Inv(co, Step(co, sys, a))
  {
    if a.runner in sys.runners && sys.runners[a.runner].Inserting? {
      var initial := sys.runners[a.runner].initial;
      assert RunnerOk(co, sys.runners[a.runner], sys.log);
      InitialIsSound(co, initial.input);
      assert initial.status.DayRunning? && initial.version == 0;
      var stored := AgentCompany.Insert(co, sys.store, initial, a.fits);
      if stored.Some? {
        hide LogOk, EventsOf, RunnerOk, Shape, Conserved, Initial, RecordOk;
        InsertCommits(co, sys, a.runner, initial, stored.value);
      }
    }
  }

  lemma SkipIsOk(co: Company, r: Runner, log: seq<Workday>, now: int)
    requires r.AtTask? && RunnerOk(co, r, log) && Shape(co, r.record)
    requires AdvanceProposal(co, r.next, r.record, now).None?
    ensures RunnerOk(co, SkipCompleted(co, r), log)
  {
    if r.next < |co.catalog| {
      TaskAt(co, r.record, r.next);
    }
  }

  lemma RefusalIsOk(co: Company, r: Runner, a: Action, log: seq<Workday>)
    requires RunnerOk(co, r, log)
    requires a.Finish? && r.Executing? && a.attempt.Executed? ==>
               r.current < |co.catalog| && co.catalog[r.current] !in co.failing
    ensures RunnerOk(co, AfterRefusal(r, a), log)
  {
  }

  lemma QuietStepKeepsInv(co: Company, sys: System, a: Action)
    requires Inv(co, sys) && ProposalOf(co, sys, a).None?
    ensures Inv(co, Step(co, sys, a))
  {
    hide LogOk, StoreOk, RunnerOk, WellFormed;
    match a {
      case Insert(_, _) => InsertKeepsInv(co, sys, a);
      case Advance(_, now, _) =>
        if a.runner in sys.runners && sys.runners[a.runner].AtTask? {
          var r := sys.runners[a.runner];
          RunnerIsRunning(co, sys, a.runner);
          SkipIsOk(co, r, sys.log, now);
        }
      case Load(_, input) => LoadIsOk(co, sys, a.runner, input);
      case _ =>
    }
  }

  lemma StepKeepsInv(co: Company, sys: System, a: Action)
    requires Inv(co, sys)
    ensures Inv(co, Step(co, sys, a))
  {
    hide LogOk, StoreOk, RunnerOk, WellFormed, ProposalOf, Update, AfterCommit, AfterRefusal;
    var proposal := ProposalOf(co, sys, a);
    if proposal.Some? {
      ProposalNeedsRunner(co, sys, a);
      var r := sys.runners[a.runner];
      var stored := Update(co, sys.store, r.record, proposal.value, Fits(a));
      if stored.Some? {
        CommitKeepsInv(co, sys, a, proposal.value, stored.value);
      } else {
        RefusalIsOk(co, r, a, sys.log);
      }
    } else {
      QuietStepKeepsInv(co, sys, a);
    }
  }

  lemma ProposalNeedsRunner(co: Company, sys: System, a: Action)
    requires ProposalOf(co, sys, a).Some?
    ensures a.runner in sys.runners
    ensures
      var r := sys.runners[a.runner];
      && MayUpdate(r)
      && (a.Finish? && r.Executing? && a.attempt.Executed? ==>
            r.current < |co.catalog| && co.catalog[r.current] !in co.failing)
  {
  }

  lemma LoadIsOk(co: Company, sys: System, runner: nat, input: nat)
    requires Inv(co, sys)
    ensures RunnerOk(co, LoadStep(co, sys, runner, input), sys.log)
  {
  }

  lemma {:induction false} RunKeepsInv(co: Company, sys: System, actions: seq<Action>)
    requires Inv(co, sys)
    ensures Inv(co, Run(co, sys, actions))
    decreases |actions|
  {
    if actions != [] {
      assert WellFormed(co);
      StepKeepsInv(co, sys, actions[0]);
      hide Inv, Step;
      RunKeepsInv(co, Step(co, sys, actions[0]), actions[1..]);
    }
  }
}
