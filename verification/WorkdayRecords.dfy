/** What a stored task tells about the attempt that ended it: the gates judge the output by its
    fields, a blocker names the first gate that failed, with its findings, or the error thrown.
    Told by the task itself, over every version that any run ever stores. */
module WorkdayRecords {
  import opened Collections
  import opened AgentCompany
  import opened WorkdayMachine
  import opened WorkdayShape
  import opened WorkdayInvariants
  import opened WorkdayTheorems

  predicate Passing(g: Gate, name: GateName) {
    g == Gate(name, [], 100, true)
  }

  predicate Failing(g: Gate, name: GateName) {
    g.name == name && g.findings != [] && g.score == 0 && !g.passed
  }

  /** A gate passes exactly when it finds nothing. */
  predicate Judged(g: Gate, name: GateName) {
    if g.findings == [] then Passing(g, name) else Failing(g, name)
  }

  /** The three gates, each with exactly the findings this output calls for. */
  predicate Judge(gates: seq<Gate>, agent: Agent, output: Output, maxBudgetCents: int) {
    && |gates| == 3 && Judged(gates[0], Quality) && Judged(gates[1], Risk) && Judged(gates[2], Cost)
    && (MissingOutput in gates[0].findings <==> output.keys == 0)
    && (UnverifiedImplementation in gates[0].findings <==> agent.DeveloperAgent? && !output.implementationDenied)
    && (DossierBlocked in gates[0].findings <==> agent.BusinessAgent? && output.blocked)
    && (ContentBlocked in gates[0].findings <==> agent.ContentProducer? && output.blocked)
    && |gates[0].findings| <= 2 && (output.keys == 0 ==> gates[0].findings[0] == MissingOutput)
    && (forall f :: f in gates[0].findings ==>
          f.MissingOutput? || f.UnverifiedImplementation? || f.DossierBlocked? || f.ContentBlocked?)
    && gates[1].findings == (if output.externalEffect then [ExternalEffect] else [])
    && gates[2].findings == (if output.costCents > maxBudgetCents then [OverBudget] else [])
  }

  lemma QualityIsTold(agent: Agent, output: Output, maxBudgetCents: int, f: Finding)
    ensures
      f in Gates(agent, output, maxBudgetCents)[0].findings <==>
        || (f.MissingOutput? && output.keys == 0)
        || (f.UnverifiedImplementation? && agent.DeveloperAgent? && !output.implementationDenied)
        || (f.DossierBlocked? && agent.BusinessAgent? && output.blocked)
        || (f.ContentBlocked? && agent.ContentProducer? && output.blocked)
  {
  }

  lemma GatesSettle(agent: Agent, output: Output, maxBudgetCents: int)
    ensures
      var gates := Gates(agent, output, maxBudgetCents);
      && |gates| == 3 && Judged(gates[0], Quality) && Judged(gates[1], Risk) && Judged(gates[2], Cost)
      && |gates[0].findings| <= 2 && (output.keys == 0 ==> gates[0].findings[0] == MissingOutput)
      && gates[1].findings == (if output.externalEffect then [ExternalEffect] else [])
      && gates[2].findings == (if output.costCents > maxBudgetCents then [OverBudget] else [])
  {
  }

  lemma GatesJudge(agent: Agent, output: Output, maxBudgetCents: int)
    ensures Judge(Gates(agent, output, maxBudgetCents), agent, output, maxBudgetCents)
  {
    GatesSettle(agent, output, maxBudgetCents);
    forall f {
      QualityIsTold(agent, output, maxBudgetCents, f);
    }
    hide Gates, Judged;
  }

  /** The first gate that failed, with its findings. */
  predicate NamesFirstFailure(gates: seq<Gate>, blocker: Option<Blocker>) {
    exists i :: 0 <= i < |gates| && !gates[i].passed && (forall j :: 0 <= j < i ==> gates[j].passed)
                && blocker == Some(GateBlocked(gates[i].name, gates[i].findings))
  }

  /** What a thrown error leaves: its message, if it is one of the repository's errors, and a blocker
      that asks for the backup receipt exactly when the error is that conflict. */
  predicate NamesError(gates: seq<Gate>, blocker: Option<Blocker>, error: Failure) {
    && |gates| == 3 && Passing(gates[1], Risk) && Passing(gates[2], Cost)
    && Failing(gates[0], Quality)
    && gates[0].findings == [Message(match error
                                     case ConflictError(message) => message
                                     case ValidationError(message) => message
                                     case OtherError => "L'executor non ha completato il task in modo verificabile.")]
    && blocker == Some(if error == ConflictError("BACKUP_RESTORE_RECEIPT_REQUIRED") then BackupRestoreReceiptRequired
                       else ExecutorOutputUnverified)
  }

  predicate AllPass(gates: seq<Gate>) {
    forall g :: g in gates ==> g.passed
  }

  /** `after` is the started task `t` once its attempt ended at `now`, `ms` after it began. */
  predicate Ended(t: Task, attempt: Attempt, ms: int, now: int, after: Task) {
    && after == t.(status := after.status, completedAt := Some(now), durationMs := ms, gates := after.gates,
                   output := after.output, blocker := after.blocker)
    && match attempt
       case Threw(error) =>
         after.status.Blocked? && after.output == t.output && NamesError(after.gates, after.blocker, error)
       case Executed(output, maxBudgetCents) =>
         && Judge(after.gates, t.agent, output, maxBudgetCents)
         && if AllPass(after.gates) then
              after.status.Completed? && after.output == Some(output) && after.blocker == t.blocker
            else
              after.status.Blocked? && after.output == t.output && NamesFirstFailure(after.gates, after.blocker)
  }

  lemma FirstFailure(gates: seq<Gate>)
    ensures FirstBlockedGate(gates).None? <==> AllPass(gates)
    ensures
      var g := FirstBlockedGate(gates);
      g.Some? ==> NamesFirstFailure(gates, Some(GateBlocked(g.value.name, g.value.findings)))
  {
    if FirstBlockedGate(gates).Some? {
      FirstPosition(gates);
    }
  }

  lemma {:induction false} FirstPosition(gates: seq<Gate>)
    requires FirstBlockedGate(gates).Some?
    ensures exists i :: 0 <= i < |gates| && gates[i] == FirstBlockedGate(gates).value && !gates[i].passed
                        && forall j :: 0 <= j < i ==> gates[j].passed
  {
    if !gates[0].passed {
      assert gates[0] == FirstBlockedGate(gates).value;
    } else {
      var rest := gates[1..];
      assert FirstBlockedGate(gates) == FirstBlockedGate(rest);
      FirstPosition(rest);
      var i :| 0 <= i < |rest| && rest[i] == FirstBlockedGate(rest).value && !rest[i].passed
               && forall j :: 0 <= j < i ==> rest[j].passed;
      assert gates[i + 1] == rest[i];
      assert forall j :: 0 <= j < i + 1 ==> gates[j].passed by {
        assert forall j :: 1 <= j < i + 1 ==> gates[j] == rest[j - 1];
      }
    }
  }

  /** Whatever an executor does, the record of its task tells it. */
  lemma AttemptIsTold(co: Company, w: Workday, i: nat, attempt: Attempt, ms: int, now: int)
    requires Bound(co, w) && i < |w.tasks|
    ensures |AttemptProposal(co.catalog[i], w, attempt, ms, now).tasks| == |w.tasks|
    ensures Ended(w.tasks[i], attempt, ms, now, AttemptProposal(co.catalog[i], w, attempt, ms, now).tasks[i])
  {
    hide Gates, FirstBlockedGate, Judge, AllPass, NamesFirstFailure;
    match attempt {
      case Threw(error) =>
        RewritesAt(
          co, w, i, now, Output(0, 0, 0, false, false, false, 0), ExecutorBlocker(error), BlockedGates(error), ms);
      case Executed(output, maxBudgetCents) =>
        GatesJudge(co.catalog[i], output, maxBudgetCents);
        var gates := Gates(co.catalog[i], output, maxBudgetCents);
        FirstFailure(gates);
        var blocked := FirstBlockedGate(gates);
        var blocker := if blocked.None? then ExecutorOutputUnverified
                       else GateBlocked(blocked.value.name, blocked.value.findings);
        RewritesAt(co, w, i, now, output, blocker, gates, ms);
    }
  }

  // ------------------------------------------------------------------- every version of every run

  /** The task's record stands for what happened to it: nothing yet, a start, an output that every
      gate let through, or the first gate or the error that stopped it. */
  ghost predicate TellsItself(co: Company, t: Task) {
    match t.status
    case Queued => t == Task(t.agent, t.dependencies, Queued, 0, 0, None, None, [], None, None)
    case Running =>
      t.attempts > 0 && t.startedAt.Some? && t == Task(t.agent, t.dependencies, Running, t.attempts, 0, t.startedAt,
                                                       None, [], None, None)
    case Completed =>
      && t.attempts > 0 && t.startedAt.Some? && t.completedAt.Some? && t.durationMs >= 0
      && t.output.Some? && t.blocker.None? && AllPass(t.gates)
      && exists budget :: Judge(t.gates, t.agent, t.output.value, budget)
    case Blocked =>
      && t.attempts > 0 && t.startedAt.Some? && t.completedAt.Some? && t.durationMs >= 0 && t.output.None?
      && (|| (exists error :: CanProduce(co, t.agent, Threw(error)) && NamesError(t.gates, t.blocker, error))
          || (&& t.agent !in co.failing && NamesFirstFailure(t.gates, t.blocker)
              && exists output, budget :: Judge(t.gates, t.agent, output, budget)))
  }

  ghost predicate AllTell(co: Company, w: Workday) {
    forall i :: 0 <= i < |w.tasks| ==> TellsItself(co, w.tasks[i])
  }

  lemma OneMoreTells(co: Company, w: Workday, i: nat, t: Task, next: Workday)
    requires AllTell(co, w) && i < |w.tasks| && next.tasks == w.tasks[i := t] && TellsItself(co, t)
    ensures AllTell(co, next)
  {
    hide TellsItself;
  }

  lemma EndTells(co: Company, t: Task, attempt: Attempt, ms: int, now: int, after: Task)
    requires TellsItself(co, t) && t.status.Running? && 0 <= ms && CanProduce(co, t.agent, attempt)
    requires Ended(t, attempt, ms, now, after)
    ensures TellsItself(co, after)
  {
    hide Judge, AllPass, NamesError, NamesFirstFailure;
  }

  lemma AttemptTells(co: Company, w: Workday, i: nat, attempt: Attempt, ms: int, now: int)
    requires Bound(co, w) && AllTell(co, w) && i < |w.tasks| && w.tasks[i].status.Running? && 0 <= ms
    requires w.status.DayRunning? && CanProduce(co, co.catalog[i], attempt)
    ensures AllTell(co, AttemptProposal(co.catalog[i], w, attempt, ms, now))
  {
    AttemptIsTold(co, w, i, attempt, ms, now);
    AttemptRewrites(co, w, i, attempt, ms, now);
    hide AttemptProposal, TellsItself, Ended;
    var next := AttemptProposal(co.catalog[i], w, attempt, ms, now);
    EndTells(co, w.tasks[i], attempt, ms, now, next.tasks[i]);
    OneMoreTells(co, w, i, next.tasks[i], next);
  }

  lemma StartTells(co: Company, w: Workday, i: nat, now: int)
    requires Bound(co, w) && AllTell(co, w) && i < |w.tasks|
    requires w.tasks[i].status.Queued? || w.tasks[i].status.Running?
    ensures AllTell(co, MarkRunning(w, co.catalog[i], now))
  {
    RewritesAt(co, w, i, now, Output(0, 0, 0, false, false, false, 0), ExecutorOutputUnverified, [], 0);
    OneMoreTells(co, w, i, StartTask(w.tasks[i], now), MarkRunning(w, co.catalog[i], now));
  }

  ghost predicate LogTells(co: Company, log: seq<Workday>) {
    forall v :: 0 <= v < |log| ==> AllTell(co, log[v])
  }

  /** What a runner stores next tells itself if what it read did. */
  lemma ProposalTells(co: Company, sys: System, a: Action, next: Workday)
    requires Inv(co, sys) && LogTells(co, sys.log) && ProposalOf(co, sys, a) == Some(next) && RecordOk(co, next)
    ensures AllTell(co, next)
  {
    ProposalNeedsRunner(co, sys, a);
    RunnerIsRunning(co, sys, a.runner);
    var r := sys.runners[a.runner];
    assert RunnerOk(co, r, sys.log);
    assert AllTell(co, r.record) && Bound(co, r.record);
    hide Inv, LogTells, RecordOk, AllTell, AttemptProposal, Incomplete, Conserved, InOrder, ClosedUnderDependencies,
         StartedAfterDependencies;
    match a {
      case Advance(_, now, _) =>
        if r.next >= |co.catalog| {
          SameTasksTell(co, r.record, next);
        } else {
          TaskAt(co, r.record, r.next);
          if Incomplete(r.record, r.record.tasks[r.next].dependencies) != [] {
            DependencyBlockIsRefused(co, r.record, r.next, now);
          } else {
            NotBlocked(co, r.record, r.next);
            StartTells(co, r.record, r.next, now);
          }
        }
      case Finish(_, attempt, end, now, _) =>
        AttemptTells(co, r.record, r.current, attempt, Elapsed(r.started, end), now);
      case Catch(_, error, end, now, _) =>
        AttemptTells(co, r.record, r.current, Threw(error), Elapsed(r.started, end), now);
    }
  }

  lemma SameTasksTell(co: Company, w: Workday, next: Workday)
    requires AllTell(co, w) && next.tasks == w.tasks
    ensures AllTell(co, next)
  {
  }

  lemma NotBlocked(co: Company, w: Workday, i: nat)
    requires Coherent(co, w) && w.status.DayRunning? && i < |w.tasks| && !w.tasks[i].status.Completed?
    ensures w.tasks[i].status.Queued? || w.tasks[i].status.Running?
  {
    assert w.tasks[i] in w.tasks;
  }

  lemma InitialTells(co: Company, input: nat)
    requires WellFormed(co)
    ensures AllTell(co, Initial(co, input))
  {
  }

  lemma StepTells(co: Company, sys: System, a: Action)
    requires Inv(co, sys) && LogTells(co, sys.log)
    ensures LogTells(co, Step(co, sys, a).log)
  {
    hide ProposalOf, AllTell, AfterCommit, AfterRefusal, LogOk, StoreOk, RunnerOk, WellFormed, TransitionAllowed,
         RecordOk, LoadStep, SkipCompleted;
    var proposal := ProposalOf(co, sys, a);
    if proposal.Some? {
      if RecordOk(co, proposal.value) {
        ProposalTells(co, sys, a, proposal.value);
      }
    } else if a.Insert? && a.runner in sys.runners && sys.runners[a.runner].Inserting? {
      InsertedIsInitial(co, sys, a.runner);
      InitialTells(co, sys.runners[a.runner].initial.input);
    }
  }

  lemma InsertedIsInitial(co: Company, sys: System, runner: nat)
    requires Inv(co, sys) && runner in sys.runners && sys.runners[runner].Inserting?
    ensures WellFormed(co) && sys.runners[runner].initial == Initial(co, sys.runners[runner].initial.input)
  {
    assert RunnerOk(co, sys.runners[runner], sys.log);
  }

  lemma {:induction false} RunTells(co: Company, sys: System, actions: seq<Action>)
    requires Inv(co, sys) && LogTells(co, sys.log)
    ensures LogTells(co, Run(co, sys, actions).log)
    decreases |actions|
  {
    if actions != [] {
      assert WellFormed(co);
      StepKeepsInv(co, sys, actions[0]);
      StepTells(co, sys, actions[0]);
      hide Inv, Step, LogTells;
      RunTells(co, Step(co, sys, actions[0]), actions[1..]);
    }
  }

  /** Over every run of any number of racing and crashing runners, every version ever stored tells
      itself: a completed task has an output that every gate judged and let through, a blocked one
      names the first gate that failed with its findings, or the error that was thrown. */
  lemma EveryVersionTellsItself(co: Company, actions: seq<Action>, v: nat)
    requires WellFormed(co) && v < |Reached(co, actions).log|
    ensures AllTell(co, Reached(co, actions).log[v])
  {
    hide AllTell;
    RunTells(co, START, actions);
  }

  /** The real company: whenever its backup guardian is stored as blocked, the blocker asks for the
      backup receipt. */
  lemma BackupGuardianAsksForItsReceipt(actions: seq<Action>, v: nat, t: Task)
    requires WellFormed(ONLYWAY) && v < |Reached(ONLYWAY, actions).log| && t in Reached(ONLYWAY, actions).log[v].tasks
    requires t.agent.BackupGuardian? && t.status.Blocked?
    ensures t.blocker == Some(BackupRestoreReceiptRequired)
    ensures |t.gates| == 3 && t.gates[0].findings == [Message("BACKUP_RESTORE_RECEIPT_REQUIRED")]
  {
    EveryVersionTellsItself(ONLYWAY, actions, v);
    hide Reached, Judge;
    assert TellsItself(ONLYWAY, t);
  }
}
