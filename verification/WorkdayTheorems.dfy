/** What the workday runner guarantees for every crash point and any number of racing runners. */
module WorkdayTheorems {
  import opened Collections
  import opened AgentCompany
  import opened WorkdayMachine
  import opened WorkdayShape
  import opened WorkdayInvariants

  function Reached(co: Company, actions: seq<Action>): System
    requires WellFormed(co)
  {
    Run(co, START, actions)
  }

  lemma ReachedIsSound(co: Company, actions: seq<Action>)
    requires WellFormed(co)
    ensures Inv(co, Reached(co, actions))
  {
    RunKeepsInv(co, START, actions);
  }

  lemma StoredIsGood(co: Company, sys: System)
    requires Inv(co, sys) && sys.store.record.Some?
    ensures sys.log != [] && sys.store.record.value == sys.log[|sys.log| - 1]
    ensures sys.store.record.value.version == |sys.log| - 1 && GoodRecord(co, sys.store.record.value)
  {
    hide GoodRecord, RunnerOk, EventsOf, Follows;
  }

  // ------------------------------------------------------------------- order

  /** Whatever is stored, at any moment: the completed tasks are a prefix of the catalogue
      closed under dependencies, and at most one task is running or blocked. */
  lemma CompletedIsAClosedPrefix(co: Company, actions: seq<Action>)
    requires WellFormed(co) && Reached(co, actions).store.record.Some?
    ensures
      var w := Reached(co, actions).store.record.value;
      && |w.tasks| == |co.catalog| && (forall i :: 0 <= i < |w.tasks| ==> w.tasks[i].agent == co.catalog[i])
      && (forall j, l :: 0 <= j < l < |w.tasks| && w.tasks[l].status.Completed? ==> w.tasks[j].status.Completed?)
      && (forall i, d :: 0 <= i < |w.tasks| && !w.tasks[i].status.Queued? && d in co.dependencies[co.catalog[i]] ==>
            Done(w, d))
      && (forall j, l :: 0 <= j < |w.tasks| && 0 <= l < |w.tasks| && Underway(w.tasks[j]) && Underway(w.tasks[l]) ==>
            j == l)
      && (w.status.AwaitingFabio? ==> forall t :: t in w.tasks ==> t.status.Completed?)
      && (w.status.DayBlocked? <==> exists t :: t in w.tasks && t.status.Blocked?)
  {
    ReachedIsSound(co, actions);
    StoredIsGood(co, Reached(co, actions));
    hide Inv, Conserved, RecordOk, Run;
    var w := Reached(co, actions).store.record.value;
    assert InOrder(w) && Coherent(co, w);
    forall i, d | 0 <= i < |w.tasks| && !w.tasks[i].status.Queued? && d in co.dependencies[co.catalog[i]]
      ensures Done(w, d)
    {
      assert w.tasks[i] in w.tasks;
    }
  }

  predicate Underway(t: Task) {
    t.status.Running? || t.status.Blocked?
  }

  // ------------------------------------------------------------------- finality

  /** A log only grows. */
  lemma StepExtendsLog(co: Company, sys: System, a: Action)
    requires Inv(co, sys)
    ensures sys.log <= Step(co, sys, a).log
    ensures |Step(co, sys, a).log| == |sys.log| ==> Step(co, sys, a).store == sys.store
  {
    hide ProposalOf, Update, RunnerOk, LogOk, StoreOk, LoadStep, SkipCompleted, AfterCommit, AfterRefusal, Initial;
  }

  lemma {:induction false} RunExtendsLog(co: Company, sys: System, actions: seq<Action>)
    requires Inv(co, sys)
    ensures Inv(co, Run(co, sys, actions)) && sys.log <= Run(co, sys, actions).log
    ensures |Run(co, sys, actions).log| == |sys.log| ==> Run(co, sys, actions).store == sys.store
    decreases |actions|
  {
    if actions != [] {
      assert WellFormed(co);
      StepKeepsInv(co, sys, actions[0]);
      StepExtendsLog(co, sys, actions[0]);
      hide Inv, Step;
      RunExtendsLog(co, Step(co, sys, actions[0]), actions[1..]);
    }
  }

  lemma {:induction false} CompletedStays(co: Company, log: seq<Workday>, u: nat, v: nat, i: nat)
    requires LogOk(co, log) && u <= v < |log| && i < |log[u].tasks| && log[u].tasks[i].status.Completed?
    ensures i < |log[v].tasks| && log[v].tasks[i] == log[u].tasks[i]
    decreases v
  {
    hide GoodRecord;
    if u < v {
      CompletedStays(co, log, u, v - 1, i);
      assert Follows(log[v - 1], log[v]);
    }
  }

  /** Once completed, a task is never touched again: it completes once, with one output. */
  lemma OutputsAreFinal(co: Company, actions: seq<Action>, more: seq<Action>, i: nat)
    requires WellFormed(co) && Reached(co, actions).store.record.Some?
    requires i < |Reached(co, actions).store.record.value.tasks|
    requires Reached(co, actions).store.record.value.tasks[i].status.Completed?
    ensures
      var late := Run(co, Reached(co, actions), more).store;
      && late.record.Some? && i < |late.record.value.tasks|
      && late.record.value.tasks[i] == Reached(co, actions).store.record.value.tasks[i]
  {
    hide Run, GoodRecord, RunnerOk, EventsOf, Follows;
    var early := Reached(co, actions);
    var late := Run(co, early, more);
    ReachedIsSound(co, actions);
    RunExtendsLog(co, early, more);
    StoredIsGood(co, early);
    CompletedStays(co, late.log, |early.log| - 1, |late.log| - 1, i);
  }

  lemma SettledIsLast(co: Company, log: seq<Workday>, v: nat)
    requires LogOk(co, log) && v < |log| && !log[v].status.DayRunning?
    ensures v == |log| - 1
  {
    hide GoodRecord;
    assert v < |log| - 1 ==> Follows(log[v], log[v + 1]);
  }

  /** A blocked or awaiting workday absorbs: nothing any runner does changes the record or the
      events, and every runner that returns hands back exactly what is stored. */
  lemma SettledIsAbsorbing(co: Company, actions: seq<Action>, more: seq<Action>)
    requires WellFormed(co) && Reached(co, actions).store.record.Some?
    requires !Reached(co, actions).store.record.value.status.DayRunning?
    ensures Run(co, Reached(co, actions), more).store == Reached(co, actions).store
  {
    hide Run, GoodRecord, RunnerOk, EventsOf, Follows;
    var early := Reached(co, actions);
    var late := Run(co, early, more);
    ReachedIsSound(co, actions);
    RunExtendsLog(co, early, more);
    StoredIsGood(co, early);
    SettledIsLast(co, late.log, |early.log| - 1);
  }

  lemma ReturnedIsStored(co: Company, actions: seq<Action>, runner: nat)
    requires WellFormed(co) && runner in Reached(co, actions).runners && Reached(co, actions).runners[runner].Returned?
    ensures Reached(co, actions).store.record == Some(Reached(co, actions).runners[runner].record)
    ensures !Reached(co, actions).runners[runner].record.status.DayRunning?
  {
    hide Run, GoodRecord, EventsOf, Follows;
    ReachedIsSound(co, actions);
    var sys := Reached(co, actions);
    assert RunnerOk(co, sys.runners[runner], sys.log);
    SettledIsLast(co, sys.log, sys.runners[runner].record.version);
  }

  // ------------------------------------------------------------------- conservation

  /** The versions announced as task changes, in order. */
  function Announced(events: seq<Event>): seq<nat> {
    if events == [] then []
    else
      var e := events[|events| - 1];
      Announced(events[..|events| - 1]) + if e.TaskChanged? then [e.version] else []
  }

  lemma AnnouncedOneMore(events: seq<Event>, e: Event)
    ensures Announced(events + [e]) == Announced(events) + if e.TaskChanged? then [e.version] else []
  {
    assert (events + [e])[..|events|] == events;
  }

  lemma {:induction false} AnnouncedOfLog(log: seq<Workday>)
    requires forall v :: 0 <= v < |log| ==> log[v].version == v
    ensures Announced(EventsOf(log)) == seq(|log|, v requires 0 <= v < |log| => v)
  {
    if log != [] {
      var init, w := log[..|log| - 1], log[|log| - 1];
      assert log == init + [w];
      AnnouncedOfLog(init);
      hide EventsOf, Announced;
      AnnouncedWith(init, w);
    }
  }

  lemma AnnouncedWith(log: seq<Workday>, w: Workday)
    ensures Announced(EventsOf(log + [w])) == Announced(EventsOf(log)) + [w.version]
  {
    EventsGrow(log, w);
    hide EventsOf, Announced;
    var before := EventsOf(log);
    AnnouncedOneMore(before, TaskChanged(w.version));
    AnnouncedOneMore(before + [TaskChanged(w.version)], ApprovalRequested(w.version));
    assert before + [TaskChanged(w.version)] + [] == before + [TaskChanged(w.version)];
  }

  /** Across crashes, retries and races, a stored version counts the attempts, the completed and
      the blocked tasks and the final hand-over, and each version up to it was announced exactly
      once and in order. */
  lemma VersionIsConserved(co: Company, actions: seq<Action>)
    requires WellFormed(co) && Reached(co, actions).store.record.Some?
    ensures
      var w := Reached(co, actions).store.record.value;
      && w.version == Sum(w.tasks, AttemptsOf) + Sum(w.tasks, CompletedOf) + Sum(w.tasks, BlockedOf)
                      + (if w.status.AwaitingFabio? then 1 else 0)
      && Announced(Reached(co, actions).store.events) == seq(w.version + 1, v requires 0 <= v < w.version + 1 => v)
      && w.version <= 102 * |co.catalog| + 1
  {
    ReachedIsSound(co, actions);
    var sys := Reached(co, actions);
    StoredIsGood(co, sys);
    AnnouncedOfLog(sys.log);
    var w := sys.store.record.value;
    VersionBound(co, w);
    hide Run, GoodRecord, RunnerOk, LogOk, EventsOf;
  }

  lemma VersionBound(co: Company, w: Workday)
    requires GoodRecord(co, w)
    ensures Conserved(w) && w.version <= 102 * |co.catalog| + 1
  {
    SumBound(w.tasks, AttemptsOf, 100);
    SumBound(w.tasks, CompletedOf, 1);
    SumBound(w.tasks, BlockedOf, 1);
  }

  // ------------------------------------------------------------------- dependencies

  /** With a topological catalogue, no runner at the head of its loop ever finds an open
      dependency or a missing task. */
  lemma DependencyBranchIsUnreachable(co: Company, actions: seq<Action>, runner: nat)
    requires WellFormed(co) && Topological(co.catalog, co.dependencies)
    requires runner in Reached(co, actions).runners && Reached(co, actions).runners[runner].AtTask?
    requires Reached(co, actions).runners[runner].next < |co.catalog|
    ensures
      var r := Reached(co, actions).runners[runner];
      var t := TaskOf(r.record, co.catalog[r.next]);
      t.Some? && Incomplete(r.record, t.value.dependencies) == []
  {
    hide Run, Conserved, RecordOk, InOrder, ClosedUnderDependencies, Coherent, StoreOk, Incomplete;
    ReachedIsSound(co, actions);
    var sys := Reached(co, actions);
    var r := sys.runners[runner];
    assert RunnerOk(co, r, sys.log);
    assert Bound(co, r.record);
    HeadIsReady(co, r.record, r.next);
  }

  lemma HeadIsReady(co: Company, w: Workday, i: nat)
    requires Bound(co, w) && CompletedBefore(w, i) && i < |co.catalog|
    requires DependenciesFirst(co.catalog, co.dependencies, i)
    ensures TaskOf(w, co.catalog[i]) == Some(w.tasks[i]) && Incomplete(w, w.tasks[i].dependencies) == []
  {
    TaskAt(co, w, i);
    forall d | d in w.tasks[i].dependencies
      ensures Done(w, d)
    {
      assert co.catalog[i] in co.catalog;
      assert d in co.catalog[..i];
      var j :| 0 <= j < i && co.catalog[j] == d;
      assert w.tasks[j] in w.tasks && w.tasks[j].status.Completed?;
    }
    NothingIncomplete(co, w, w.tasks[i].dependencies);
  }

  /** With any catalogue at all, the dependency branch never stores anything: a task it would
      block has not started, and the validator wants a start time of a blocked task. */
  lemma DependencyBranchStoresNothing(co: Company, actions: seq<Action>, runner: nat, now: int, fits: bool)
    requires WellFormed(co) && runner in Reached(co, actions).runners && Reached(co, actions).runners[runner].AtTask?
    requires
      var r := Reached(co, actions).runners[runner];
      r.next < |co.catalog| && TaskOf(r.record, co.catalog[r.next]).Some?
      && Incomplete(r.record, TaskOf(r.record, co.catalog[r.next]).value.dependencies) != []
    ensures
      var r := Reached(co, actions).runners[runner];
      !CanUpdate(co, Reached(co, actions).store,
                 DependencyBlock(r.record, TaskOf(r.record, co.catalog[r.next]).value, now), r.record.version, fits)
  {
    hide Run, Conserved, InOrder, Coherent, StoreOk, Incomplete, RecordOk, DependencyBlock;
    ReachedIsSound(co, actions);
    var sys := Reached(co, actions);
    var r := sys.runners[runner];
    assert RunnerOk(co, r, sys.log);
    assert GoodRecord(co, r.record);
    TaskAt(co, r.record, r.next);
    DependencyBlockIsRefused(co, r.record, r.next, now);
  }

  // ------------------------------------------------------------------- failing executors

  /** While some agent's executor always throws, no run ever gets to await Fabio. */
  lemma FailingAgentNeverAwaits(co: Company, actions: seq<Action>, a: Agent)
    requires WellFormed(co) && a in co.catalog && a in co.failing
    ensures Reached(co, actions).store.record.Some? ==> !Reached(co, actions).store.record.value.status.AwaitingFabio?
  {
    hide Run, Conserved, InOrder, ClosedUnderDependencies, StoreOk, RecordOk;
    ReachedIsSound(co, actions);
    var sys := Reached(co, actions);
    if sys.store.record.Some? {
      StoredIsGood(co, sys);
      var w := sys.store.record.value;
      var i :| 0 <= i < |co.catalog| && co.catalog[i] == a;
      assert w.tasks[i] in w.tasks;
    }
  }

  /** The real company: a topological catalogue whose backup guardian always throws. */
  lemma OnlywayNeverAwaitsFabio(actions: seq<Action>)
    ensures WellFormed(ONLYWAY) && Topological(ONLYWAY.catalog, ONLYWAY.dependencies)
    ensures Reached(ONLYWAY, actions).store.record.Some? ==>
              !Reached(ONLYWAY, actions).store.record.value.status.AwaitingFabio?
  {
    hide Reached;
    OnlywayIsWellFormed();
    CatalogIsTopological();
    assert CATALOG[16] == BackupGuardian;
    FailingAgentNeverAwaits(ONLYWAY, actions, BackupGuardian);
  }
}
