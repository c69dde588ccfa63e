/** How far a company's catalogue lets a workday come at all: which tasks some run reaches, when
    some run awaits Fabio, and when some run ends up in the dependency branch. */
module WorkdayOutcome {
  import opened Collections
  import opened AgentCompany
  import opened WorkdayMachine
  import opened WorkdayShape
  import opened WorkdayInvariants
  import opened WorkdayTheorems
  import opened WorkdayAcceptance
  import opened WorkdayService

  lemma {:induction false} RunOn(co: Company, sys: System, first: seq<Action>, rest: seq<Action>)
    requires WellFormed(co)
    ensures Run(co, sys, first + rest) == Run(co, Run(co, sys, first), rest)
    decreases |first|
  {
    hide Step, WellFormed;
    if first == [] {
      assert first + rest == rest;
    } else {
      assert (first + rest)[1..] == first[1..] + rest;
      RunOn(co, Step(co, sys, first[0]), first[1..], rest);
    }
  }

  lemma RunTwo(co: Company, sys: System, a: Action, b: Action)
    requires WellFormed(co)
    ensures Run(co, sys, [a, b]) == Step(co, Step(co, sys, a), b)
  {
    hide Step, WellFormed;
    assert [a, b][1..] == [b] && [b][1..] == [];
    assert Run(co, Step(co, sys, a), [b]) == Run(co, Step(co, Step(co, sys, a), b), []);
  }

  /** Runner 0 stands before task `k`, alone with what is stored. */
  ghost predicate StandsAt(co: Company, sys: System, k: nat) {
    && Inv(co, sys) && 0 in sys.runners && sys.runners[0].AtTask? && sys.runners[0].next == k
    && sys.store.record == Some(sys.runners[0].record)
    && Untouched(sys.runners[0].record, k)
  }

  predicate Untouched(w: Workday, k: nat) {
    forall i :: k <= i < |w.tasks| ==> w.tasks[i].status.Queued? && w.tasks[i].attempts == 0
  }

  lemma StandingRecord(co: Company, sys: System, k: nat)
    requires StandsAt(co, sys, k)
    ensures
      var w := sys.runners[0].record;
      GoodRecord(co, w) && w.status.DayRunning? && CompletedBefore(w, k) && WellFormed(co)
  {
    hide StoreOk, Follows, EventsOf, GoodRecord;
    assert RunnerOk(co, sys.runners[0], sys.log);
  }

  /** An output every gate and the validator let through. */
  const PLAIN: Output := Output(0, 1, 0, false, true, false, 0)
  const PLAIN_ATTEMPT: Attempt := Executed(PLAIN, 0)

  lemma PlainPasses(agent: Agent)
    ensures Passes(agent, PLAIN_ATTEMPT) && AttemptFits(agent, PLAIN_ATTEMPT)
  {
    GatesPassExactly(agent, PLAIN, 0);
    hide Gates, FirstBlockedGate;
  }

  const OPENING: seq<Action> := [Load(0, 0), Insert(0, true)]

  lemma Opens(co: Company)
    requires WellFormed(co)
    ensures
      var ready := Step(co, Step(co, START, Load(0, 0)), Insert(0, true));
      && ready.runners == map[0 := AtTask(0, Initial(co, 0))] && ready.store.record == Some(Initial(co, 0))
  {
    InitialIsSound(co, 0);
    hide RecordOk, Shape, Conserved, WellFormed;
  }

  lemma Opening(co: Company)
    requires WellFormed(co)
    ensures StandsAt(co, Reached(co, OPENING), 0)
  {
    Opens(co);
    RunTwo(co, START, Load(0, 0), Insert(0, true));
    ReachedIsSound(co, OPENING);
    hide Step, WellFormed, Inv, Run;
  }

  lemma Accepted(co: Company, sys: System, a: Action, next: Workday)
    requires WellFormed(co) && ProposalOf(co, sys, a) == Some(next) && Fits(a)
    requires a.runner in sys.runners && MayUpdate(sys.runners[a.runner])
    requires sys.store.record == Some(sys.runners[a.runner].record)
    requires Writable(co, sys.runners[a.runner].record, next) && RecordOk(co, next)
    ensures
      var after := Step(co, sys, a);
      && after.store.record == Some(next)
      && after.runners == sys.runners[a.runner := AfterCommit(sys.runners[a.runner], a, next)]
  {
    hide ProposalOf, Writable, RecordOk, WellFormed, AfterCommit;
    WritableExactly(co, sys.store, sys.runners[a.runner].record, next, true);
    hide Update;
  }

  const STARTING: Action := Advance(0, 0, true)
  const ENDING: Action := Finish(0, PLAIN_ATTEMPT, 0, 0, true)

  /** The runner marks its task as running. */
  lemma MarksTask(co: Company, sys: System, k: nat)
    requires StandsAt(co, sys, k) && k < |co.catalog| && DependenciesFirst(co.catalog, co.dependencies, k)
    ensures
      var w, after := sys.runners[0].record, Step(co, sys, STARTING);
      var next := MarkRunning(w, co.catalog[k], 0);
      && after.store.record == Some(next) && 0 in after.runners && after.runners[0] == Executing(k, next, 0)
      && ChangedAt(w, next, k) && GoodRecord(co, next) && next.status.DayRunning? && CompletedBefore(next, k)
      && next.tasks[k].status.Running?
  {
    StandingRecord(co, sys, k);
    hide Inv, GoodRecord, Incomplete, Writable, WellFormed, DependenciesFirst, Step, MarkRunning, RecordOk;
    var w := sys.runners[0].record;
    var next := MarkRunning(w, co.catalog[k], 0);
    assert k < |w.tasks| && w.tasks[k].status.Queued? by {
      TasksOf(co, w);
    }
    HeadOf(co, w, k);
    Starting(co, w, k, 0);
    hide TaskOf;
    assert GoodRecord(co, next) by {
      WritableIsGood(co, w, next);
    }
    Accepted(co, sys, STARTING, next);
  }

  lemma TasksOf(co: Company, w: Workday)
    requires GoodRecord(co, w)
    ensures |w.tasks| == |co.catalog|
  {
  }

  lemma HeadOf(co: Company, w: Workday, i: nat)
    requires GoodRecord(co, w) && CompletedBefore(w, i) && i < |co.catalog| == |w.tasks|
    requires DependenciesFirst(co.catalog, co.dependencies, i)
    ensures TaskOf(w, co.catalog[i]) == Some(w.tasks[i]) && w.tasks[i].agent == co.catalog[i]
    ensures Incomplete(w, w.tasks[i].dependencies) == []
  {
    HeadIsReady(co, w, i);
  }

  lemma WritableIsGood(co: Company, w: Workday, next: Workday)
    requires Writable(co, w, next) && RecordOk(co, next)
    ensures GoodRecord(co, next)
  {
    hide RecordOk, GoodRecord, Changed;
  }

  /** Its executor succeeds. */
  lemma CompletesTask(co: Company, sys: System, k: nat, w: Workday)
    requires WellFormed(co) && sys.store.record == Some(w) && 0 in sys.runners && sys.runners[0] == Executing(k, w, 0)
    requires GoodRecord(co, w) && w.status.DayRunning? && CompletedBefore(w, k) && k < |co.catalog| && k < |w.tasks|
    requires w.tasks[k].status.Running? && co.catalog[k] !in co.failing
    ensures
      var after := Step(co, sys, ENDING);
      && 0 in after.runners && after.runners[0].AtTask? && after.runners[0].next == k + 1
      && after.store.record == Some(after.runners[0].record) && ChangedAt(w, after.runners[0].record, k)
  {
    hide Writable, WellFormed, Step, RecordOk, GoodRecord, AttemptProposal, AttemptFits, Passes, CompletedBefore;
    PlainPasses(co.catalog[k]);
    AttemptEnding(co, w, k, PLAIN_ATTEMPT, 0, 0);
    assert Elapsed(0, 0) == 0;
    Accepted(co, sys, ENDING, AttemptProposal(co.catalog[k], w, PLAIN_ATTEMPT, 0, 0));
  }

  lemma UntouchedOn(w: Workday, running: Workday, next: Workday, k: nat)
    requires Untouched(w, k) && ChangedAt(w, running, k) && ChangedAt(running, next, k)
    ensures Untouched(next, k + 1)
  {
  }

  lemma OneTaskOn(co: Company, sys: System, k: nat)
    requires StandsAt(co, sys, k) && k < |co.catalog| && DependenciesFirst(co.catalog, co.dependencies, k)
    requires co.catalog[k] !in co.failing
    ensures WellFormed(co) && StandsAt(co, Run(co, sys, [STARTING, ENDING]), k + 1)
  {
    StandingRecord(co, sys, k);
    hide WellFormed, Step, MarkRunning, DependenciesFirst, GoodRecord, CompletedBefore, Inv, RecordOk;
    MarksTask(co, sys, k);
    var w := sys.runners[0].record;
    var running := MarkRunning(w, co.catalog[k], 0);
    var mid := Step(co, sys, STARTING);
    CompletesTask(co, mid, k, running);
    var last := Step(co, mid, ENDING);
    UntouchedOn(w, running, last.runners[0].record, k);
    StepKeepsInv(co, sys, STARTING);
    StepKeepsInv(co, mid, ENDING);
    RunTwo(co, sys, STARTING, ENDING);
  }

  /** Everything before `k` can be completed in catalogue order. */
  predicate Passable(co: Company, k: nat)
    requires k <= |co.catalog|
  {
    forall i :: 0 <= i < k ==> DependenciesFirst(co.catalog, co.dependencies, i) && co.catalog[i] !in co.failing
  }

  lemma {:induction false} ReachesTask(co: Company, k: nat) returns (actions: seq<Action>)
    requires WellFormed(co) && k <= |co.catalog| && Passable(co, k)
    ensures StandsAt(co, Reached(co, actions), k)
  {
    hide WellFormed, StandsAt, DependenciesFirst, Run;
    if k == 0 {
      Opening(co);
      actions := OPENING;
    } else {
      var before := ReachesTask(co, k - 1);
      OneTaskOn(co, Reached(co, before), k - 1);
      actions := before + [STARTING, ENDING];
      RunOn(co, START, before, [STARTING, ENDING]);
    }
  }

  // ------------------------------------------------------------------- the end of the day

  ghost predicate Awaits(co: Company, actions: seq<Action>)
    requires WellFormed(co)
  {
    Reached(co, actions).store.record.Some? && Reached(co, actions).store.record.value.status.AwaitingFabio?
  }

  lemma HandsOver(co: Company, sys: System)
    requires StandsAt(co, sys, |co.catalog|) && WellFormed(co)
    ensures
      var after := Run(co, sys, [STARTING]).store;
      after.record.Some? && after.record.value.status.AwaitingFabio?
  {
    StandingRecord(co, sys, |co.catalog|);
    hide Inv, GoodRecord, Writable, WellFormed, Step, RecordOk;
    var w := sys.runners[0].record;
    AllDone(co, w);
    Accepted(co, sys, STARTING, AwaitFabio(w));
    assert [STARTING][1..] == [];
    assert Run(co, sys, [STARTING]) == Run(co, Step(co, sys, STARTING), []);
  }

  lemma CompletedIsPassable(co: Company, w: Workday, k: nat)
    requires Shape(co, w) && k <= |co.catalog| && CompletedBefore(w, k)
    ensures Passable(co, k)
  {
    forall i | 0 <= i < k
      ensures DependenciesFirst(co.catalog, co.dependencies, i) && co.catalog[i] !in co.failing
    {
      assert w.tasks[i] in w.tasks;
      forall d | d in co.dependencies[co.catalog[i]]
        ensures d in co.catalog[..i]
      {
        assert Before(w, i, d);
        BeforeIsListed(co, w, i, d);
      }
    }
  }

  /** Some run of a company awaits Fabio exactly when its catalogue puts every dependency first and
      none of its executors always throws. */
  lemma AwaitsFabioExactly(co: Company)
    requires WellFormed(co)
    ensures (exists actions :: Awaits(co, actions))
            <==> Topological(co.catalog, co.dependencies) && forall a :: a in co.catalog ==> a !in co.failing
  {
    var n := |co.catalog|;
    if actions :| Awaits(co, actions) {
      ReachedIsSound(co, actions);
      StoredIsGood(co, Reached(co, actions));
      var w := Reached(co, actions).store.record.value;
      hide Inv, Run, Reached, RecordOk, Conserved;
      assert forall i :: 0 <= i < |w.tasks| ==> w.tasks[i] in w.tasks;
      CompletedIsPassable(co, w, n);
    }
    hide Inv, Run, StandsAt, DependenciesFirst, WellFormed;
    if Passable(co, n) {
      var actions := ReachesTask(co, n);
      HandsOver(co, Reached(co, actions));
      RunOn(co, START, actions, [STARTING]);
      assert Awaits(co, actions + [STARTING]);
    }
  }

  // ------------------------------------------------------------------- the dependency branch

  /** The runner is about to block a task for its open dependencies. */
  ghost predicate InDependencyBranch(co: Company, sys: System, runner: nat) {
    && runner in sys.runners && sys.runners[runner].AtTask? && sys.runners[runner].next < |co.catalog|
    && var r := sys.runners[runner];
       var t := TaskOf(r.record, co.catalog[r.next]);
       t.Some? && !t.value.status.Completed? && Incomplete(r.record, t.value.dependencies) != []
  }

  lemma BranchNeedsDisorder(co: Company, sys: System, runner: nat)
    requires Inv(co, sys) && InDependencyBranch(co, sys, runner)
    ensures
      var k := sys.runners[runner].next;
      Passable(co, k) && !DependenciesFirst(co.catalog, co.dependencies, k)
  {
    hide StoreOk, Follows, EventsOf, Conserved, RecordOk, Incomplete, TaskOf, Passable, DependenciesFirst;
    var r := sys.runners[runner];
    assert RunnerOk(co, r, sys.log);
    CompletedIsPassable(co, r.record, r.next);
    if DependenciesFirst(co.catalog, co.dependencies, r.next) {
      HeadIsReady(co, r.record, r.next);
    }
  }

  lemma DisorderLeadsThere(co: Company, sys: System, k: nat)
    requires StandsAt(co, sys, k) && k < |co.catalog| && !DependenciesFirst(co.catalog, co.dependencies, k)
    ensures InDependencyBranch(co, sys, 0)
  {
    StandingRecord(co, sys, k);
    hide Inv, Conserved, RecordOk, Incomplete, ClosedUnderDependencies, StartedAfterDependencies;
    var w := sys.runners[0].record;
    TaskAt(co, w, k);
    NothingIncomplete(co, w, w.tasks[k].dependencies);
    var d :| d in co.dependencies[co.catalog[k]] && d !in co.catalog[..k];
    DoneIsListed(co, w, k, d);
  }

  /** Some runner gets to the dependency branch exactly when some task stands before one of its
      dependencies and everything before it can be completed; then nothing is stored there. */
  lemma DependencyBranchExactly(co: Company)
    requires WellFormed(co)
    ensures (exists actions, runner :: InDependencyBranch(co, Reached(co, actions), runner))
            <==> exists k :: 0 <= k < |co.catalog| && Passable(co, k)
                             && !DependenciesFirst(co.catalog, co.dependencies, k)
  {
    hide Inv, Run, StandsAt, DependenciesFirst, WellFormed, InDependencyBranch, Passable, Reached;
    if actions, runner :| InDependencyBranch(co, Reached(co, actions), runner) {
      ReachedIsSound(co, actions);
      BranchNeedsDisorder(co, Reached(co, actions), runner);
      BranchIsInRange(co, Reached(co, actions), runner);
    }
    if k :| 0 <= k < |co.catalog| && Passable(co, k) && !DependenciesFirst(co.catalog, co.dependencies, k) {
      var actions := ReachesTask(co, k);
      DisorderLeadsThere(co, Reached(co, actions), k);
      assert InDependencyBranch(co, Reached(co, actions), 0);
    }
  }

  lemma BranchIsInRange(co: Company, sys: System, runner: nat)
    requires InDependencyBranch(co, sys, runner)
    ensures runner in sys.runners && sys.runners[runner].AtTask? && sys.runners[runner].next < |co.catalog|
  {
  }

  // Research before the assistant whose mission it needs.
  const UPSIDE_DOWN: Company := Company(
    [ResearchAgent, OnlywayAssistant], [ResearchAgent, OnlywayAssistant],
    map[ResearchAgent := [OnlywayAssistant], OnlywayAssistant := []], map[])

  /** Such a catalogue: its very first task leads a runner into the branch, for good. */
  lemma UpsideDownIsStuck()
    ensures WellFormed(UPSIDE_DOWN) && !Topological(UPSIDE_DOWN.catalog, UPSIDE_DOWN.dependencies)
    ensures exists actions, runner :: InDependencyBranch(UPSIDE_DOWN, Reached(UPSIDE_DOWN, actions), runner)
    ensures forall actions :: !Awaits(UPSIDE_DOWN, actions)
  {
    assert UPSIDE_DOWN.catalog[0] == ResearchAgent && UPSIDE_DOWN.catalog[..0] == [];
    assert OnlywayAssistant in UPSIDE_DOWN.dependencies[ResearchAgent];
    assert !DependenciesFirst(UPSIDE_DOWN.catalog, UPSIDE_DOWN.dependencies, 0);
    assert Passable(UPSIDE_DOWN, 0);
    hide InDependencyBranch, Awaits, Passable;
    DependencyBranchExactly(UPSIDE_DOWN);
    AwaitsFabioExactly(UPSIDE_DOWN);
  }
}
