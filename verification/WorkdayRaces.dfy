/** Runners over one day against each other: who gets to store, what becomes of the one that does
    not, where a runner that comes later takes up the day, and what can be stored at all. */
module WorkdayRaces {
  import opened Collections
  import opened AgentCompany
  import opened WorkdayMachine
  import opened WorkdayShape
  import opened WorkdayInvariants
  import opened WorkdayTheorems
  import opened WorkdayAcceptance
  import opened WorkdayService

  /** What the runner of `a` proposes may follow the record it holds. */
  lemma ProposedIsWritable(co: Company, sys: System, a: Action, next: Workday)
    requires Inv(co, sys) && Topological(co.catalog, co.dependencies) && ProposalOf(co, sys, a) == Some(next)
    ensures a.runner in sys.runners && MayUpdate(sys.runners[a.runner])
    ensures Writable(co, sys.runners[a.runner].record, next)
  {
    ProposalNeedsRunner(co, sys, a);
    RunnerIsRunning(co, sys, a.runner);
    var r := sys.runners[a.runner];
    assert RunnerOk(co, r, sys.log);
    assert Bound(co, r.record);
    hide LogOk, StoreOk, RecordOk, InOrder, ClosedUnderDependencies, StartedAfterDependencies, Coherent, Conserved,
         Incomplete, AttemptProposal, MarkRunning, WellFormed, Writable, Changed;
    match a {
      case Advance(_, now, _) =>
        if r.next < |co.catalog| {
          HeadIsReady(co, r.record, r.next);
          Starting(co, r.record, r.next, now);
        } else {
          AllDone(co, r.record);
        }
      case Finish(_, attempt, end, now, _) =>
        AttemptEnding(co, r.record, r.current, attempt, Elapsed(r.started, end), now);
      case Catch(_, error, end, now, _) =>
        AttemptEnding(co, r.record, r.current, Threw(error), Elapsed(r.started, end), now);
    }
  }

  /** In every reachable state of a company with a topological catalogue: a runner's transaction
      stores its record exactly when nobody has stored anything since the record it holds, the
      serialised record is small enough and its bounds are met; otherwise nothing is stored. */
  lemma CommitsExactly(co: Company, actions: seq<Action>, a: Action, next: Workday)
    requires WellFormed(co) && Topological(co.catalog, co.dependencies)
    requires ProposalOf(co, Reached(co, actions), a) == Some(next)
    ensures a.runner in Reached(co, actions).runners && MayUpdate(Reached(co, actions).runners[a.runner])
    ensures
      var sys, later := Reached(co, actions), Step(co, Reached(co, actions), a);
      var r := sys.runners[a.runner];
      if Fits(a) && WithinBounds(co, r, a) && sys.store.record == Some(r.record)
      then later.store.record == Some(next) && later.log == sys.log + [next]
      else later.store == sys.store && later.log == sys.log
  {
    var sys := Reached(co, actions);
    ReachedIsSound(co, actions);
    ValidatorAcceptsExactly(co, actions, a, next);
    ProposedIsWritable(co, sys, a, next);
    RunnerIsRunning(co, sys, a.runner);
    var r := sys.runners[a.runner];
    hide Run, Reached, RecordOk, GoodRecord, WithinBounds, Writable, ProposalOf, WellFormed, AfterCommit, AfterRefusal,
         RunnerOk, EventsOf;
    if sys.store.record == Some(r.record) {
      WritableExactly(co, sys.store, r.record, next, Fits(a));
    } else {
      assert Update(co, sys.store, r.record, next, Fits(a)).None?;
    }
    hide Update;
  }

  /** Of two runners that hold the same record, one stores at most: the other is refused whatever it
      proposes and whenever it does.  It is out, unless it was an executor's output that it could
      not store: then it has one transaction left, which is refused as well. */
  lemma OneOfTwoStores(co: Company, actions: seq<Action>, a: Action, next: Workday, more: seq<Action>, b: Action,
                       other: Workday)
    requires WellFormed(co) && Topological(co.catalog, co.dependencies)
    requires ProposalOf(co, Reached(co, actions), a) == Some(next)
    requires Step(co, Reached(co, actions), a).log != Reached(co, actions).log
    requires var later := Run(co, Step(co, Reached(co, actions), a), more);
             && ProposalOf(co, later, b) == Some(other)
             && a.runner in Reached(co, actions).runners && MayUpdate(Reached(co, actions).runners[a.runner])
             && b.runner in later.runners && MayUpdate(later.runners[b.runner])
             && later.runners[b.runner].record == Reached(co, actions).runners[a.runner].record
    ensures
      var later := Run(co, Step(co, Reached(co, actions), a), more);
      var r, after := later.runners[b.runner], Step(co, later, b);
      && after.store == later.store && after.log == later.log && b.runner in after.runners
      && after.runners[b.runner] == if b.Finish? && b.attempt.Executed? then Catching(r.current, r.record, r.started)
                                    else Thrown
  {
    var sys := Reached(co, actions);
    var mid := Step(co, sys, a);
    var later := Run(co, mid, more);
    var w := sys.runners[a.runner].record;
    CommitsExactly(co, actions, a, next);
    ReachedIsSound(co, actions);
    hide Reached, Run, Step, ProposalOf, WellFormed, RunnerOk, GoodRecord, WithinBounds;
    StepKeepsInv(co, sys, a);
    RunKeepsInv(co, mid, more);
    RunExtendsLog(co, mid, more);
    assert later.log[|sys.log|] == next;
    assert w == sys.log[|sys.log| - 1];
    assert w.version == |sys.log| - 1;
    RefusedIsOut(co, later, b, other);
  }

  /** A record that is no longer the stored one gets nothing stored. */
  lemma RefusedIsOut(co: Company, sys: System, b: Action, other: Workday)
    requires Inv(co, sys) && ProposalOf(co, sys, b) == Some(other)
    requires b.runner in sys.runners && MayUpdate(sys.runners[b.runner])
    requires sys.runners[b.runner].record.version < |sys.log| - 1
    ensures
      var r, after := sys.runners[b.runner], Step(co, sys, b);
      && after.store == sys.store && after.log == sys.log && b.runner in after.runners
      && after.runners[b.runner] == if b.Finish? && b.attempt.Executed? then Catching(r.current, r.record, r.started)
                                    else Thrown
  {
    var r := sys.runners[b.runner];
    RunnerIsRunning(co, sys, b.runner);
    assert b.Finish? ==> r.Executing?;
    hide RecordOk, GoodRecord, ProposalOf, WellFormed, RunnerOk, EventsOf, TransitionAllowed;
    assert Update(co, sys.store, r.record, other, Fits(b)).None?;
    hide Update;
  }

  /** A runner that comes to a day: it makes one of its own only where none is stored, and takes up
      the stored one exactly when it brings that day's input, at its first task if the day is
      running and with the settled record otherwise. */
  lemma LoadsExactly(co: Company, actions: seq<Action>, runner: nat, input: nat)
    requires WellFormed(co) && runner !in Reached(co, actions).runners
    ensures
      var sys, later := Reached(co, actions), Step(co, Reached(co, actions), Load(runner, input));
      var r, stored := later.runners[runner], sys.store.record;
      && later.store == sys.store && later.log == sys.log && later.runners == sys.runners[runner := r]
      && (r.Inserting? <==> stored.None?)
      && (r.Inserting? ==> InitialOf(co, r.initial, input))
      && (r.Thrown? <==> stored.Some? && stored.value.input != input)
      && (r.AtTask? <==> stored.Some? && stored.value.input == input && stored.value.status.DayRunning?)
      && (r.AtTask? ==> r.next == 0 && r.record == stored.value)
      && (r.Returned? ==> r.record == stored.value)
      && !r.Executing? && !r.Catching?
  {
    hide Run, WellFormed;
    if Reached(co, actions).store.record.None? {
      InitialIsPlain(co, input);
    }
  }

  /** A day nothing has been done on. */
  predicate InitialOf(co: Company, w: Workday, input: nat) {
    && w.input == input && w.version == 0 && w.status.DayRunning? && |w.tasks| == |co.catalog|
    && forall i :: 0 <= i < |w.tasks| ==>
         && w.tasks[i].agent == co.catalog[i] && w.tasks[i].status.Queued? && w.tasks[i].attempts == 0
         && w.tasks[i].startedAt.None? && w.tasks[i].completedAt.None? && w.tasks[i].gates == []
         && w.tasks[i].output.None? && w.tasks[i].blocker.None?
  }

  lemma InitialIsPlain(co: Company, input: nat)
    requires WellFormed(co)
    ensures InitialOf(co, Initial(co, input), input)
  {
  }

  /** A runner before a completed task goes on to the next one, and nothing is stored for it; it goes on in
      no other way without storing. */
  lemma SkipsExactly(co: Company, actions: seq<Action>, a: Action)
    requires WellFormed(co) && Topological(co.catalog, co.dependencies) && a.Advance?
    requires a.runner in Reached(co, actions).runners && Reached(co, actions).runners[a.runner].AtTask?
    ensures
      var sys, later := Reached(co, actions), Step(co, Reached(co, actions), a);
      var r := sys.runners[a.runner];
      && a.runner in later.runners
      && (r.next < |r.record.tasks| && r.record.tasks[r.next].status.Completed?
          <==> later.runners[a.runner] == AtTask(r.next + 1, r.record))
      && (later.runners[a.runner].AtTask? ==> later.store == sys.store && later.log == sys.log)
  {
    var sys := Reached(co, actions);
    ReachedIsSound(co, actions);
    RunnerIsRunning(co, sys, a.runner);
    var r := sys.runners[a.runner];
    assert RunnerOk(co, r, sys.log);
    assert Bound(co, r.record);
    if r.next < |co.catalog| {
      HeadIsReady(co, r.record, r.next);
    }
    hide Run, Reached, LogOk, StoreOk, RecordOk, InOrder, ClosedUnderDependencies, StartedAfterDependencies, Coherent,
         Conserved, Incomplete, MarkRunning, WellFormed, Update, TaskOf;
  }

  // ------------------------------------------------------------------- whatever is proposed

  /** One task for each of the company's agents. */
  predicate CoversCompany(co: Company, tasks: seq<Task>) {
    && |tasks| == |co.ids|
    && (forall a :: a in co.ids ==> exists i :: 0 <= i < |tasks| && tasks[i].agent == a)
    && (forall i :: 0 <= i < |tasks| ==> tasks[i].agent in co.ids)
    && forall i, j :: 0 <= i < j < |tasks| ==> tasks[i].agent != tasks[j].agent
  }

  predicate HasGate(gates: seq<Gate>, name: GateName) {
    exists i :: 0 <= i < |gates| && gates[i].name == name
  }

  /** Each of the three gates has decided, within its bounds. */
  predicate GatesDecided(gates: seq<Gate>) {
    && |gates| == 3
    && (forall name: GateName :: HasGate(gates, name))
    && forall i :: 0 <= i < |gates| ==> 0 <= gates[i].score <= 100 && |gates[i].findings| <= 30
  }

  /** An unfinished task shows no trace of an end, a finished one when it ran and what came of it. */
  predicate LeavesItsTrace(t: Task) {
    && t.attempts <= 100 && 0 <= t.durationMs <= 86_400_000
    && if t.status.Completed? || t.status.Blocked? then
         && t.startedAt.Some? && t.completedAt.Some? && GatesDecided(t.gates)
         && (t.status.Completed? ==> t.output.Some? && t.output.value.bytes <= 65_536 && t.blocker.None?)
         && (t.status.Blocked? ==> t.blocker.Some?)
       else t.gates == [] && t.output.None? && t.completedAt.None? && t.blocker.None?
  }

  lemma {:induction false} SizeOfMembers(agents: seq<Agent>)
    ensures |set a | a in agents| <= |agents|
    ensures NoDuplicates(agents) ==> |set a | a in agents| == |agents|
  {
    if agents != [] {
      var init, last := agents[..|agents| - 1], agents[|agents| - 1];
      SizeOfMembers(init);
      assert (set a | a in agents) == (set a | a in init) + {last};
    }
  }

  /** As many different agents as are listed, all of them listed, are all that are. */
  lemma AllOfThem(some: seq<Agent>, all: seq<Agent>)
    requires NoDuplicates(some) && |some| == |all| && forall a :: a in some ==> a in all
    ensures forall a :: a in all ==> a in some
  {
    SizeOfMembers(some);
    SizeOfMembers(all);
    var few, most := set a | a in some, set a | a in all;
    assert few <= most && |most - few| == |most| - |few|;
    forall a | a in all
      ensures a in some
    {
      assert a in most && a !in most - few;
    }
  }

  lemma CoversAll(co: Company, w: Workday)
    requires WellFormed(co) && RecordOk(co, w)
    ensures CoversCompany(co, w.tasks)
  {
    var agents := seq(|w.tasks|, i requires 0 <= i < |w.tasks| => w.tasks[i].agent);
    forall i | 0 <= i < |w.tasks|
      ensures w.tasks[i].agent in co.ids
    {
      assert w.tasks[i] in w.tasks;
    }
    AllOfThem(agents, co.ids);
    forall a | a in co.ids
      ensures exists i :: 0 <= i < |w.tasks| && w.tasks[i].agent == a
    {
      var i :| 0 <= i < |agents| && agents[i] == a;
      assert w.tasks[i].agent == a;
    }
    hide WellFormed, TaskOk;
  }

  lemma GatesAreDecided(gates: seq<Gate>)
    requires GatesOk(gates)
    ensures GatesDecided(gates)
  {
    forall i | 0 <= i < 3
      ensures 0 <= gates[i].score <= 100 && |gates[i].findings| <= 30
    {
      assert gates[i] in gates;
    }
    assert gates[0].name != gates[1].name && gates[1].name != gates[2].name && gates[0].name != gates[2].name;
    forall name: GateName
      ensures HasGate(gates, name)
    {
      assert gates[0].name == name || gates[1].name == name || gates[2].name == name;
    }
  }

  lemma TaskLeavesTrace(co: Company, t: Task)
    requires TaskOk(co, t)
    ensures LeavesItsTrace(t)
  {
    if t.status.Completed? || t.status.Blocked? {
      GatesAreDecided(t.gates);
    }
    hide GatesOk, GatesDecided, BlockerOk;
  }

  lemma TwoOfThem(s: set<nat>, i: nat, j: nat)
    requires i != j && |s| <= 1
    ensures i !in s || j !in s
  {
    if i in s {
      assert |s - {i}| == 0;
    }
  }

  lemma OneChanged(before: seq<Task>, next: seq<Task>)
    requires |Changed(before, next)| <= 1
    ensures forall i, j :: 0 <= i < j < |next| && j < |before| ==> before[i] == next[i] || before[j] == next[j]
  {
    forall i, j | 0 <= i < j < |next| && j < |before|
      ensures before[i] == next[i] || before[j] == next[j]
    {
      var changed := Changed(before, next);
      TwoOfThem(changed, i, j);
    }
  }

  /** Whoever proposes whatever: an update is stored only over a running day of the same input and the version
      it expects, with one task changed at most, and then every agent has its one task, each with its
      trace, and the day awaits Fabio only with all of them completed and is blocked only by one. */
  lemma StoredIsSound(co: Company, s: Store, before: Workday, next: Workday, fits: bool)
    requires WellFormed(co) && Update(co, s, before, next, fits).Some?
    ensures s.record.Some? && s.record.value.status.DayRunning? && s.record.value.input == next.input
    ensures s.record.value.version == before.version && next.version == before.version + 1
    ensures
      var was := s.record.value.tasks;
      forall i, j :: 0 <= i < j < |next.tasks| && j < |was| ==> was[i] == next.tasks[i] || was[j] == next.tasks[j]
    ensures CoversCompany(co, next.tasks) && forall i :: 0 <= i < |next.tasks| ==> LeavesItsTrace(next.tasks[i])
    ensures next.status.AwaitingFabio? ==> forall i :: 0 <= i < |next.tasks| ==> next.tasks[i].status.Completed?
    ensures next.status.DayBlocked? ==> exists i :: 0 <= i < |next.tasks| && next.tasks[i].status.Blocked?
  {
    OneChanged(s.record.value.tasks, next.tasks);
    CoversAll(co, next);
    forall i | 0 <= i < |next.tasks|
      ensures LeavesItsTrace(next.tasks[i])
    {
      assert next.tasks[i] in next.tasks;
      TaskLeavesTrace(co, next.tasks[i]);
    }
    hide TaskOk, Changed, WellFormed, LeavesItsTrace, CoversCompany;
  }
}
