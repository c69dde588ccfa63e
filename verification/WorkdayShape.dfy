/** What every stored workday looks like, and what each rewrite does to it. */
module WorkdayShape {
  import opened Collections
  import opened AgentCompany

  /** Some task of agent `a` is completed. */
  predicate Done(w: Workday, a: Agent) {
    exists t :: t in w.tasks && t.agent == a && t.status.Completed?
  }

  predicate Bound(co: Company, w: Workday) {
    && WellFormed(co) && |w.tasks| == |co.catalog|
    && forall i :: 0 <= i < |w.tasks| ==>
         w.tasks[i].agent == co.catalog[i] && w.tasks[i].dependencies == co.dependencies[co.catalog[i]]
  }

  /** Tasks run strictly in catalogue order: whatever is not queued has only completed tasks
      before it. */
  predicate InOrder(w: Workday) {
    forall j, l :: 0 <= j < l < |w.tasks| && !w.tasks[l].status.Queued? ==> w.tasks[j].status.Completed?
  }

  predicate ClosedUnderDependencies(w: Workday) {
    forall t, d :: t in w.tasks && !t.status.Queued? && d in t.dependencies ==> Done(w, d)
  }

  /** Whatever has started has all its dependencies earlier in the catalogue. */
  predicate StartedAfterDependencies(w: Workday) {
    forall i, d :: 0 <= i < |w.tasks| && !w.tasks[i].status.Queued? && d in w.tasks[i].dependencies ==> Before(w, i, d)
  }

  predicate Before(w: Workday, i: nat, a: Agent)
    requires i <= |w.tasks|
  {
    exists j :: 0 <= j < i && w.tasks[j].agent == a
  }

  predicate Coherent(co: Company, w: Workday) {
    && (forall t :: t in w.tasks ==> (t.status.Queued? <==> t.startedAt.None?))
    && (forall t :: t in w.tasks && t.status.Blocked? ==> w.status.DayBlocked?)
    && (forall t :: t in w.tasks && t.status.Completed? ==> t.agent !in co.failing)
    && (w.status.DayBlocked? ==> exists t :: t in w.tasks && t.status.Blocked?)
    && (w.status.AwaitingFabio? ==> forall t :: t in w.tasks ==> t.status.Completed?)
  }

  ghost predicate Shape(co: Company, w: Workday) {
    && Bound(co, w) && InOrder(w) && ClosedUnderDependencies(w) && StartedAfterDependencies(w)
    && Coherent(co, w)
  }

  // ------------------------------------------------------------------- conservation

  function Sum(tasks: seq<Task>, f: Task -> nat): nat {
    if tasks == [] then 0 else Sum(tasks[..|tasks| - 1], f) + f(tasks[|tasks| - 1])
  }

  function AttemptsOf(t: Task): nat { t.attempts }
  function CompletedOf(t: Task): nat { if t.status.Completed? then 1 else 0 }
  function BlockedOf(t: Task): nat { if t.status.Blocked? then 1 else 0 }

  ghost predicate Conserved(w: Workday) {
    w.version == Sum(w.tasks, AttemptsOf) + Sum(w.tasks, CompletedOf) + Sum(w.tasks, BlockedOf)
                 + if w.status.AwaitingFabio? then 1 else 0
  }

  lemma {:induction false} SumUpdate(tasks: seq<Task>, i: nat, t: Task, f: Task -> nat)
    requires i < |tasks|
    ensures Sum(tasks[i := t], f) + f(tasks[i]) == Sum(tasks, f) + f(t)
  {
    var n := |tasks| - 1;
    var init, next := tasks[..n], tasks[i := t];
    if i == n {
      assert next[..n] == init;
    } else {
      assert next[..n] == init[i := t];
      SumUpdate(init, i, t, f);
    }
  }

  lemma {:induction false} SumOfZeros(tasks: seq<Task>, f: Task -> nat)
    requires forall t :: t in tasks ==> f(t) == 0
    ensures Sum(tasks, f) == 0
  {
    if tasks != [] {
      SumOfZeros(tasks[..|tasks| - 1], f);
      assert tasks[|tasks| - 1] in tasks;
    }
  }

  lemma {:induction false} SumBound(tasks: seq<Task>, f: Task -> nat, b: nat)
    requires forall t :: t in tasks ==> f(t) <= b
    ensures Sum(tasks, f) <= b * |tasks|
  {
    if tasks != [] {
      SumBound(tasks[..|tasks| - 1], f, b);
      assert tasks[|tasks| - 1] in tasks;
      assert b * |tasks| == b * (|tasks| - 1) + b;
    }
  }

  // ------------------------------------------------------------------- lookups

  lemma TaskAt(co: Company, w: Workday, i: nat)
    requires Bound(co, w) && i < |w.tasks|
    ensures TaskOf(w, co.catalog[i]) == Some(w.tasks[i])
  {
    var found := TaskOf(w, co.catalog[i]);
    assert w.tasks[i] in w.tasks;
    var k :| 0 <= k < |w.tasks| && w.tasks[k] == found.value;
  }

  lemma CompletedIsDone(co: Company, w: Workday, a: Agent)
    requires Bound(co, w)
    ensures IsCompleted(w, a) <==> Done(w, a)
  {
    if Done(w, a) {
      var t :| t in w.tasks && t.agent == a && t.status.Completed?;
      var i :| 0 <= i < |w.tasks| && w.tasks[i] == t;
      TaskAt(co, w, i);
    }
  }

  lemma NothingIncomplete(co: Company, w: Workday, dependencies: seq<Agent>)
    requires Bound(co, w)
    ensures Incomplete(w, dependencies) == [] <==> forall d :: d in dependencies ==> Done(w, d)
  {
    var open := Incomplete(w, dependencies);
    forall d | d in dependencies
      ensures d in open <==> !Done(w, d)
    {
      CompletedIsDone(co, w, d);
    }
    if open != [] {
      assert open[0] in open;
    }
  }

  // ------------------------------------------------------------------- rewriting one task

  /** The mapped update of an agent's task touches exactly its position. */
  lemma RewritesAt(
      co: Company, w: Workday, i: nat, now: int, output: Output, blocker: Blocker, gates: seq<Gate>, ms: int)
    requires Bound(co, w) && i < |w.tasks|
    ensures MarkRunning(w, co.catalog[i], now).tasks == w.tasks[i := StartTask(w.tasks[i], now)]
    ensures Complete(w, co.catalog[i], output, gates, ms, now).tasks
            == w.tasks[i := CompleteTask(w.tasks[i], output, gates, ms, now)]
    ensures Block(w, co.catalog[i], blocker, gates, ms, now).tasks
            == w.tasks[i := BlockTask(w.tasks[i], blocker, gates, ms, now)]
  {
    assert forall k :: 0 <= k < |w.tasks| ==> (w.tasks[k].agent == co.catalog[i] <==> k == i);
  }

  /** Completed tasks stay as they are. */
  ghost predicate Keeps(w: Workday, next: Workday) {
    && |next.tasks| == |w.tasks|
    && forall i :: 0 <= i < |w.tasks| && w.tasks[i].status.Completed? ==> next.tasks[i] == w.tasks[i]
  }

  lemma DoneStaysDone(w: Workday, next: Workday, a: Agent)
    requires Keeps(w, next) && Done(w, a)
    ensures Done(next, a)
  {
    var t :| t in w.tasks && t.agent == a && t.status.Completed?;
    var i :| 0 <= i < |w.tasks| && w.tasks[i] == t;
    assert next.tasks[i] in next.tasks;
  }

  /** When task `i` may start, what is done lies before it. */
  lemma DoneIsBefore(w: Workday, i: nat, a: Agent)
    requires InOrder(w) && i < |w.tasks| && !w.tasks[i].status.Completed? && Done(w, a)
    ensures Before(w, i, a)
  {
    var t :| t in w.tasks && t.agent == a && t.status.Completed?;
    var k :| 0 <= k < |w.tasks| && w.tasks[k] == t;
  }

  lemma BeforeIsListed(co: Company, w: Workday, i: nat, d: Agent)
    requires Bound(co, w) && i <= |w.tasks| && Before(w, i, d)
    ensures d in co.catalog[..i]
  {
    var j :| 0 <= j < i && w.tasks[j].agent == d;
    assert co.catalog[..i][j] == d;
  }

  lemma DoneIsListed(co: Company, w: Workday, k: nat, d: Agent)
    requires Bound(co, w) && InOrder(w) && k < |w.tasks| && !w.tasks[k].status.Completed?
    ensures Done(w, d) ==> d in co.catalog[..k]
  {
    if Done(w, d) {
      DoneIsBefore(w, k, d);
      BeforeIsListed(co, w, k, d);
    }
  }

  lemma OneMoreStarted(w: Workday, i: nat, t: Task, next: Workday)
    requires StartedAfterDependencies(w) && InOrder(w) && i < |w.tasks| && !w.tasks[i].status.Completed?
    requires next.tasks == w.tasks[i := t]
    requires t.agent == w.tasks[i].agent && t.dependencies == w.tasks[i].dependencies
    requires forall d :: d in t.dependencies ==> Done(w, d)
    ensures StartedAfterDependencies(next)
  {
    forall k, d | 0 <= k < |next.tasks| && !next.tasks[k].status.Queued? && d in next.tasks[k].dependencies
      ensures Before(next, k, d)
    {
      if k == i {
        DoneIsBefore(w, i, d);
      }
      assert Before(w, k, d);
      var j :| 0 <= j < k && w.tasks[j].agent == d;
      assert next.tasks[j].agent == d;
    }
  }

  /** Task `i` moves on while all before it are completed and none after it has started. */
  lemma OneTaskMovesOn(co: Company, w: Workday, i: nat, t: Task, next: Workday)
    requires Shape(co, w) && w.status.DayRunning? && i < |w.tasks| && !w.tasks[i].status.Completed?
    requires forall j :: 0 <= j < i ==> w.tasks[j].status.Completed?
    requires next.tasks == w.tasks[i := t]
    requires t.agent == w.tasks[i].agent && t.dependencies == w.tasks[i].dependencies
    requires !t.status.Queued? && t.startedAt.Some?
    requires next.status == if t.status.Blocked? then DayBlocked else DayRunning
    requires t.status.Completed? ==> t.agent !in co.failing
    requires forall d :: d in t.dependencies ==> Done(w, d)
    ensures Shape(co, next) && Keeps(w, next)
  {
    assert forall k :: 0 <= k < |w.tasks| ==> w.tasks[k] in w.tasks;
    assert Bound(co, next) && InOrder(next) && Keeps(w, next);
    assert next.tasks[i] == t;
    OneMoreStarted(w, i, t, next);
    hide StartedAfterDependencies;
    forall x, d | x in next.tasks && !x.status.Queued? && d in x.dependencies
      ensures Done(next, d)
    {
      var k :| 0 <= k < |next.tasks| && next.tasks[k] == x;
      assert Done(w, d);
      DoneStaysDone(w, next, d);
    }
    assert Coherent(co, next) by {
      forall x | x in next.tasks
        ensures x == t || x in w.tasks
      {
      }
    }
  }

  lemma MovingOnConserves(w: Workday, i: nat, t: Task, next: Workday)
    requires Conserved(w) && w.status.DayRunning? && !next.status.AwaitingFabio? && i < |w.tasks|
    requires !w.tasks[i].status.Completed? && !w.tasks[i].status.Blocked?
    requires next.tasks == w.tasks[i := t] && next.version == w.version + 1
    requires t.attempts + CompletedOf(t) + BlockedOf(t) == w.tasks[i].attempts + 1
    ensures Conserved(next)
  {
    SumUpdate(w.tasks, i, t, AttemptsOf);
    SumUpdate(w.tasks, i, t, CompletedOf);
    SumUpdate(w.tasks, i, t, BlockedOf);
  }

  lemma InitialIsSound(co: Company, input: nat)
    requires WellFormed(co)
    ensures Shape(co, Initial(co, input)) && Conserved(Initial(co, input)) && RecordOk(co, Initial(co, input))
  {
    var w := Initial(co, input);
    SumOfZeros(w.tasks, AttemptsOf);
    SumOfZeros(w.tasks, CompletedOf);
    SumOfZeros(w.tasks, BlockedOf);
  }
}
