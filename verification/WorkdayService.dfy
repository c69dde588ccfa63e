/** `OperationalAgentCompanyService.run` as the loop it is, over the durable store it updates.
    WorkdayMachine covers rival runners and crashes; here one runner starts, or resumes,
    undisturbed from whatever sound record it finds. */
module WorkdayService {
  import opened Collections
  import opened AgentCompany
  import opened WorkdayMachine
  import opened WorkdayShape
  import opened WorkdayInvariants
  import opened WorkdayTheorems
  import opened WorkdayAcceptance
  import opened WorkdayRecords

  /** The attempt completes its task. */
  predicate Passes(agent: Agent, attempt: Attempt) {
    attempt.Executed? && IsClean(agent, attempt.output, attempt.maxBudgetCents)
  }

  /** What a turn of the loop meets: readings of the clock as the task is marked and as its executor
      starts; the executor's result, with readings as it ends and as that is recorded; should that be
      refused, the error and the readings of the handler; and whether the database has room for each of
      the three records. */
  datatype Shift = Shift(
    marked: int, started: int, attempt: Attempt, end: int, recorded: int, refusal: Failure, caught: int,
    handled: int, fitsStart: bool, fitsEnd: bool, fitsBlock: bool)

  /** The repository takes the update that ends the attempt. */
  predicate IsRecorded(agent: Agent, s: Shift) {
    s.fitsEnd && Elapsed(s.started, s.end) <= 86_400_000 && AttemptFits(agent, s.attempt)
  }

  /** It refuses it, and takes the block that the handler writes instead. */
  predicate IsCaught(agent: Agent, s: Shift) {
    && !IsRecorded(agent, s) && s.attempt.Executed? && s.fitsBlock
    && Elapsed(s.started, s.caught) <= 86_400_000 && MessageFits(s.refusal)
  }

  /** How a turn ends, as a caller can tell beforehand. */
  datatype Turn = Unstarted | Completes | Blocks | Throws

  function TurnOf(co: Company, i: nat, attempts: nat, s: Shift): Turn
    requires i < |co.catalog|
  {
    var agent := co.catalog[i];
    if !DependenciesFirst(co.catalog, co.dependencies, i) || attempts >= 100 || !s.fitsStart then Unstarted
    else if IsRecorded(agent, s) then (if Passes(agent, s.attempt) then Completes else Blocks)
    else if IsCaught(agent, s) then Blocks
    else Throws
  }

  /** A clock that runs back counts as no time. */
  predicate Lasted(from: int, until: int, ms: int) {
    (until >= from ==> ms == until - from) && (until < from ==> ms == 0)
  }

  /** Task `t`, once its turn came to that end, in every field. */
  predicate TaskTurned(t: Task, after: Task, turn: Turn, s: Shift) {
    var begun := t.(attempts := t.attempts + 1, gates := [], startedAt := Some(s.marked), status := Running);
    match turn
    case Unstarted => after == t
    case Completes =>
      && s.attempt.Executed? && after.status.Completed?
      && Lasted(s.started, s.end, after.durationMs) && Ended(begun, s.attempt, after.durationMs, s.recorded, after)
    case Blocks =>
      && after.status.Blocked?
      && if IsRecorded(t.agent, s) then
           && Lasted(s.started, s.end, after.durationMs)
           && Ended(begun, s.attempt, after.durationMs, s.recorded, after)
         else
           && Lasted(s.started, s.caught, after.durationMs)
           && Ended(begun, Threw(s.refusal), after.durationMs, s.handled, after)
    case Throws => after == begun
  }

  /** Task `i` of `w` is as the run that found `before` leaves a completed task. */
  ghost predicate WorkedThrough(co: Company, before: Workday, w: Workday, shifts: seq<Shift>, i: nat)
    requires i < |shifts| == |w.tasks| == |before.tasks| == |co.catalog|
  {
    if before.tasks[i].status.Completed? then w.tasks[i] == before.tasks[i]
    else
      && TurnOf(co, i, before.tasks[i].attempts, shifts[i]).Completes?
      && TaskTurned(before.tasks[i], w.tasks[i], Completes, shifts[i])
  }

  /** How far a run that found `before` has come: tasks before `i` are worked through, the others
      are as found. */
  ghost predicate Progress(co: Company, before: Workday, w: Workday, shifts: seq<Shift>, i: nat) {
    && |w.tasks| == |before.tasks| == |shifts| == |co.catalog| && i <= |shifts|
    && (forall j :: 0 <= j < i ==> WorkedThrough(co, before, w, shifts, j))
    && (forall j :: i <= j < |shifts| ==> w.tasks[j] == before.tasks[j])
  }

  /** How a run ends: refused or returned at once, or after its loop. */
  datatype Ending =
    | Unopened
    | Conflicting
    | Settled
    | Awaiting
    | BlockedAt(task: nat)
    | ThrownAt(task: nat)

  /** Where the loop ends that found `before`: all tasks completed, each with the output of its own
      shift, and the day awaiting Fabio or, should that not fit, left running; or at the first task
      whose turn does not complete it, everything before it completed and everything after it
      untouched. */
  ghost predicate RanTo(co: Company, before: Workday, w: Workday, shifts: seq<Shift>, ending: Ending) {
    && |w.tasks| == |before.tasks| == |shifts| == |co.catalog|
    && match ending
       case Awaiting =>
         w.status.AwaitingFabio? && forall i :: 0 <= i < |shifts| ==> WorkedThrough(co, before, w, shifts, i)
       case BlockedAt(k) =>
         && StoppedAt(co, before, w, shifts, k)
         && TurnOf(co, k, before.tasks[k].attempts, shifts[k]).Blocks?
         && w.status.DayBlocked? && TaskTurned(before.tasks[k], w.tasks[k], Blocks, shifts[k])
       case ThrownAt(k) =>
         if k == |shifts| then
           w.status.DayRunning? && forall i :: 0 <= i < |shifts| ==> WorkedThrough(co, before, w, shifts, i)
         else
         && StoppedAt(co, before, w, shifts, k) && w.status.DayRunning?
         && var turn := TurnOf(co, k, before.tasks[k].attempts, shifts[k]);
            (turn.Unstarted? || turn.Throws?) && TaskTurned(before.tasks[k], w.tasks[k], turn, shifts[k])
       case _ => false
  }

  ghost predicate StoppedAt(co: Company, before: Workday, w: Workday, shifts: seq<Shift>, k: nat)
    requires |w.tasks| == |before.tasks| == |shifts| == |co.catalog|
  {
    && k < |shifts| && !before.tasks[k].status.Completed?
    && (forall i :: 0 <= i < k ==> WorkedThrough(co, before, w, shifts, i))
    && (forall i :: k < i < |shifts| ==> w.tasks[i] == before.tasks[i])
  }

  /** `next` differs from `w` in task `i` alone. */
  predicate ChangedAt(w: Workday, next: Workday, i: nat) {
    && |next.tasks| == |w.tasks| && i < |w.tasks|
    && forall k :: 0 <= k < |w.tasks| && k != i ==> next.tasks[k] == w.tasks[k]
  }

  /** What the turn of task `i` makes of `w`. */
  predicate Turned(w: Workday, next: Workday, i: nat, turn: Turn, s: Shift) {
    && ChangedAt(w, next, i) && TaskTurned(w.tasks[i], next.tasks[i], turn, s)
    && next.status == (if turn.Blocks? then DayBlocked else DayRunning)
    && (turn.Unstarted? ==> next == w)
  }

  lemma ProgressSkips(co: Company, before: Workday, w: Workday, shifts: seq<Shift>, i: nat)
    requires Progress(co, before, w, shifts, i) && i < |shifts| && w.tasks[i].status.Completed?
    ensures Progress(co, before, w, shifts, i + 1)
  {
  }

  lemma OthersWorkedThrough(co: Company, before: Workday, w: Workday, next: Workday, shifts: seq<Shift>, i: nat)
    requires Progress(co, before, w, shifts, i) && ChangedAt(w, next, i)
    ensures forall j :: 0 <= j < i ==> WorkedThrough(co, before, next, shifts, j)
  {
    forall j | 0 <= j < i
      ensures WorkedThrough(co, before, next, shifts, j)
    {
      assert WorkedThrough(co, before, w, shifts, j);
    }
  }

  lemma ProgressMoves(co: Company, before: Workday, w: Workday, next: Workday, shifts: seq<Shift>, i: nat, turn: Turn)
    requires Progress(co, before, w, shifts, i) && i < |shifts| && !w.tasks[i].status.Completed?
    requires w.status.DayRunning? && turn == TurnOf(co, i, w.tasks[i].attempts, shifts[i])
    requires Turned(w, next, i, turn, shifts[i])
    ensures match turn
            case Completes => Progress(co, before, next, shifts, i + 1)
            case Blocks => RanTo(co, before, next, shifts, BlockedAt(i))
            case _ => RanTo(co, before, next, shifts, ThrownAt(i))
  {
    hide TurnOf, Ended, IsRecorded, Lasted, DependenciesFirst;
    OthersWorkedThrough(co, before, w, next, shifts, i);
  }

  lemma UnstartedStops(co: Company, before: Workday, w: Workday, shifts: seq<Shift>, i: nat)
    requires Progress(co, before, w, shifts, i) && i < |shifts| && !w.tasks[i].status.Completed?
    requires w.status.DayRunning? && !DependenciesFirst(co.catalog, co.dependencies, i)
    ensures RanTo(co, before, w, shifts, ThrownAt(i))
  {
    hide DependenciesFirst, IsRecorded, IsCaught, Passes;
  }

  lemma Finished(co: Company, before: Workday, w: Workday, shifts: seq<Shift>)
    requires Progress(co, before, w, shifts, |shifts|)
    ensures RanTo(co, before, AwaitFabio(w), shifts, Awaiting)
    ensures w.status.DayRunning? ==> RanTo(co, before, w, shifts, ThrownAt(|shifts|))
  {
    forall i | 0 <= i < |shifts|
      ensures WorkedThrough(co, before, AwaitFabio(w), shifts, i)
    {
      assert WorkedThrough(co, before, w, shifts, i);
    }
  }

  lemma NothingDone(co: Company, w: Workday, shifts: seq<Shift>)
    requires GoodRecord(co, w) && |shifts| == |co.catalog|
    ensures CompletedBefore(w, 0) && Progress(co, w, w, shifts, 0)
  {
  }

  // ------------------------------------------------------------------- updates

  /** An update the repository takes exactly when its validator does, and that keeps the record
      sound if it does. */
  ghost predicate Writable(co: Company, w: Workday, next: Workday) {
    && next.version == w.version + 1 && next.input == w.input && w.status.DayRunning?
    && |Changed(w.tasks, next.tasks)| <= 1
    && (RecordOk(co, next) ==> GoodRecord(co, next))
  }

  lemma WritableExactly(co: Company, s: Store, w: Workday, next: Workday, fits: bool)
    requires s.record == Some(w) && Writable(co, w, next)
    ensures Update(co, s, w, next, fits).Some? <==> fits && RecordOk(co, next)
    ensures Update(co, s, w, next, fits).Some? ==> Update(co, s, w, next, fits).value.record == Some(next)
  {
    hide RecordOk, GoodRecord, Changed;
  }

  lemma OneChange(tasks: seq<Task>, next: seq<Task>, i: nat)
    requires i < |tasks| == |next| && forall k :: 0 <= k < |tasks| && k != i ==> next[k] == tasks[k]
    ensures |Changed(tasks, next)| <= 1
  {
    var changed := Changed(tasks, next);
    assert changed <= {i};
    SubsetSize(changed, i);
  }

  lemma SubsetSize(s: set<nat>, i: nat)
    requires s <= {i}
    ensures |s| <= 1
  {
    if i in s {
      assert s == {i};
    } else {
      assert s == {};
    }
  }

  lemma StartedAlone(co: Company, w: Workday, i: nat, now: int)
    requires Bound(co, w) && i < |w.tasks|
    ensures
      var next := MarkRunning(w, co.catalog[i], now);
      && ChangedAt(w, next, i)
      && next.tasks[i] == w.tasks[i].(attempts := w.tasks[i].attempts + 1, gates := [], startedAt := Some(now),
                                      status := Running)
  {
    RewritesAt(co, w, i, now, Output(0, 0, 0, false, false, false, 0), ExecutorOutputUnverified, [], 0);
  }

  /** Everything the runner relies on when it marks task `i` as running. */
  lemma Starting(co: Company, w: Workday, i: nat, now: int)
    requires GoodRecord(co, w) && w.status.DayRunning? && CompletedBefore(w, i) && i < |co.catalog|
    requires i < |w.tasks| && !w.tasks[i].status.Completed? && DependenciesFirst(co.catalog, co.dependencies, i)
    ensures
      var next := MarkRunning(w, co.catalog[i], now);
      && Writable(co, w, next) && (RecordOk(co, next) <==> w.tasks[i].attempts < 100)
      && next.status.DayRunning? && ChangedAt(w, next, i) && CompletedBefore(next, i)
      && next.tasks[i] == w.tasks[i].(attempts := w.tasks[i].attempts + 1, gates := [], startedAt := Some(now),
                                      status := Running)
  {
    var next := MarkRunning(w, co.catalog[i], now);
    HeadIsReady(co, w, i);
    StartAccepted(co, w, i, now);
    StartedAlone(co, w, i, now);
    MarkRunningFields(w, co.catalog[i], now);
    if RecordOk(co, next) {
      MarkRunningIsGood(co, w, i, now);
    }
    OneChange(w.tasks, next.tasks, i);
    hide MarkRunning, GoodRecord, DependenciesFirst, Incomplete, Changed, WellFormed, RecordOk;
  }

  lemma EndedAlone(co: Company, w: Workday, i: nat, attempt: Attempt, ms: int, now: int)
    requires Bound(co, w) && i < |w.tasks| && w.status.DayRunning?
    ensures
      var next := AttemptProposal(co.catalog[i], w, attempt, ms, now);
      && ChangedAt(w, next, i) && Ended(w.tasks[i], attempt, ms, now, next.tasks[i]) && next.tasks[i].durationMs == ms
      && (Passes(co.catalog[i], attempt) ==> next.status.DayRunning? && next.tasks[i].status.Completed?)
      && (!Passes(co.catalog[i], attempt) ==> next.tasks[i].status.Blocked? && next.status.DayBlocked?)
  {
    AttemptIsTold(co, w, i, attempt, ms, now);
    assert AttemptProposal(co.catalog[i], w, attempt, ms, now).tasks[i].durationMs == ms;
    hide Ended;
    AttemptRewrites(co, w, i, attempt, ms, now);
    var next := AttemptProposal(co.catalog[i], w, attempt, ms, now);
    assert w.tasks[i].agent == co.catalog[i];
  }

  /** Everything it relies on when the attempt ends. */
  lemma AttemptEnding(co: Company, w: Workday, i: nat, attempt: Attempt, ms: int, now: int)
    requires GoodRecord(co, w) && w.status.DayRunning? && CompletedBefore(w, i) && i < |w.tasks|
    requires w.tasks[i].status.Running? && 0 <= ms && CanProduce(co, co.catalog[i], attempt)
    ensures
      var next := AttemptProposal(co.catalog[i], w, attempt, ms, now);
      && Writable(co, w, next) && (RecordOk(co, next) <==> ms <= 86_400_000 && AttemptFits(co.catalog[i], attempt))
      && ChangedAt(w, next, i) && Ended(w.tasks[i], attempt, ms, now, next.tasks[i]) && next.tasks[i].durationMs == ms
      && (Passes(co.catalog[i], attempt) ==>
            && next.status.DayRunning? && next.tasks[i].status.Completed? && CompletedBefore(next, i + 1)
            && attempt.Executed?)
      && (!Passes(co.catalog[i], attempt) ==> next.tasks[i].status.Blocked? && next.status.DayBlocked?)
  {
    hide AttemptProposal, GoodRecord, Changed, AttemptFits, RecordOk, Passes, Ended;
    RecordIsBound(co, w);
    var next := AttemptProposal(co.catalog[i], w, attempt, ms, now);
    AttemptAccepted(co, w, i, attempt, ms, now);
    AttemptRewrites(co, w, i, attempt, ms, now);
    EndedAlone(co, w, i, attempt, ms, now);
    PassesExecutes(co.catalog[i], attempt);
    OneChange(w.tasks, next.tasks, i);
    if RecordOk(co, next) {
      AttemptIsGood(co, w, i, attempt, ms, now);
    }
  }

  lemma RecordIsBound(co: Company, w: Workday)
    requires GoodRecord(co, w)
    ensures Bound(co, w)
  {
  }

  lemma PassesExecutes(agent: Agent, attempt: Attempt)
    ensures Passes(agent, attempt) ==> attempt.Executed?
  {
  }

  lemma AllDone(co: Company, w: Workday)
    requires GoodRecord(co, w) && w.status.DayRunning? && CompletedBefore(w, |co.catalog|)
    ensures Writable(co, w, AwaitFabio(w)) && RecordOk(co, AwaitFabio(w))
  {
    AwaitIsGood(co, w);
    if |w.tasks| > 0 {
      OneChange(w.tasks, w.tasks, 0);
    } else {
      assert Changed(w.tasks, w.tasks) == {};
    }
  }

  /** At the head of the loop: a completed task is skipped, and another is ready exactly when the
      catalogue puts its dependencies first. */
  lemma Head(co: Company, w: Workday, i: nat)
    requires GoodRecord(co, w) && CompletedBefore(w, i) && i < |co.catalog|
    ensures i < |w.tasks| && TaskOf(w, co.catalog[i]) == Some(w.tasks[i])
    ensures w.tasks[i].status.Completed? ==> CompletedBefore(w, i + 1)
    ensures !w.tasks[i].status.Completed? ==>
              (Incomplete(w, w.tasks[i].dependencies) == [] <==> DependenciesFirst(co.catalog, co.dependencies, i))
  {
    TaskAt(co, w, i);
    if DependenciesFirst(co.catalog, co.dependencies, i) {
      HeadIsReady(co, w, i);
    } else if !w.tasks[i].status.Completed? {
      var d :| d in co.dependencies[co.catalog[i]] && d !in co.catalog[..i];
      DoneIsListed(co, w, i, d);
      NothingIncomplete(co, w, w.tasks[i].dependencies);
    }
  }

  /** The block of the dependency branch is never stored. */
  lemma BlockingIsRefused(co: Company, w: Workday, i: nat, now: int)
    requires GoodRecord(co, w) && w.status.DayRunning? && i < |w.tasks| && i < |co.catalog|
    requires Incomplete(w, w.tasks[i].dependencies) != []
    ensures
      var next := DependencyBlock(w, w.tasks[i], now);
      Writable(co, w, next) && !RecordOk(co, next)
  {
    var next := DependencyBlock(w, w.tasks[i], now);
    DependencyBlockIsRefused(co, w, i, now);
    RecordIsBound(co, w);
    var blocker := DependencyNotCompleted(Incomplete(w, w.tasks[i].dependencies));
    RewritesAt(co, w, i, now, Output(0, 0, 0, false, false, false, 0), blocker, BlockedGates(OtherError), 0);
    OneChange(w.tasks, next.tasks, i);
    hide GoodRecord, RecordOk, Changed, Incomplete, BlockTask, BlockedGates;
  }

  /** Each version of the stored record was announced, once and in order. */
  ghost predicate Told(s: Store) {
    match s.record
    case None => Announced(s.events) == []
    case Some(w) => Announced(s.events) == seq(w.version + 1, v requires 0 <= v < w.version + 1 => v)
  }

  class OperationalAgentCompanyService {
    const co: Company
    var store: Store

    /** The stored record is sound, and each of its versions was announced once and in order. */
    ghost predicate Valid()
      reads this
    {
      WellFormed(co) && Told(store) && (store.record.Some? ==> GoodRecord(co, store.record.value))
    }

    constructor (company: Company)
      requires WellFormed(company)
      ensures Valid() && co == company && store == Store(None, [])
    {
      co := company;
      store := Store(None, []);
    }

    /** The record a run works on: the stored one, or a new one that it inserts; none when the
        stored one was opened with another input, or the database has no room for a new one. */
    method Open(input: nat, fits: bool) returns (found: Option<Workday>)
      requires Valid()
      modifies this`store
      ensures Valid()
      ensures old(store).record.Some? ==>
                && store == old(store)
                && found == if store.record.value.input == input then store.record else None
      ensures old(store).record.None? && fits ==>
                && found == Some(Initial(co, input))
                && store == Store(found, old(store).events + [TaskChanged(0)])
      ensures old(store).record.None? && !fits ==> found == None && store == old(store)
    {
      if store.record.None? {
        InitialIsSound(co, input);
        var w := Initial(co, input);
        var inserted := AgentCompany.Insert(co, store, w, fits);
        if inserted.None? {
          return None;
        }
        AnnouncedOneMore(store.events, TaskChanged(w.version));
        store := inserted.value;
        found := Some(w);
        hide GoodRecord, WellFormed;
      } else if store.record.value.input != input {
        found := None;
      } else {
        found := store.record;
      }
    }

    /** `#update`: the record and its events, or nothing. */
    method Write(w: Workday, next: Workday, fits: bool) returns (stored: bool)
      requires Valid() && store.record == Some(w) && Writable(co, w, next)
      modifies this`store
      ensures Valid() && (stored <==> fits && RecordOk(co, next))
      ensures store.record == Some(if stored then next else w) && (!stored ==> store == old(store))
    {
      hide GoodRecord, RecordOk, WellFormed, Changed, Update, Told;
      WritableExactly(co, store, w, next, fits);
      var updated := Update(co, store, w, next, fits);
      stored := updated.Some?;
      if stored {
        EventsOfUpdate(co, store, w, next, fits);
        store := updated.value;
      }
    }

    /** Whatever it finds and whatever its executors do, an undisturbed run answers a conflict or a
        settled day at once, and otherwise ends where the first turn that does not complete its
        task says, or hands the completed day over. */
    method Run(input: nat, shifts: seq<Shift>, fitsFirst: bool, fitsLast: bool) returns (ending: Ending, w: Workday)
      requires Valid() && |shifts| == |co.catalog|
      requires forall i :: 0 <= i < |shifts| ==> CanProduce(co, co.catalog[i], shifts[i].attempt)
      modifies this`store
      ensures Valid()
      ensures
        var before := if old(store).record.Some? then old(store).record.value else Initial(co, input);
        && (ending.Unopened? <==> old(store).record.None? && !fitsFirst)
        && (!ending.Unopened? ==> store.record == Some(w))
        && (ending.Conflicting? <==> before.input != input)
        && (ending.Settled? <==> before.input == input && !before.status.DayRunning?)
        && (if ending.Unopened? || ending.Conflicting? || ending.Settled? then store == old(store)
            else
              && RanTo(co, before, w, shifts, ending)
              && (ending.Awaiting? ==> fitsLast) && (ending == ThrownAt(|shifts|) ==> !fitsLast))
    {
      var found := Open(input, fitsFirst);
      if found.None? {
        if store.record.None? {
          return Unopened, Initial(co, input);
        }
        return Conflicting, store.record.value;
      }
      w := found.value;
      if !w.status.DayRunning? {
        return Settled, w;
      }
      ending, w := WorkThrough(w, shifts, fitsLast);
    }

    /** The loop, and the hand-over after it. */
    method WorkThrough(before: Workday, shifts: seq<Shift>, fitsLast: bool) returns (ending: Ending, w: Workday)
      requires Valid() && store.record == Some(before) && before.status.DayRunning? && |shifts| == |co.catalog|
      requires forall i :: 0 <= i < |shifts| ==> CanProduce(co, co.catalog[i], shifts[i].attempt)
      modifies this`store
      ensures Valid() && store.record == Some(w) && RanTo(co, before, w, shifts, ending)
      ensures ending.Awaiting? || ending.BlockedAt? || ending.ThrownAt?
      ensures (ending.Awaiting? ==> fitsLast) && (ending == ThrownAt(|shifts|) ==> !fitsLast)
    {
      hide WellFormed, GoodRecord, CompletedBefore, Incomplete, TaskOf, Progress, RanTo, Told, DependenciesFirst,
           Writable, RecordOk;
      w := before;
      NothingDone(co, w, shifts);
      var i := 0;
      while i < |co.catalog|
        invariant 0 <= i <= |co.catalog|
        invariant Valid() && store.record == Some(w) && w.status.DayRunning? && CompletedBefore(w, i)
        invariant Progress(co, before, w, shifts, i)
      {
        Head(co, w, i);
        var task := TaskOf(w, co.catalog[i]).value;
        if task.status.Completed? {
          ProgressSkips(co, before, w, shifts, i);
        } else {
          var next, stop := TakeTask(before, w, shifts, i);
          if stop.Some? {
            return stop.value, next;
          }
          w := next;
        }
        i := i + 1;
      }
      AllDone(co, w);
      Finished(co, before, w, shifts);
      var last := AwaitFabio(w);
      var stored := Write(w, last, fitsLast);
      if stored {
        ending, w := Awaiting, last;
      } else {
        ending := ThrownAt(i);
      }
    }

    /** The loop's body for task `i`, which is not completed yet. */
    method TakeTask(ghost before: Workday, w: Workday, shifts: seq<Shift>, i: nat)
        returns (next: Workday, stop: Option<Ending>)
      requires Valid() && store.record == Some(w) && w.status.DayRunning? && CompletedBefore(w, i)
      requires Progress(co, before, w, shifts, i) && i < |co.catalog| == |shifts|
      requires i < |w.tasks| && !w.tasks[i].status.Completed?
      requires CanProduce(co, co.catalog[i], shifts[i].attempt)
      modifies this`store
      ensures Valid() && store.record == Some(next)
      ensures stop.None? ==>
                next.status.DayRunning? && CompletedBefore(next, i + 1) && Progress(co, before, next, shifts, i + 1)
      ensures stop.Some? ==>
                && RanTo(co, before, next, shifts, stop.value)
                && (stop.value == BlockedAt(i) || stop.value == ThrownAt(i))
    {
      Head(co, w, i);
      hide WellFormed, GoodRecord, CompletedBefore, Incomplete, TaskOf, Progress, RanTo, Turned, TurnOf, Told,
           DependenciesFirst, Writable, RecordOk;
      if Incomplete(w, w.tasks[i].dependencies) != [] {
        BlockOnDependencies(w, i, shifts[i]);
        UnstartedStops(co, before, w, shifts, i);
        return w, Some(ThrownAt(i));
      }
      var turn;
      next, turn := WorkOn(w, i, shifts[i]);
      ProgressMoves(co, before, w, next, shifts, i, turn);
      stop := match turn
              case Completes => None
              case Blocks => Some(BlockedAt(i))
              case _ => Some(ThrownAt(i));
    }

    /** The dependency branch: it writes nothing, whatever the database has room for. */
    method BlockOnDependencies(w: Workday, i: nat, s: Shift)
      requires Valid() && store.record == Some(w) && w.status.DayRunning?
      requires i < |co.catalog| && i < |w.tasks| && Incomplete(w, w.tasks[i].dependencies) != []
      modifies this`store
      ensures Valid() && store == old(store)
    {
      hide Incomplete, WellFormed, GoodRecord, RecordOk, Writable, Told, DependencyBlock;
      BlockingIsRefused(co, w, i, s.marked);
      var blocked := Write(w, DependencyBlock(w, w.tasks[i], s.marked), s.fitsStart);
    }

    /** One turn of the loop for a task that is not completed: mark it running, let its executor
        try, and record how that ended, or in the handler that it could not be recorded. */
    method WorkOn(w: Workday, i: nat, s: Shift) returns (next: Workday, turn: Turn)
      requires Valid() && store.record == Some(w) && w.status.DayRunning?
      requires i < |co.catalog| && i < |w.tasks| && CompletedBefore(w, i) && !w.tasks[i].status.Completed?
      requires DependenciesFirst(co.catalog, co.dependencies, i)
      requires CanProduce(co, co.catalog[i], s.attempt)
      modifies this`store
      ensures Valid() && store.record == Some(next)
      ensures turn == TurnOf(co, i, w.tasks[i].attempts, s) && Turned(w, next, i, turn, s)
      ensures turn.Completes? ==> CompletedBefore(next, i + 1)
    {
      hide WellFormed, GoodRecord, MarkRunning, AttemptProposal, CompletedBefore, Passes, Told, Writable,
           AttemptFits, DependenciesFirst, RecordOk, Ended;
      RecordIsBound(co, w);
      Starting(co, w, i, s.marked);
      var running := MarkRunning(w, co.catalog[i], s.marked);
      var begun := Write(w, running, s.fitsStart);
      if !begun {
        return w, Unstarted;
      }
      AttemptEnding(co, running, i, s.attempt, Elapsed(s.started, s.end), s.recorded);
      next := AttemptProposal(co.catalog[i], running, s.attempt, Elapsed(s.started, s.end), s.recorded);
      var stored := Write(running, next, s.fitsEnd);
      if !stored && s.attempt.Executed? {
        AttemptEnding(co, running, i, Threw(s.refusal), Elapsed(s.started, s.caught), s.handled);
        ThrewFits(co.catalog[i], s.refusal);
        next := AttemptProposal(co.catalog[i], running, Threw(s.refusal), Elapsed(s.started, s.caught), s.handled);
        stored := Write(running, next, s.fitsBlock);
      }
      if stored {
        turn := if next.status.DayRunning? then Completes else Blocks;
      } else {
        next, turn := running, Throws;
      }
    }
  }

  lemma EventsOfUpdate(co: Company, s: Store, w: Workday, next: Workday, fits: bool)
    requires Update(co, s, w, next, fits).Some?
    requires s.record == Some(w) && Told(s)
    ensures
      var after := Update(co, s, w, next, fits).value;
      after.record == Some(next) && Told(after)
  {
    hide RecordOk, TransitionAllowed, Announced;
    AnnouncedOneMore(s.events, TaskChanged(next.version));
    var told := s.events + [TaskChanged(next.version)];
    AnnouncedOneMore(told, ApprovalRequested(next.version));
    assert told + [] == told;
  }
}
