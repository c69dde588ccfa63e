/** Exactly which checks the limiter lets through, told by the calls made and the answers given and
    not by what the records hold. */
module RateLimitAnswers {
  import opened Collections
  import opened RateLimiter
  import opened RateLimitTable

  // ------------------------------------------------------------------- windows

  /** A key that keeps time stays in its window, or begins one with an event past the end of the last. */
  lemma StartMoves(key: Key, events: seq<KeyEvent>, i: nat, config: Config)
    requires i < |events| && OnTime(key, events, i, config)
    ensures
      var before, after, now := LastStart(key, events, i, config), LastStart(key, events, i + 1, config), events[i].now;
      after == before || (after == Some(now) && OverSince(before, now, config))
  {
  }

  /** Checks let through, among the first `n` events, in the window that began at `start`. */
  function LetIn(key: Key, events: seq<KeyEvent>, n: nat, start: int, config: Config): nat
    requires n <= |events|
  {
    if n == 0 then 0
    else
      LetIn(key, events, n - 1, start, config)
      + if Permitted(key, events, n - 1, config) && LastStart(key, events, n, config) == Some(start) then 1 else 0
  }

  lemma {:induction false} LetInNone(key: Key, events: seq<KeyEvent>, n: nat, start: int, config: Config)
    requires n <= |events| && KeepsTime(key, events, 0, n, config)
    requires var last := LastStart(key, events, n, config); last.Some? ==> last.value < start
    ensures LetIn(key, events, n, start, config) == 0
  {
    if n > 0 {
      assert OnTime(key, events, n - 1, config);
      StartMoves(key, events, n - 1, config);
      hide LastStart, OnTime, Permitted;
      LetInNone(key, events, n - 1, start, config);
    }
  }

  /** Within its window a record's attempts are the calls let through, up to the limit. */
  ghost predicate AttemptsCount(key: Key, events: seq<KeyEvent>, n: nat, config: Config)
    requires n <= |events|
  {
    var r := KeyAfter(key, events, n, config);
    r.Some? ==> LetIn(key, events, n, r.value.windowStartedAt, config) == Used(r.value, config)
  }

  lemma {:induction false} AttemptsAreLetIn(key: Key, events: seq<KeyEvent>, n: nat, config: Config)
    requires n <= |events| && KeepsTime(key, events, 0, n, config)
    ensures AttemptsCount(key, events, n, config)
  {
    if n > 0 {
      AttemptsAreLetIn(key, events, n - 1, config);
      assert OnTime(key, events, n - 1, config);
      var last, now := LastStart(key, events, n - 1, config), events[n - 1].now;
      if last.None? || last.value < now {
        LetInNone(key, events, n - 1, now, config);
      }
    }
  }

  /** The key is in a window that has let through as many checks as it may. */
  predicate Full(key: Key, events: seq<KeyEvent>, i: nat, config: Config)
    requires i < |events|
  {
    var start := LastStart(key, events, i, config);
    && start.Some? && events[i].now < start.value + config.windowMs
    && LetIn(key, events, i, start.value, config) >= config.maxRequests
  }

  predicate LockedOut(key: Key, events: seq<KeyEvent>, i: nat, config: Config)
    requires i < |events|
  {
    var r := KeyAfter(key, events, i, config);
    r.Some? && IsLocked(r.value, events[i].now)
  }

  /** Whatever other keys' clocks say: an unlocked check of a key that keeps time is let through exactly
      when its window is over or fewer than `maxRequests` checks were let through in it; a refused one
      shuts the key until `lockoutMs` later. */
  lemma UnlockedCheckExactly(key: Key, events: seq<KeyEvent>, i: nat, config: Config)
    requires i < |events| && events[i].kind.Check? && KeepsTime(key, events, 0, i + 1, config)
    requires !LockedOut(key, events, i, config)
    ensures Permitted(key, events, i, config) <==> !Full(key, events, i, config)
    ensures !Permitted(key, events, i, config) ==>
              && KeyAfter(key, events, i + 1, config).Some?
              && KeyAfter(key, events, i + 1, config).value.lockedUntil == Some(events[i].now + config.lockoutMs)
  {
    AttemptsAreLetIn(key, events, i, config);
    assert OnTime(key, events, i, config);
    hide LetIn;
  }

  // ------------------------------------------------------------------- failures

  /** Failures recorded since the last success, or since the window began. */
  function FailuresIn(key: Key, events: seq<KeyEvent>, n: nat, config: Config): nat
    requires n <= |events|
  {
    if n == 0 then 0
    else
      var begun := LastStart(key, events, n, config) != LastStart(key, events, n - 1, config);
      var before := if begun then 0 else FailuresIn(key, events, n - 1, config);
      match events[n - 1].kind
      case Success => 0
      case Failure => before + 1
      case _ => before
  }

  lemma {:induction false} FailuresAreCounted(key: Key, events: seq<KeyEvent>, n: nat, config: Config)
    requires n <= |events| && KeepsTime(key, events, 0, n, config)
    ensures
      var r := KeyAfter(key, events, n, config);
      r.Some? ==> r.value.failures == FailuresIn(key, events, n, config)
  {
    if n > 0 {
      FailuresAreCounted(key, events, n - 1, config);
      assert OnTime(key, events, n - 1, config);
    }
  }

  // ------------------------------------------------------------------- locks

  /** Event `k` shuts the key: a check that finds its window full, or a failure that is one too many. */
  predicate Shuts(key: Key, events: seq<KeyEvent>, k: nat, config: Config)
    requires k < |events|
    decreases k, 1
  {
    match events[k].kind
    case Check => !ShutAt(key, events, k, events[k].now, config) && Full(key, events, k, config)
    case Failure => FailuresIn(key, events, k + 1, config) >= config.maxFailures
    case _ => false
  }

  predicate NoSuccess(events: seq<KeyEvent>, from: nat, end: nat)
    requires end <= |events|
  {
    forall i :: from <= i < end ==> !events[i].kind.Success?
  }

  /** At time `now`, after `n` events, some event of the last `lockoutMs` has shut the key and no success
      came after it. */
  predicate ShutAt(key: Key, events: seq<KeyEvent>, n: nat, now: int, config: Config)
    requires n <= |events|
    decreases n, 0
  {
    exists k :: 0 <= k < n && Shuts(key, events, k, config) && NoSuccess(events, k + 1, n)
                && now < events[k].now + config.lockoutMs
  }

  lemma ShutOneMore(key: Key, events: seq<KeyEvent>, n: nat, now: int, config: Config)
    requires n < |events|
    ensures ShutAt(key, events, n + 1, now, config) <==>
              || (ShutAt(key, events, n, now, config) && !events[n].kind.Success?)
              || (Shuts(key, events, n, config) && now < events[n].now + config.lockoutMs)
  {
    hide Shuts;
    if ShutAt(key, events, n, now, config) && !events[n].kind.Success? {
      var k :| 0 <= k < n && Shuts(key, events, k, config) && NoSuccess(events, k + 1, n)
               && now < events[k].now + config.lockoutMs;
      assert NoSuccess(events, k + 1, n + 1);
    }
    if Shuts(key, events, n, config) && now < events[n].now + config.lockoutMs {
      assert NoSuccess(events, n + 1, n + 1);
    }
    if ShutAt(key, events, n + 1, now, config) {
      var k :| 0 <= k < n + 1 && Shuts(key, events, k, config) && NoSuccess(events, k + 1, n + 1)
               && now < events[k].now + config.lockoutMs;
      assert k < n ==> NoSuccess(events, k + 1, n);
    }
  }

  lemma ShutNoLonger(key: Key, events: seq<KeyEvent>, n: nat, now: int, later: int, config: Config)
    requires n <= |events| && now <= later && ShutAt(key, events, n, later, config)
    ensures ShutAt(key, events, n, now, config)
  {
    hide Shuts;
  }

  /** What locked the record is what shut the key. */
  ghost predicate LockIsShut(key: Key, events: seq<KeyEvent>, n: nat, now: int, config: Config)
    requires n <= |events|
  {
    var r := KeyAfter(key, events, n, config);
    (r.Some? && IsLocked(r.value, now)) <==> ShutAt(key, events, n, now, config)
  }

  lemma ShutWithin(key: Key, events: seq<KeyEvent>, n: nat, now: int, config: Config)
    requires 0 < n <= |events| && ClockOrdered(events) && ShutAt(key, events, n, now, config)
    ensures now < events[n - 1].now + config.lockoutMs
  {
    hide Shuts;
  }

  lemma {:induction false} LocksAreShuts(key: Key, events: seq<KeyEvent>, n: nat, now: int, config: Config)
    requires n <= |events| && ClockOrdered(events) && config.windowMs <= RETENTION_MS
    requires n > 0 ==> events[n - 1].now <= now
    ensures LockIsShut(key, events, n, now, config)
  {
    if n > 0 {
      var i, at := n - 1, events[n - 1].now;
      if i > 0 {
        assert events[i - 1].now <= at;
      }
      ClockOrderKeepsTime(key, events, 0, |events|, config);
      LocksAreShuts(key, events, i, now, config);
      LocksAreShuts(key, events, i, at, config);
      ShutOneMore(key, events, i, now, config);
      assert OnTime(key, events, i, config);
      FailuresAreCounted(key, events, n, config);
      AttemptsAreLetIn(key, events, i, config);
      if ShutAt(key, events, i, now, config) {
        ShutNoLonger(key, events, i, at, now, config);
        ShutWithin(key, events, i, now, config);
      }
      hide ShutAt, LetIn, FailuresIn, OnTime, KeepsTime, ClockOrdered;
    }
  }

  /** Main result for one key: over every clock-ordered run a check is let through exactly when nothing
      has shut the key for now and its window is over or not yet full. */
  lemma CheckAnsweredExactly(key: Key, events: seq<KeyEvent>, i: nat, config: Config)
    requires i < |events| && events[i].kind.Check? && ClockOrdered(events) && config.windowMs <= RETENTION_MS
    ensures Permitted(key, events, i, config)
            <==> !ShutAt(key, events, i, events[i].now, config) && !Full(key, events, i, config)
  {
    if i > 0 {
      assert events[i - 1].now <= events[i].now;
    }
    LocksAreShuts(key, events, i, events[i].now, config);
    ClockOrderKeepsTime(key, events, 0, i + 1, config);
    if !LockedOut(key, events, i, config) {
      UnlockedCheckExactly(key, events, i, config);
    }
    hide ShutAt, Full, KeepsTime, ClockOrdered;
  }

  /** A check begins a new window, at its own time, exactly when nothing shuts the key and the last
      window is over; otherwise the window stays. */
  lemma WindowBeginsExactly(key: Key, events: seq<KeyEvent>, i: nat, config: Config)
    requires i < |events| && events[i].kind.Check? && ClockOrdered(events) && config.windowMs <= RETENTION_MS
    ensures
      var start, now := LastStart(key, events, i, config), events[i].now;
      LastStart(key, events, i + 1, config)
      == if !ShutAt(key, events, i, now, config) && OverSince(start, now, config) then Some(now) else start
  {
    if i > 0 {
      assert events[i - 1].now <= events[i].now;
    }
    LocksAreShuts(key, events, i, events[i].now, config);
    ClockOrderKeepsTime(key, events, 0, i + 1, config);
    assert OnTime(key, events, i, config);
    hide ShutAt, KeepsTime, ClockOrdered;
  }

  // ------------------------------------------------------------------- what a sweep forgets

  /** Time of the last call on this key itself. */
  function LastCall(events: seq<KeyEvent>, n: nat): Option<int>
    requires n <= |events|
  {
    if n == 0 then None
    else if events[n - 1].kind.Sweep? || events[n - 1].kind.Bystander? then LastCall(events, n - 1)
    else Some(events[n - 1].now)
  }

  lemma {:induction false} RecordIsDated(key: Key, events: seq<KeyEvent>, n: nat, config: Config)
    requires n <= |events|
    ensures
      var r := KeyAfter(key, events, n, config);
      r.Some? ==> LastCall(events, n) == Some(r.value.updatedAt)
  {
    if n > 0 {
      RecordIsDated(key, events, n - 1, config);
    }
  }

  /** A sweep forgets a record exactly when nothing shuts its key and its last call lies more than a day
      back. */
  lemma ForgottenExactly(key: Key, events: seq<KeyEvent>, i: nat, config: Config)
    requires i < |events| && events[i].kind.Sweep? && events[i].now >= 0
    requires ClockOrdered(events) && config.windowMs <= RETENTION_MS && KeyAfter(key, events, i, config).Some?
    ensures LastCall(events, i).Some?
    ensures KeyAfter(key, events, i + 1, config).None? <==>
              !ShutAt(key, events, i, events[i].now, config) && events[i].now - LastCall(events, i).value > 86_400_000
  {
    if i > 0 {
      assert events[i - 1].now <= events[i].now;
    }
    RecordIsDated(key, events, i, config);
    LocksAreShuts(key, events, i, events[i].now, config);
    hide ShutAt, ClockOrdered;
  }

  // ------------------------------------------------------------------- the stored table

  /** Checks of `key` that the limiter let through, among the first `n` events, in its window that began
      at `start`. */
  function LetThroughIn(events: seq<Event>, key: Key, n: nat, start: int, config: Config): nat
    requires n <= |events|
  {
    if n == 0 then 0
    else
      LetThroughIn(events, key, n - 1, start, config)
      + if events[n - 1].key == key && LetThrough(events, n - 1, config)
           && LastStart(key, Project(events, key), n, config) == Some(start) then 1 else 0
  }

  lemma {:induction false} LetThroughIsLetIn(events: seq<Event>, key: Key, n: nat, start: int, config: Config)
    requires n <= |events| && NeverLost(events, key, config)
    ensures LetThroughIn(events, key, n, start, config) == LetIn(key, Project(events, key), n, start, config)
  {
    hide LetThrough, Permitted, NeverLost, Project, LastStart;
    if n > 0 {
      LetThroughIsLetIn(events, key, n - 1, start, config);
      LetThroughIsPermitted(events, key, n - 1, config);
    }
  }

  /** The window of `key` has let through as many of its checks as it may. */
  predicate WindowFull(events: seq<Event>, key: Key, i: nat, config: Config)
    requires i < |events|
  {
    var start := LastStart(key, Project(events, key), i, config);
    && start.Some? && events[i].now < start.value + config.windowMs
    && LetThroughIn(events, key, i, start.value, config) >= config.maxRequests
  }

  lemma WindowFullIsFull(events: seq<Event>, key: Key, i: nat, config: Config)
    requires i < |events| && NeverLost(events, key, config)
    ensures WindowFull(events, key, i, config) <==> Full(key, Project(events, key), i, config)
  {
    var start := LastStart(key, Project(events, key), i, config);
    hide NeverLost;
    if start.Some? {
      LetThroughIsLetIn(events, key, i, start.value, config);
    }
    hide LetIn, LetThroughIn, LastStart;
  }

  /** A check or a failure of `key` has shut it within the last `lockoutMs`, and no success came since. */
  predicate KeyShut(events: seq<Event>, key: Key, i: nat, config: Config)
    requires i < |events|
  {
    ShutAt(key, Project(events, key), i, events[i].now, config)
  }

  /** Main result: over every clock-ordered run of the stored table that does not evict the key, a check
      is let through exactly when nothing has shut its key for now and its window is over or has let
      fewer than `maxRequests` checks through. */
  lemma TableAnswersExactly(events: seq<Event>, i: nat, config: Config)
    requires i < |events| && events[i].op.CheckOp? && InClockOrder(events) && config.windowMs <= RETENTION_MS
    requires NotEvicted(events, events[i].key, config)
    ensures LetThrough(events, i, config)
            <==> !KeyShut(events, events[i].key, i, config) && !WindowFull(events, events[i].key, i, config)
  {
    var key := events[i].key;
    ClockOrderLosesNothing(events, key, config);
    ProjectKeepsOrder(events, key);
    hide NotEvicted, NeverLost, InClockOrder, ShutAt, WindowFull, Full, LetThrough, Permitted, ClockOrdered;
    LetThroughIsPermitted(events, key, i, config);
    WindowFullIsFull(events, key, i, config);
    CheckAnsweredExactly(key, Project(events, key), i, config);
  }

  lemma StoredIsLocked(events: seq<Event>, key: Key, i: nat, config: Config)
    requires i < |events| && NeverLost(events, key, config)
    ensures
      var r := Lookup(TableAfter(events, i, config), key);
      LockedOut(key, Project(events, key), i, config) <==> r.Some? && IsLocked(r.value, events[i].now)
  {
    TableTracksKey(events, key, i, config);
    hide NeverLost, Lookup, TableAfter, KeyAfter, IsLocked;
  }

  /** Check `i` finds its key unlocked, and the key has kept time. */
  predicate FindsOpen(events: seq<Event>, i: nat, config: Config)
    requires i < |events|
  {
    && events[i].op.CheckOp? && KeyKeepsTime(events, events[i].key, 0, i + 1, config)
    && var r := Lookup(TableAfter(events, i, config), events[i].key);
       r.Some? ==> !IsLocked(r.value, events[i].now)
  }

  lemma OpenIsUnlocked(events: seq<Event>, i: nat, config: Config)
    requires i < |events| && NeverLost(events, events[i].key, config) && FindsOpen(events, i, config)
    ensures
      var key, projected := events[i].key, Project(events, events[i].key);
      && |projected| == |events| && projected[i] == KeyEvent(Check, events[i].now)
      && KeepsTime(key, projected, 0, i + 1, config)
      && !LockedOut(key, projected, i, config)
  {
    StoredIsLocked(events, events[i].key, i, config);
    hide NeverLost, Lookup, TableAfter, LockedOut, IsLocked, OnTime;
  }

  /** Whatever the other keys' clocks say: of a key that keeps time and is not lost, an unlocked check is
      let through exactly when its window is over or not full, and a refused one is stored as shut until
      `lockoutMs` later. */
  lemma TableUnlockedExactly(events: seq<Event>, i: nat, config: Config)
    requires i < |events| && NeverLost(events, events[i].key, config) && FindsOpen(events, i, config)
    ensures LetThrough(events, i, config) <==> !WindowFull(events, events[i].key, i, config)
    ensures !LetThrough(events, i, config) ==>
              var r := Lookup(TableAfter(events, i + 1, config), events[i].key);
              r.Some? && r.value.lockedUntil == Some(events[i].now + config.lockoutMs)
  {
    hide *;
    var key := events[i].key;
    OpenIsUnlocked(events, i, config);
    LetThroughIsPermitted(events, key, i, config);
    WindowFullIsFull(events, key, i, config);
    UnlockedCheckExactly(key, Project(events, key), i, config);
    TableTracksKey(events, key, i + 1, config);
  }
}
