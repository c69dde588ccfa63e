/** src/admin-security/persistent-admin-rate-limiter.ts: the persistent table of rate-limit
    records, one key at a time and as a whole.  Times are milliseconds. */
module RateLimiter {
  import opened Collections

  const RETENTION_MS: int := 24 * 60 * 60_000

  datatype Scope = Authentication | Bootstrap | Registration | StepUp

  datatype Key = Key(scope: Scope, keyHash: nat)

  datatype Record = Record(
    key: Key,
    attempts: nat,
    failures: nat,
    lockedUntil: Option<int>,
    updatedAt: int,
    windowStartedAt: int)

  datatype Settings = Settings(
    lockoutMs: int, maxEntries: int, maxFailures: int, maxRequests: int, windowMs: int)

  /** `validateConfig`: every setting is a positive integer. */
  type Config = c: Settings |
    c.lockoutMs > 0 && c.maxEntries > 0 && c.maxFailures > 0 && c.maxRequests > 0 && c.windowMs > 0
    witness Settings(15 * 60_000, 1_024, 5, 20, 60_000)

  predicate IsLocked(r: Record, now: int) {
    r.lockedUntil.Some? && r.lockedUntil.value > now
  }

  predicate IsActive(r: Record, now: int) {
    (if r.lockedUntil.Some? then r.lockedUntil.value else 0) > now || now - r.updatedAt <= RETENTION_MS
  }

  function NewRecord(key: Key, now: int): Record {
    Record(key, 0, 0, None, now, now)
  }

  function ConsumeAttempt(existing: Option<Record>, key: Key, now: int, config: Config): Record {
    if existing.None? then NewRecord(key, now).(attempts := 1)
    else
      var r := existing.value;
      if IsLocked(r, now) then r.(updatedAt := now)
      else
        var elapsed := now - r.windowStartedAt;
        if elapsed >= config.windowMs || elapsed < 0 then
          r.(attempts := 1, failures := 0, lockedUntil := None, updatedAt := now, windowStartedAt := now)
        else
          var attempts := r.attempts + 1;
          r.(attempts := attempts,
             lockedUntil := if attempts > config.maxRequests then Some(now + config.lockoutMs) else r.lockedUntil,
             updatedAt := now)
  }

  function CountFailure(existing: Option<Record>, key: Key, now: int, config: Config): Record {
    var r := if existing.Some? then existing.value else NewRecord(key, now);
    var failures := r.failures + 1;
    r.(failures := failures,
       lockedUntil := if failures >= config.maxFailures then Some(now + config.lockoutMs) else r.lockedUntil,
       updatedAt := now)
  }

  function Forgive(r: Record, now: int): Record {
    r.(failures := 0, lockedUntil := None, updatedAt := now)
  }

  // ------------------------------------------------------------------ one key

  /** What one event of the whole limiter means to a single key: a call on this key, a check or
      failure of another key (which sweeps stale records), or a success of another key. */
  datatype Kind = Check | Failure | Success | Sweep | Bystander

  datatype KeyEvent = KeyEvent(kind: Kind, now: int)

  function Prune(r: Option<Record>, now: int): Option<Record> {
    if r.Some? && IsActive(r.value, now) then r else None
  }

  function KeyStep(key: Key, r: Option<Record>, e: KeyEvent, config: Config): Option<Record> {
    match e.kind
    case Check => Some(ConsumeAttempt(Prune(r, e.now), key, e.now, config))
    case Failure => Some(CountFailure(Prune(r, e.now), key, e.now, config))
    case Success => if r.Some? then Some(Forgive(r.value, e.now)) else None
    case Sweep => Prune(r, e.now)
    case Bystander => r
  }

  /** The record of the key after the first `n` events. */
  function KeyAfter(key: Key, events: seq<KeyEvent>, n: nat, config: Config): Option<Record>
    requires n <= |events|
  {
    if n == 0 then None else KeyStep(key, KeyAfter(key, events, n - 1, config), events[n - 1], config)
  }

  /** Whether event `i` is a check of this key that was let through. */
  predicate Permitted(key: Key, events: seq<KeyEvent>, i: nat, config: Config)
    requires i < |events|
  {
    && events[i].kind.Check?
    && var next := KeyAfter(key, events, i + 1, config);
       next.Some? && !IsLocked(next.value, events[i].now)
  }

  /** Number of checks let through among events `from .. to`. */
  function PermittedCount(key: Key, events: seq<KeyEvent>, from: nat, end: nat, config: Config): nat
    requires from <= end <= |events|
    decreases end - from
  {
    if from == end then 0
    else PermittedCount(key, events, from, end - 1, config)
         + if Permitted(key, events, end - 1, config) then 1 else 0
  }

  predicate ClockOrdered(events: seq<KeyEvent>) {
    forall i, j :: 0 <= i < j < |events| ==> events[i].now <= events[j].now
  }

  /** Timestamps of a record never run ahead of a clock that never runs back. */
  lemma {:induction false} TimestampsInThePast(key: Key, events: seq<KeyEvent>, n: nat, config: Config)
    requires n <= |events| && ClockOrdered(events)
    ensures
      var r := KeyAfter(key, events, n, config);
      r.Some? ==> 0 < n && r.value.windowStartedAt <= r.value.updatedAt <= events[n - 1].now
                  && r.value.key == key
  {
    if n > 0 {
      TimestampsInThePast(key, events, n - 1, config);
    }
  }

  function Used(r: Record, config: Config): int {
    if r.attempts <= config.maxRequests then r.attempts else config.maxRequests
  }

  /** When the key's last window began, whether or not its record is still kept. */
  function LastStart(key: Key, events: seq<KeyEvent>, n: nat, config: Config): Option<int>
    requires n <= |events|
  {
    if n == 0 then None
    else
      var r := KeyAfter(key, events, n, config);
      if r.Some? then Some(r.value.windowStartedAt) else LastStart(key, events, n - 1, config)
  }

  /** Event `i` does not restart the key's window early: a check that consults a stored window
      does not lie before it, which is the guard of `consumeAttempt`, and a record that was
      forgotten is not begun anew before its last window is over. */
  predicate OnTime(key: Key, events: seq<KeyEvent>, i: nat, config: Config)
    requires i < |events|
  {
    var now, r := events[i].now, Prune(KeyAfter(key, events, i, config), events[i].now);
    match events[i].kind
    case Check =>
      if r.Some? then IsLocked(r.value, now) || now >= r.value.windowStartedAt
      else OverSince(LastStart(key, events, i, config), now, config)
    case Failure => r.Some? || OverSince(LastStart(key, events, i, config), now, config)
    case _ => true
  }

  predicate OverSince(start: Option<int>, now: int, config: Config) {
    start.Some? ==> now >= start.value + config.windowMs
  }

  predicate KeepsTime(key: Key, events: seq<KeyEvent>, from: nat, end: nat, config: Config)
    requires end <= |events|
  {
    forall i :: from <= i < end ==> OnTime(key, events, i, config)
  }

  /** Clock order is one way to keep time. */
  lemma {:induction false} ForgottenWindowsAreOver(key: Key, events: seq<KeyEvent>, n: nat, config: Config)
    requires n <= |events| && ClockOrdered(events) && config.windowMs <= RETENTION_MS
    ensures
      KeyAfter(key, events, n, config).None? ==>
        LastStart(key, events, n, config).Some? ==>
          n > 0 && events[n - 1].now >= LastStart(key, events, n, config).value + config.windowMs
  {
    if n > 0 {
      ForgottenWindowsAreOver(key, events, n - 1, config);
      TimestampsInThePast(key, events, n - 1, config);
    }
  }

  lemma ClockOrderKeepsTime(key: Key, events: seq<KeyEvent>, from: nat, end: nat, config: Config)
    requires from <= end <= |events| && ClockOrdered(events) && config.windowMs <= RETENTION_MS
    ensures KeepsTime(key, events, from, end, config)
  {
    forall i | from <= i < end
      ensures OnTime(key, events, i, config)
    {
      ForgottenWindowsAreOver(key, events, i, config);
      TimestampsInThePast(key, events, i, config);
      if i > 0 {
        assert events[i - 1].now <= events[i].now;
      }
    }
  }

  /** While the window of a key stays the same, the calls let through are the attempts it gained. */
  lemma {:induction false} WindowQuotaFrom(key: Key, events: seq<KeyEvent>, from: nat, end: nat, config: Config)
    requires from <= end <= |events| && KeepsTime(key, events, from, end, config)
    requires KeyAfter(key, events, from, config).Some?
    ensures
      var first, last := KeyAfter(key, events, from, config), KeyAfter(key, events, end, config);
      var start := LastStart(key, events, end, config);
      && start.Some? && start.value >= first.value.windowStartedAt
      && (last.Some? && start.value == first.value.windowStartedAt ==>
            PermittedCount(key, events, from, end, config) <= Used(last.value, config) - Used(first.value, config))
    decreases end - from
  {
    if from < end {
      WindowQuotaFrom(key, events, from, end - 1, config);
      assert OnTime(key, events, end - 1, config);
    }
  }

  /** One window of a key that keeps time lets through at most `maxRequests` calls, whatever
      failures, successes, locks and sweeps happen inside it, and whatever other clocks say. */
  lemma OneWindowPermitsAtMostMaxRequests(key: Key, events: seq<KeyEvent>, from: nat, end: nat, config: Config)
    requires from <= end <= |events| && KeepsTime(key, events, from, end, config)
    requires KeyAfter(key, events, from, config).Some? && KeyAfter(key, events, end, config).Some?
    requires KeyAfter(key, events, from, config).value.windowStartedAt
             == KeyAfter(key, events, end, config).value.windowStartedAt
    ensures PermittedCount(key, events, from, end, config) <= config.maxRequests
  {
    WindowQuotaFrom(key, events, from, end, config);
    if end > 0 {
      assert LastStart(key, events, end, config).value == KeyAfter(key, events, end, config).value.windowStartedAt;
    }
  }

  /** The checks and failures of the key among `from .. to` fall within `windowMs` from `t`. */
  predicate Within(events: seq<KeyEvent>, from: nat, end: nat, t: int, config: Config)
    requires end <= |events|
  {
    forall i :: from <= i < end && (events[i].kind.Check? || events[i].kind.Failure?) ==>
      t <= events[i].now < t + config.windowMs
  }

  function UsedOr(r: Option<Record>, config: Config): int {
    if r.Some? then Used(r.value, config) else config.maxRequests
  }

  /** Inside a stretch of `windowMs` starting at `t`, a key sees at most the rest of the window
      it was in and one window of its own. */
  lemma {:induction false} QuotaInStretch(
      key: Key, events: seq<KeyEvent>, from: nat, end: nat, t: int, config: Config)
    requires from <= end <= |events| && KeepsTime(key, events, from, end, config)
    requires Within(events, from, end, t, config)
    ensures
      var count, last := PermittedCount(key, events, from, end, config), KeyAfter(key, events, end, config);
      var start := LastStart(key, events, end, config);
      if start.None? then count == 0
      else if start.value < t then count <= UsedOr(last, config)
      else count <= config.maxRequests + UsedOr(last, config)
    decreases end - from
  {
    if from < end {
      QuotaInStretch(key, events, from, end - 1, t, config);
      assert OnTime(key, events, end - 1, config);
    }
  }

  /** Any half-open interval of length `windowMs` lets through at most twice `maxRequests`. */
  lemma AnyIntervalPermitsAtMostTwice(
      key: Key, events: seq<KeyEvent>, from: nat, end: nat, t: int, config: Config)
    requires from <= end <= |events| && KeepsTime(key, events, from, end, config)
    requires Within(events, from, end, t, config)
    ensures PermittedCount(key, events, from, end, config) <= 2 * config.maxRequests
  {
    QuotaInStretch(key, events, from, end, t, config);
  }

  // ------------------------------------------------- lockouts

  /** No lock reaches further than `lockoutMs` past the last event. */
  lemma {:induction false} LocksAreBounded(key: Key, events: seq<KeyEvent>, n: nat, config: Config)
    requires 0 < n <= |events| && ClockOrdered(events)
    ensures
      var r := KeyAfter(key, events, n, config);
      r.Some? && r.value.lockedUntil.Some? ==> r.value.lockedUntil.value <= events[n - 1].now + config.lockoutMs
  {
    if n > 1 {
      LocksAreBounded(key, events, n - 1, config);
      assert events[n - 2].now <= events[n - 1].now;
    }
  }

  /** A lock holds: until it runs out or the key records a success, no check is let through,
      whatever else happens, and no later failure shortens it. */
  lemma {:induction false} LockHolds(key: Key, events: seq<KeyEvent>, n: nat, j: nat, until: int, config: Config)
    requires 0 < n <= j < |events| && ClockOrdered(events)
    requires KeyAfter(key, events, n, config).Some?
    requires KeyAfter(key, events, n, config).value.lockedUntil == Some(until)
    requires forall k :: n <= k <= j ==> !events[k].kind.Success? && events[k].now < until
    ensures
      var r := KeyAfter(key, events, j + 1, config);
      r.Some? && r.value.lockedUntil.Some? && r.value.lockedUntil.value >= until
    ensures !Permitted(key, events, j, config)
  {
    if n < j {
      LockHolds(key, events, n, j - 1, until, config);
    }
    LocksAreBounded(key, events, j, config);
    assert events[j - 1].now <= events[j].now < until;
    var before := KeyAfter(key, events, j, config);
    assert Prune(before, events[j].now) == before;
  }

  /** Hence a failure that brings a key to `maxFailures` shuts it for `lockoutMs`. */
  lemma FailuresLockOut(key: Key, events: seq<KeyEvent>, n: nat, j: nat, config: Config)
    requires 0 < n <= j < |events| && ClockOrdered(events)
    requires events[n - 1].kind.Failure? && KeyAfter(key, events, n, config).value.failures >= config.maxFailures
    requires forall k :: n <= k <= j ==>
               !events[k].kind.Success? && events[k].now < events[n - 1].now + config.lockoutMs
    ensures !Permitted(key, events, j, config)
  {
    LockHolds(key, events, n, j, events[n - 1].now + config.lockoutMs, config);
  }

  // ------------------------------------------------- keys that do not keep time

  function BackwardChecks(n: nat, base: nat): seq<KeyEvent> {
    seq(n, i requires 0 <= i < n => KeyEvent(Check, base + n - i))
  }

  lemma {:induction false} BackwardChecksReset(key: Key, n: nat, m: nat, base: nat, config: Config)
    requires m <= n
    ensures
      var now := base + n - m + 1;
      m > 0 ==> KeyAfter(key, BackwardChecks(n, base), m, config) == Some(Record(key, 1, 0, None, now, now))
    ensures PermittedCount(key, BackwardChecks(n, base), 0, m, config) == m
  {
    if m > 0 {
      BackwardChecksReset(key, n, m - 1, base, config);
    }
  }

  /** Without it there is no bound at all: checks that commit in the reverse order of their clocks
      take the guarded branch every time, so any number of calls is let through. */
  lemma BackwardClocksLiftTheQuota(key: Key, n: nat, base: nat, config: Config)
    ensures PermittedCount(key, BackwardChecks(n, base), 0, n, config) == n
    ensures n > 1 ==> !OnTime(key, BackwardChecks(n, base), n - 1, config)
  {
    BackwardChecksReset(key, n, n, base, config);
    if n > 1 {
      BackwardChecksReset(key, n, n - 1, base, config);
    }
  }

  // ------------------------------------------------- pruning is invisible, one key

  /** The same limiter over a map from which nothing is ever removed. */
  function PlainStep(key: Key, r: Option<Record>, e: KeyEvent, config: Config): Option<Record> {
    match e.kind
    case Check => Some(ConsumeAttempt(r, key, e.now, config))
    case Failure => Some(CountFailure(r, key, e.now, config))
    case Success => if r.Some? then Some(Forgive(r.value, e.now)) else None
    case _ => r
  }

  function PlainAfter(key: Key, events: seq<KeyEvent>, n: nat, config: Config): Option<Record>
    requires n <= |events|
  {
    if n == 0 then None else PlainStep(key, PlainAfter(key, events, n - 1, config), events[n - 1], config)
  }

  /** Time of the last check of this key among the first `n` events. */
  function LastCheck(events: seq<KeyEvent>, n: nat): Option<int>
    requires n <= |events|
  {
    if n == 0 then None
    else if events[n - 1].kind.Check? then Some(events[n - 1].now)
    else LastCheck(events, n - 1)
  }

  /** Every failure is recorded within the retention time of the check before it. */
  predicate FailuresFollowChecks(events: seq<KeyEvent>) {
    forall i :: 0 <= i < |events| && events[i].kind.Failure? ==>
      var check := LastCheck(events, i);
      check.Some? && events[i].now - check.value <= RETENTION_MS
  }

  /** A record too old to matter: its window is over, its lock too, and its last check is
      further back than the retention time. */
  predicate Spent(r: Record, check: Option<int>, now: int, config: Config) {
    && r.windowStartedAt + config.windowMs <= now
    && !IsLocked(r, now)
    && (check.Some? ==> check.value + RETENTION_MS < now)
  }

  predicate Agree(
      key: Key, pruned: Option<Record>, plain: Option<Record>, check: Option<int>, now: int, config: Config)
  {
    && (plain.Some? ==> plain.value.key == key)
    && if pruned == plain then
      && (plain.None? ==> check.None?)
      && (plain.Some? ==> plain.value.windowStartedAt <= plain.value.updatedAt <= now
                          && (check.Some? ==> check.value <= plain.value.updatedAt))
    else
      pruned.None? && plain.Some? && Spent(plain.value, check, now, config)
  }

  lemma {:induction false} PruningAgrees(key: Key, events: seq<KeyEvent>, n: nat, config: Config)
    requires 0 < n <= |events| && ClockOrdered(events) && config.windowMs <= RETENTION_MS
    requires FailuresFollowChecks(events)
    ensures Agree(key, KeyAfter(key, events, n, config), PlainAfter(key, events, n, config),
                  LastCheck(events, n), events[n - 1].now, config)
  {
    var e := events[n - 1];
    if n == 1 {
      assert KeyAfter(key, events, 0, config).None? && PlainAfter(key, events, 0, config).None?;
      assert LastCheck(events, 0).None?;
    } else {
      PruningAgrees(key, events, n - 1, config);
      assert events[n - 2].now <= e.now;
    }
  }

  /** Failure `i` finds the record of the key, if a map without pruning has one. */
  predicate Remembered(key: Key, events: seq<KeyEvent>, i: nat, config: Config)
    requires i < |events|
  {
    PlainAfter(key, events, i, config).None? || Prune(KeyAfter(key, events, i, config), events[i].now).Some?
  }

  predicate FailuresRemember(key: Key, events: seq<KeyEvent>, n: nat, config: Config)
    requires n <= |events|
  {
    forall i :: 0 <= i < n && events[i].kind.Failure? ==> Remembered(key, events, i, config)
  }

  /** The two records are one, or the pruned one is gone and the other too old to matter. */
  predicate Close(key: Key, pruned: Option<Record>, plain: Option<Record>, now: int, config: Config) {
    && (plain.Some? ==> plain.value.key == key && plain.value.windowStartedAt <= plain.value.updatedAt <= now)
    && (pruned == plain
        || (&& pruned.None? && plain.Some? && plain.value.windowStartedAt + config.windowMs <= now
            && !IsLocked(plain.value, now)))
  }

  lemma {:induction false} StaysClose(key: Key, events: seq<KeyEvent>, n: nat, config: Config)
    requires 0 < n <= |events| && ClockOrdered(events) && config.windowMs <= RETENTION_MS
    requires FailuresRemember(key, events, n, config)
    ensures Close(key, KeyAfter(key, events, n, config), PlainAfter(key, events, n, config), events[n - 1].now, config)
    ensures events[n - 1].kind.Check? || events[n - 1].kind.Failure? ==>
              KeyAfter(key, events, n, config) == PlainAfter(key, events, n, config)
  {
    var e := events[n - 1];
    assert e.kind.Failure? ==> Remembered(key, events, n - 1, config);
    if n == 1 {
      assert KeyAfter(key, events, 0, config).None? && PlainAfter(key, events, 0, config).None?;
    } else {
      StaysClose(key, events, n - 1, config);
      assert events[n - 2].now <= e.now;
    }
  }

  /** The stored record and the one a map without pruning has. */
  predicate SameRecord(key: Key, events: seq<KeyEvent>, i: nat, config: Config)
    requires i < |events|
  {
    KeyAfter(key, events, i + 1, config) == PlainAfter(key, events, i + 1, config)
  }

  lemma {:induction false} SameRecordsRemember(key: Key, events: seq<KeyEvent>, n: nat, config: Config)
    requires n <= |events| && ClockOrdered(events) && config.windowMs <= RETENTION_MS
    requires forall i :: 0 <= i < n && events[i].kind.Failure? ==> SameRecord(key, events, i, config)
    ensures FailuresRemember(key, events, n, config)
  {
    if n > 0 {
      SameRecordsRemember(key, events, n - 1, config);
      if n > 1 {
        StaysClose(key, events, n - 1, config);
        assert events[n - 2].now <= events[n - 1].now;
      }
      if events[n - 1].kind.Failure? {
        assert SameRecord(key, events, n - 1, config);
        assert Remembered(key, events, n - 1, config);
      }
    }
  }

  /** Exactly when no failure is counted anew although the key had a record, the pruned limiter keeps
      after every check and failure the very record that one without pruning would. */
  lemma RecordsAgreeExactly(key: Key, events: seq<KeyEvent>, config: Config)
    requires ClockOrdered(events) && config.windowMs <= RETENTION_MS
    ensures (forall i :: 0 <= i < |events| && (events[i].kind.Check? || events[i].kind.Failure?) ==>
               SameRecord(key, events, i, config))
            <==> FailuresRemember(key, events, |events|, config)
  {
    if FailuresRemember(key, events, |events|, config) {
      forall i | 0 <= i < |events| && (events[i].kind.Check? || events[i].kind.Failure?)
        ensures SameRecord(key, events, i, config)
      {
        StaysClose(key, events, i + 1, config);
      }
    } else if forall i :: 0 <= i < |events| && events[i].kind.Failure? ==> SameRecord(key, events, i, config) {
      SameRecordsRemember(key, events, |events|, config);
    }
  }

  /** Failures that follow their checks within the retention time find their record. */
  lemma PromptFailuresRemember(key: Key, events: seq<KeyEvent>, config: Config)
    requires ClockOrdered(events) && config.windowMs <= RETENTION_MS && FailuresFollowChecks(events)
    ensures FailuresRemember(key, events, |events|, config)
  {
    forall i | 0 <= i < |events| && events[i].kind.Failure?
      ensures Remembered(key, events, i, config)
    {
      if i > 0 {
        PruningAgrees(key, events, i, config);
        assert events[i - 1].now <= events[i].now;
      }
    }
  }

  /** Retention pruning is invisible then: each check of a key gets the answer an unpruned map of
      records would have given it. */
  lemma PruningIsInvisible(key: Key, events: seq<KeyEvent>, i: nat, config: Config)
    requires i < |events| && ClockOrdered(events) && config.windowMs <= RETENTION_MS
    requires FailuresRemember(key, events, i, config) && events[i].kind.Check?
    ensures PlainAfter(key, events, i + 1, config).Some?
    ensures Permitted(key, events, i, config)
            <==> !IsLocked(PlainAfter(key, events, i + 1, config).value, events[i].now)
  {
    StaysClose(key, events, i + 1, config);
  }

  /** A failure that trails its check by more than the retention time makes pruning visible:
      the table forgot the earlier failure and lets the next call through, a plain map would
      have locked the key. */
  lemma LateFailureMakesPruningVisible(key: Key)
    ensures
      var config := Settings(15 * 60_000, 1_024, 2, 20, 60_000);
      var late := RETENTION_MS + 1;
      var events := [KeyEvent(Check, 0), KeyEvent(Failure, 0), KeyEvent(Failure, late), KeyEvent(Check, late)];
      && ClockOrdered(events) && !FailuresFollowChecks(events) && !Remembered(key, events, 2, config)
      && Permitted(key, events, 3, config)
      && PlainAfter(key, events, 4, config).Some? && IsLocked(PlainAfter(key, events, 4, config).value, late)
  {
    var config := Settings(15 * 60_000, 1_024, 2, 20, 60_000);
    var late := RETENTION_MS + 1;
    var events := [KeyEvent(Check, 0), KeyEvent(Failure, 0), KeyEvent(Failure, late), KeyEvent(Check, late)];
    assert LastCheck(events, 2) == LastCheck(events, 1) == Some(0);
    assert events[2].kind.Failure?;
    assert KeyAfter(key, events, 1, config) == Some(Record(key, 1, 0, None, 0, 0));
    assert KeyAfter(key, events, 2, config) == Some(Record(key, 1, 1, None, 0, 0));
    assert KeyAfter(key, events, 3, config) == Some(Record(key, 0, 1, None, late, late));
    assert KeyAfter(key, events, 4, config) == Some(Record(key, 1, 1, None, late, late));
    assert PlainAfter(key, events, 1, config) == Some(Record(key, 1, 0, None, 0, 0));
    assert PlainAfter(key, events, 2, config) == Some(Record(key, 1, 1, None, 0, 0));
    var locked := Some(Record(key, 1, 2, Some(late + 15 * 60_000), late, 0));
    assert PlainAfter(key, events, 3, config) == locked;
    assert PlainAfter(key, events, 4, config) == locked;
  }
}
