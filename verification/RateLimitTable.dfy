/** src/admin-security/persistent-admin-rate-limiter.ts: the stored table of records with its
    retention sweep and its capacity bound. */
module RateLimitTable {
  import opened Collections
  import opened RateLimiter
  import opened StableSort
  import opened RecordOrder

  function Lookup(table: seq<Record>, key: Key): Option<Record> {
    Find(table, (r: Record) => r.key == key)
  }

  function Active(table: seq<Record>, now: int): seq<Record> {
    Filter(table, (r: Record) => IsActive(r, now))
  }

  function Others(table: seq<Record>, key: Key): seq<Record> {
    Filter(table, (r: Record) => r.key != key)
  }

  /** The table once `next` replaced the record of its key. */
  function Store(table: seq<Record>, next: Record, now: int, config: Config): seq<Record> {
    Bounded(Others(Active(table, now), next.key) + [next], config.maxEntries)
  }

  function CheckTable(table: seq<Record>, key: Key, now: int, config: Config): seq<Record> {
    Store(table, ConsumeAttempt(Lookup(Active(table, now), key), key, now, config), now, config)
  }

  predicate CheckPermits(table: seq<Record>, key: Key, now: int, config: Config) {
    !IsLocked(ConsumeAttempt(Lookup(Active(table, now), key), key, now, config), now)
  }

  function FailureTable(table: seq<Record>, key: Key, now: int, config: Config): seq<Record> {
    Store(table, CountFailure(Lookup(Active(table, now), key), key, now, config), now, config)
  }

  function SuccessTable(table: seq<Record>, key: Key, now: int): seq<Record> {
    seq(|table|, i requires 0 <= i < |table| => if table[i].key == key then Forgive(table[i], now) else table[i])
  }

  lemma LookupIs(table: seq<Record>, r: Record)
    requires UniqueBy(table, KeyOf) && r in table
    ensures Lookup(table, r.key) == Some(r)
  {
    UniqueMembers(table, KeyOf, r, Lookup(table, r.key).value);
  }

  lemma LookupActive(table: seq<Record>, key: Key, now: int)
    requires UniqueBy(table, KeyOf)
    ensures Lookup(Active(table, now), key) == Prune(Lookup(table, key), now)
  {
    var found := Lookup(Active(table, now), key);
    if found.Some? {
      LookupIs(table, found.value);
    }
  }

  lemma StoreInput(table: seq<Record>, next: Record, now: int)
    requires UniqueBy(table, KeyOf)
    ensures UniqueBy(Others(Active(table, now), next.key) + [next], KeyOf)
  {
    var others := Others(Active(table, now), next.key);
    FilterKeepsUnique(table, (r: Record) => IsActive(r, now), KeyOf);
    FilterKeepsUnique(Active(table, now), (r: Record) => r.key != next.key, KeyOf);
    var all := others + [next];
    forall i, j | 0 <= i < j < |all|
      ensures KeyOf(all[i]) != KeyOf(all[j])
    {
      assert all[i] in others;
    }
  }

  /** A stored table has one record per key, stays within capacity, and holds nothing but the
      record just written and records it held before. */
  lemma StoreFacts(table: seq<Record>, next: Record, now: int, config: Config)
    requires UniqueBy(table, KeyOf)
    ensures UniqueBy(Store(table, next, now, config), KeyOf)
    ensures |Store(table, next, now, config)| <= config.maxEntries
    ensures forall r :: r in Store(table, next, now, config) ==> r == next || r in table
  {
    StoreInput(table, next, now);
    BoundedKeepsUnique(Others(Active(table, now), next.key) + [next], config.maxEntries);
  }

  /** A record of another key that survives is the one the sweep left in place. */
  lemma StoreElsewhere(table: seq<Record>, next: Record, now: int, config: Config, key: Key)
    requires UniqueBy(table, KeyOf) && key != next.key
    requires Lookup(Store(table, next, now, config), key).Some?
    ensures Lookup(Store(table, next, now, config), key) == Prune(Lookup(table, key), now)
  {
    var found := Lookup(Store(table, next, now, config), key).value;
    assert found in Others(Active(table, now), next.key);
    LookupIs(table, found);
  }

  lemma OthersArePruned(table: seq<Record>, next: Record, now: int, config: Config)
    requires UniqueBy(table, KeyOf)
    ensures forall k :: k != next.key && Lookup(Store(table, next, now, config), k).Some? ==>
              Lookup(Store(table, next, now, config), k) == Prune(Lookup(table, k), now)
  {
    forall k | k != next.key && Lookup(Store(table, next, now, config), k).Some?
      ensures Lookup(Store(table, next, now, config), k) == Prune(Lookup(table, k), now)
    {
      StoreElsewhere(table, next, now, config, k);
    }
  }

  /** The record just written is evicted exactly when `maxEntries` other live records carry a
      later timestamp; under clock order that never happens. */
  lemma JustTouchedIsKeptExactly(table: seq<Record>, next: Record, now: int, config: Config)
    requires UniqueBy(table, KeyOf)
    ensures Lookup(Store(table, next, now, config), next.key) == Some(next)
            <==> Newer(Others(Active(table, now), next.key), next.updatedAt) < config.maxEntries
  {
    StoreInput(table, next, now);
    StoreFacts(table, next, now, config);
    LastIsKeptExactly(Others(Active(table, now), next.key), next, config.maxEntries);
    if next in Store(table, next, now, config) {
      LookupIs(Store(table, next, now, config), next);
    }
  }

  /** Below capacity a sweep evicts nothing but stale records. */
  lemma BelowCapacityNothingIsEvicted(table: seq<Record>, next: Record, now: int, config: Config, key: Key)
    requires UniqueBy(table, KeyOf) && key != next.key
    requires |Others(Active(table, now), next.key)| < config.maxEntries
    ensures Lookup(Store(table, next, now, config), key) == Prune(Lookup(table, key), now)
  {
    var pruned := Prune(Lookup(table, key), now);
    if pruned.Some? {
      assert pruned.value in Others(Active(table, now), next.key);
      assert pruned.value in Store(table, next, now, config);
    }
    if Lookup(Store(table, next, now, config), key).Some? {
      StoreElsewhere(table, next, now, config, key);
    }
  }

  lemma SuccessKeepsUnique(table: seq<Record>, key: Key, now: int)
    requires UniqueBy(table, KeyOf)
    ensures UniqueBy(SuccessTable(table, key, now), KeyOf)
  {
    RewriteKeepsUnique(table, SuccessTable(table, key, now), KeyOf);
  }

  /** A recorded success rewrites its own key in place and no other. */
  lemma SuccessLookup(table: seq<Record>, key: Key, now: int, k: Key)
    requires UniqueBy(table, KeyOf)
    ensures Lookup(SuccessTable(table, key, now), k)
            == var found := Lookup(table, k);
               if k == key && found.Some? then Some(Forgive(found.value, now)) else found
  {
    SuccessKeepsUnique(table, key, now);
    var after := SuccessTable(table, key, now);
    var found := Lookup(table, k);
    if found.Some? {
      var i :| 0 <= i < |table| && table[i] == found.value;
      LookupIs(after, after[i]);
    } else {
      forall i | 0 <= i < |after|
        ensures after[i].key != k
      {
        assert table[i] in table;
      }
    }
  }

  // ---------------------------------------------------------------- whole runs

  datatype Op = CheckOp | FailureOp | SuccessOp

  datatype Event = Event(op: Op, key: Key, now: int)

  function TableStep(table: seq<Record>, e: Event, config: Config): seq<Record> {
    match e.op
    case CheckOp => CheckTable(table, e.key, e.now, config)
    case FailureOp => FailureTable(table, e.key, e.now, config)
    case SuccessOp => SuccessTable(table, e.key, e.now)
  }

  function TableAfter(events: seq<Event>, n: nat, config: Config): seq<Record>
    requires n <= |events|
  {
    if n == 0 then [] else TableStep(TableAfter(events, n - 1, config), events[n - 1], config)
  }

  function KindFor(e: Event, key: Key): Kind {
    if e.key == key then
      match e.op case CheckOp => Check case FailureOp => Failure case SuccessOp => Success
    else if e.op.SuccessOp? then Bystander else Sweep
  }

  function Project(events: seq<Event>, key: Key): seq<KeyEvent> {
    seq(|events|, i requires 0 <= i < |events| => KeyEvent(KindFor(events[i], key), events[i].now))
  }

  predicate InClockOrder(events: seq<Event>) {
    forall i, j :: 0 <= i < j < |events| ==> events[i].now <= events[j].now
  }

  /** Capacity never pushes out a live record of `key` while other keys are served. */
  predicate NotEvicted(events: seq<Event>, key: Key, config: Config) {
    forall i ::
      (&& 0 <= i < |events|
       && events[i].key != key && !events[i].op.SuccessOp?
       && Prune(Lookup(TableAfter(events, i, config), key), events[i].now).Some?)
      ==> Lookup(TableAfter(events, i + 1, config), key).Some?
  }

  /** Nor, which clock order rules out, a record of `key` just written. */
  predicate NeverLost(events: seq<Event>, key: Key, config: Config) {
    && NotEvicted(events, key, config)
    && forall i ::
         0 <= i < |events| && events[i].key == key && !events[i].op.SuccessOp? ==>
           Lookup(TableAfter(events, i + 1, config), key).Some?
  }

  /** The record a check or a failure writes back. */
  function Written(table: seq<Record>, e: Event, config: Config): (next: Record)
    ensures next.key == e.key && next.updatedAt == e.now
  {
    var found := Lookup(Active(table, e.now), e.key);
    if e.op.CheckOp? then ConsumeAttempt(found, e.key, e.now, config)
    else CountFailure(found, e.key, e.now, config)
  }

  lemma StepFacts(table: seq<Record>, e: Event, config: Config)
    requires UniqueBy(table, KeyOf) && |table| <= config.maxEntries
    ensures UniqueBy(TableStep(table, e, config), KeyOf)
    ensures |TableStep(table, e, config)| <= config.maxEntries
    ensures (forall r :: r in table ==> r.updatedAt <= e.now) ==>
              forall r :: r in TableStep(table, e, config) ==> r.updatedAt <= e.now
  {
    if e.op.SuccessOp? {
      SuccessKeepsUnique(table, e.key, e.now);
    } else {
      StoreFacts(table, Written(table, e, config), e.now, config);
    }
  }

  /** Along every run, whatever its clocks, each scope and key has at most one record and the
      capacity is respected. */
  lemma {:induction false} TableFacts(events: seq<Event>, n: nat, config: Config)
    requires n <= |events|
    ensures UniqueBy(TableAfter(events, n, config), KeyOf)
    ensures |TableAfter(events, n, config)| <= config.maxEntries
  {
    hide TableStep;
    if n > 0 {
      TableFacts(events, n - 1, config);
      StepFacts(TableAfter(events, n - 1, config), events[n - 1], config);
    }
  }

  ghost predicate StampedBy(table: seq<Record>, t: int) {
    forall r :: r in table ==> r.updatedAt <= t
  }

  lemma {:induction false} TableIsStamped(events: seq<Event>, n: nat, config: Config)
    requires n <= |events| && InClockOrder(events)
    ensures if n == 0 then TableAfter(events, n, config) == []
            else StampedBy(TableAfter(events, n, config), events[n - 1].now)
  {
    hide TableStep;
    if n > 0 {
      TableIsStamped(events, n - 1, config);
      TableFacts(events, n - 1, config);
      if n > 1 {
        assert events[n - 2].now <= events[n - 1].now;
      }
      StepFacts(TableAfter(events, n - 1, config), events[n - 1], config);
    }
  }

  /** What one event does to the record of the key it names: exactly the single-key step, unless
      capacity cuts off the record just written. */
  lemma OwnStep(table: seq<Record>, e: Event, config: Config)
    requires UniqueBy(table, KeyOf)
    requires !e.op.SuccessOp? ==> Lookup(TableStep(table, e, config), e.key).Some?
    ensures Lookup(TableStep(table, e, config), e.key)
            == KeyStep(e.key, Lookup(table, e.key), KeyEvent(KindFor(e, e.key), e.now), config)
  {
    if e.op.SuccessOp? {
      SuccessLookup(table, e.key, e.now, e.key);
    } else {
      LookupActive(table, e.key, e.now);
      StoredIsWritten(table, Written(table, e, config), e.now, config);
    }
  }

  /** The only record a sweep stores under the key it writes is the one written. */
  lemma StoredIsWritten(table: seq<Record>, next: Record, now: int, config: Config)
    ensures
      var found := Lookup(Store(table, next, now, config), next.key);
      found.Some? ==> found.value == next
  {
  }

  /** The record just written is found again exactly when it is not older than `maxEntries` live
      records of other keys. */
  lemma OwnStepExactly(table: seq<Record>, e: Event, config: Config)
    requires UniqueBy(table, KeyOf) && !e.op.SuccessOp?
    ensures Lookup(TableStep(table, e, config), e.key)
            == if Newer(Others(Active(table, e.now), e.key), e.now) < config.maxEntries
               then KeyStep(e.key, Lookup(table, e.key), KeyEvent(KindFor(e, e.key), e.now), config)
               else None
  {
    LookupActive(table, e.key, e.now);
    StoredIsWritten(table, Written(table, e, config), e.now, config);
    JustTouchedIsKeptExactly(table, Written(table, e, config), e.now, config);
  }

  /** In clock order a record just written is never cut off. */
  lemma ClockOrderLosesNothing(events: seq<Event>, key: Key, config: Config)
    requires InClockOrder(events) && NotEvicted(events, key, config)
    ensures NeverLost(events, key, config)
  {
    hide Lookup, NotEvicted;
    forall i | 0 <= i < |events| && events[i].key == key && !events[i].op.SuccessOp?
      ensures Lookup(TableAfter(events, i + 1, config), key).Some?
    {
      var table, e := TableAfter(events, i, config), events[i];
      TableFacts(events, i, config);
      TableIsStamped(events, i, config);
      if i > 0 {
        assert events[i - 1].now <= e.now;
      }
      NoneNewer(Others(Active(table, e.now), e.key), e.now);
      OwnStepExactly(table, e, config);
    }
  }

  /** What an event on another key does to the record of `key`, unless capacity evicts it. */
  lemma ForeignStep(table: seq<Record>, e: Event, key: Key, config: Config)
    requires UniqueBy(table, KeyOf) && e.key != key
    requires !e.op.SuccessOp? && Prune(Lookup(table, key), e.now).Some? ==>
               Lookup(TableStep(table, e, config), key).Some?
    ensures Lookup(TableStep(table, e, config), key)
            == KeyStep(key, Lookup(table, key), KeyEvent(KindFor(e, key), e.now), config)
  {
    hide Lookup, Store, Active, ConsumeAttempt, CountFailure, Forgive;
    if e.op.SuccessOp? {
      SuccessLookup(table, e.key, e.now, key);
    } else if Lookup(TableStep(table, e, config), key).Some? {
      StoreElsewhere(table, Written(table, e, config), e.now, config, key);
    }
  }

  /** The stored table, read at one key, runs in step with the single-key limiter, whatever the
      clocks say. */
  lemma {:induction false} TableTracksKey(events: seq<Event>, key: Key, n: nat, config: Config)
    requires n <= |events| && NeverLost(events, key, config)
    ensures Lookup(TableAfter(events, n, config), key) == KeyAfter(key, Project(events, key), n, config)
  {
    hide TableStep, KeyStep;
    if n > 0 {
      TableTracksKey(events, key, n - 1, config);
      TableFacts(events, n - 1, config);
      var before, e := TableAfter(events, n - 1, config), events[n - 1];
      assert TableAfter(events, n, config) == TableStep(before, e, config);
      if e.key == key {
        OwnStep(before, e, config);
      } else {
        ForeignStep(before, e, key, config);
      }
    }
  }

  /** Whether event `i` is a check that `checkAndConsume` let through. */
  predicate LetThrough(events: seq<Event>, i: nat, config: Config)
    requires i < |events|
  {
    events[i].op.CheckOp? && CheckPermits(TableAfter(events, i, config), events[i].key, events[i].now, config)
  }

  function LetThroughCount(events: seq<Event>, key: Key, from: nat, end: nat, config: Config): nat
    requires from <= end <= |events|
    decreases end - from
  {
    if from == end then 0
    else LetThroughCount(events, key, from, end - 1, config)
         + if events[end - 1].key == key && LetThrough(events, end - 1, config) then 1 else 0
  }

  lemma LetThroughIsPermitted(events: seq<Event>, key: Key, i: nat, config: Config)
    requires i < |events| && NeverLost(events, key, config)
    ensures events[i].key == key && LetThrough(events, i, config) <==> Permitted(key, Project(events, key), i, config)
  {
    TableTracksKey(events, key, i, config);
    TableFacts(events, i, config);
    LookupActive(TableAfter(events, i, config), key, events[i].now);
  }

  lemma {:induction false} CountsAgree(events: seq<Event>, key: Key, from: nat, end: nat, config: Config)
    requires from <= end <= |events| && NeverLost(events, key, config)
    ensures LetThroughCount(events, key, from, end, config)
            == PermittedCount(key, Project(events, key), from, end, config)
    decreases end - from
  {
    hide LetThrough, Permitted, NeverLost, Project;
    if from < end {
      CountsAgree(events, key, from, end - 1, config);
      LetThroughIsPermitted(events, key, end - 1, config);
    }
  }

  /** The table's runs in which `key` keeps time: no check of it lies before its stored window,
      and no window of it that was forgotten is begun anew before it is over. */
  predicate KeyKeepsTime(events: seq<Event>, key: Key, from: nat, end: nat, config: Config)
    requires end <= |events|
  {
    KeepsTime(key, Project(events, key), from, end, config)
  }

  /** Main bound, whatever other keys' clocks say.  In every run of the whole limiter that loses
      no record of `key` for capacity and in which `key` keeps time, its calls within any stretch
      of `windowMs` are let through at most `2 * maxRequests` times. */
  lemma KeyQuota(events: seq<Event>, key: Key, from: nat, end: nat, t: int, config: Config)
    requires from <= end <= |events| && NeverLost(events, key, config) && KeyKeepsTime(events, key, from, end, config)
    requires forall i :: from <= i < end && events[i].key == key && !events[i].op.SuccessOp? ==>
               t <= events[i].now < t + config.windowMs
    ensures LetThroughCount(events, key, from, end, config) <= 2 * config.maxRequests
  {
    CountsAgree(events, key, from, end, config);
    AnyIntervalPermitsAtMostTwice(key, Project(events, key), from, end, t, config);
  }

  /** As long as the stored record of `key` keeps its window start, at most `maxRequests`. */
  lemma KeyWindowQuota(events: seq<Event>, key: Key, from: nat, end: nat, config: Config)
    requires from <= end <= |events| && NeverLost(events, key, config) && KeyKeepsTime(events, key, from, end, config)
    requires
      var first, last := Lookup(TableAfter(events, from, config), key), Lookup(TableAfter(events, end, config), key);
      first.Some? && last.Some? && first.value.windowStartedAt == last.value.windowStartedAt
    ensures LetThroughCount(events, key, from, end, config) <= config.maxRequests
  {
    CountsAgree(events, key, from, end, config);
    TableTracksKey(events, key, from, config);
    TableTracksKey(events, key, end, config);
    OneWindowPermitsAtMostMaxRequests(key, Project(events, key), from, end, config);
  }

  /** Clock order is enough: in every clock-ordered run that does not evict `key` for capacity,
      any stretch of `windowMs` lets through at most `2 * maxRequests` calls on it. */
  lemma TableQuota(events: seq<Event>, key: Key, from: nat, end: nat, t: int, config: Config)
    requires from <= end <= |events| && InClockOrder(events) && NotEvicted(events, key, config)
    requires config.windowMs <= RETENTION_MS
    requires forall i :: from <= i < end ==> t <= events[i].now < t + config.windowMs
    ensures LetThroughCount(events, key, from, end, config) <= 2 * config.maxRequests
  {
    ClockOrderLosesNothing(events, key, config);
    ClockOrderKeepsTime(key, Project(events, key), from, end, config);
    KeyQuota(events, key, from, end, t, config);
  }

  /** As long as the stored record of `key` keeps its window start, at most `maxRequests`. */
  lemma TableWindowQuota(events: seq<Event>, key: Key, from: nat, end: nat, config: Config)
    requires from <= end <= |events| && InClockOrder(events) && NotEvicted(events, key, config)
    requires config.windowMs <= RETENTION_MS
    requires
      var first, last := Lookup(TableAfter(events, from, config), key), Lookup(TableAfter(events, end, config), key);
      first.Some? && last.Some? && first.value.windowStartedAt == last.value.windowStartedAt
    ensures LetThroughCount(events, key, from, end, config) <= config.maxRequests
  {
    ClockOrderLosesNothing(events, key, config);
    ClockOrderKeepsTime(key, Project(events, key), from, end, config);
    KeyWindowQuota(events, key, from, end, config);
  }

  /** A stored lock holds in the whole table: until it runs out or its key records a success,
      no check of the key is let through, whatever other keys do and whatever is swept. */
  lemma TableLockHolds(events: seq<Event>, key: Key, n: nat, j: nat, until: int, config: Config)
    requires 0 < n <= j < |events| && InClockOrder(events) && NotEvicted(events, key, config)
    requires
      var r := Lookup(TableAfter(events, n, config), key);
      r.Some? && r.value.lockedUntil == Some(until)
    requires forall k :: n <= k <= j ==> events[k].now < until && !(events[k].key == key && events[k].op.SuccessOp?)
    ensures events[j].key == key ==> !LetThrough(events, j, config)
  {
    ClockOrderLosesNothing(events, key, config);
    TableTracksKey(events, key, n, config);
    LetThroughIsPermitted(events, key, j, config);
    LockHolds(key, Project(events, key), n, j, until, config);
  }

  // ------------------------------------------- an unpruned, unbounded reference limiter

  function FoundIn(m: map<Key, Record>, key: Key): Option<Record> {
    if key in m then Some(m[key]) else None
  }

  function PlainMapStep(m: map<Key, Record>, e: Event, config: Config): map<Key, Record> {
    match e.op
    case CheckOp => m[e.key := ConsumeAttempt(FoundIn(m, e.key), e.key, e.now, config)]
    case FailureOp => m[e.key := CountFailure(FoundIn(m, e.key), e.key, e.now, config)]
    case SuccessOp => if e.key in m then m[e.key := Forgive(m[e.key], e.now)] else m
  }

  function PlainMapAfter(events: seq<Event>, n: nat, config: Config): map<Key, Record>
    requires n <= |events|
  {
    if n == 0 then map[] else PlainMapStep(PlainMapAfter(events, n - 1, config), events[n - 1], config)
  }

  lemma {:induction false} PlainMapTracksKey(events: seq<Event>, key: Key, n: nat, config: Config)
    requires n <= |events|
    ensures FoundIn(PlainMapAfter(events, n, config), key) == PlainAfter(key, Project(events, key), n, config)
  {
    if n > 0 {
      PlainMapTracksKey(events, key, n - 1, config);
    }
  }

  lemma ProjectKeepsOrder(events: seq<Event>, key: Key)
    requires InClockOrder(events)
    ensures ClockOrdered(Project(events, key))
  {
  }

  /** No failure of the key is counted anew although a map that never forgets has its record. */
  predicate KeyRemembers(events: seq<Event>, key: Key, n: nat, config: Config)
    requires n <= |events|
  {
    FailuresRemember(key, Project(events, key), n, config)
  }

  predicate OwnCount(events: seq<Event>, key: Key, i: nat)
    requires i < |events|
  {
    events[i].key == key && !events[i].op.SuccessOp?
  }

  predicate StoredAsInMap(events: seq<Event>, key: Key, i: nat, config: Config)
    requires i < |events|
  {
    Lookup(TableAfter(events, i + 1, config), key) == FoundIn(PlainMapAfter(events, i + 1, config), key)
  }

  lemma StoredAsRecord(events: seq<Event>, key: Key, i: nat, config: Config)
    requires i < |events| && NeverLost(events, key, config)
    ensures StoredAsInMap(events, key, i, config) <==> SameRecord(key, Project(events, key), i, config)
    ensures OwnCount(events, key, i)
            <==> Project(events, key)[i].kind.Check? || Project(events, key)[i].kind.Failure?
  {
    TableTracksKey(events, key, i + 1, config);
    PlainMapTracksKey(events, key, i + 1, config);
    hide Lookup, FoundIn, TableAfter, PlainMapAfter, KeyAfter, PlainAfter, NeverLost;
  }

  /** Over every clock-ordered run of the stored table: after each check and failure of a key it holds
      the record that a map which never forgets would, exactly when no failure was counted anew. */
  lemma TableRecordsAgreeExactly(events: seq<Event>, key: Key, config: Config)
    requires InClockOrder(events) && NotEvicted(events, key, config) && config.windowMs <= RETENTION_MS
    ensures (forall i :: 0 <= i < |events| && OwnCount(events, key, i) ==> StoredAsInMap(events, key, i, config))
            <==> KeyRemembers(events, key, |events|, config)
  {
    hide NotEvicted, NeverLost, InClockOrder, OwnCount, StoredAsInMap, SameRecord, FailuresRemember;
    ClockOrderLosesNothing(events, key, config);
    ProjectKeepsOrder(events, key);
    RecordsAgreeExactly(key, Project(events, key), config);
    forall i | 0 <= i < |events|
      ensures StoredAsInMap(events, key, i, config) <==> SameRecord(key, Project(events, key), i, config)
      ensures OwnCount(events, key, i)
              <==> Project(events, key)[i].kind.Check? || Project(events, key)[i].kind.Failure?
    {
      StoredAsRecord(events, key, i, config);
    }
    hide Project;
  }

  /** Retention pruning is then invisible: a clock-ordered run of the stored table answers each
      check exactly as a map that never forgets a record. */
  lemma TablePruningIsInvisible(events: seq<Event>, i: nat, config: Config)
    requires i < |events| && InClockOrder(events) && events[i].op.CheckOp?
    requires NotEvicted(events, events[i].key, config) && config.windowMs <= RETENTION_MS
    requires KeyRemembers(events, events[i].key, i, config)
    ensures
      var key, plain := events[i].key, PlainMapAfter(events, i + 1, config);
      key in plain && (LetThrough(events, i, config) <==> !IsLocked(plain[key], events[i].now))
  {
    hide NotEvicted, NeverLost, InClockOrder, FailuresRemember, IsLocked;
    var key := events[i].key;
    ClockOrderLosesNothing(events, key, config);
    assert ClockOrdered(Project(events, key)) by {
      ProjectKeepsOrder(events, key);
    }
    hide ClockOrdered;
    LetThroughIsPermitted(events, key, i, config);
    PlainMapTracksKey(events, key, i + 1, config);
    PruningIsInvisible(key, Project(events, key), i, config);
  }

  // ------------------------------------------------------------------ keys that do not keep time

  function BackwardRun(key: Key, n: nat, base: nat): seq<Event> {
    seq(n, i requires 0 <= i < n => Event(CheckOp, key, base + n - i))
  }

  /** A table that holds one record stores its successor alone. */
  lemma LoneRecord(r: Record, next: Record, now: int, config: Config)
    requires next.key == r.key
    ensures Store([], next, now, config) == [next] && Store([r], next, now, config) == [next]
    ensures Lookup(Active([r], now), r.key) == Prune(Some(r), now)
  {
    LookupActive([r], r.key, now);
    LookupIs([r], r);
    assert Others(Active([], now), next.key) == [];
    assert Others(Active([r], now), next.key) == [] by {
      var others := Others(Active([r], now), next.key);
      HasMember(others);
    }
    assert [] + [next] == [next];
    assert Sort([next], ByUpdated()) == [next] by {
      SortedStays([next], ByUpdated());
    }
  }

  /** A check that lies before the window it finds starts a new one. */
  lemma BackwardCheck(key: Key, now: int, config: Config)
    ensures
      var before, after := [Record(key, 1, 0, None, now + 1, now + 1)], [Record(key, 1, 0, None, now, now)];
      && CheckTable(before, key, now, config) == CheckTable([], key, now, config) == after
      && CheckPermits(before, key, now, config) && CheckPermits([], key, now, config)
  {
    var next := Record(key, 1, 0, None, now, now);
    LoneRecord(Record(key, 1, 0, None, now + 1, now + 1), next, now, config);
    assert Lookup(Active([], now), key).None?;
    hide Store, Active, Lookup;
  }

  predicate RunsBackward(events: seq<Event>, key: Key, base: nat) {
    forall i :: 0 <= i < |events| ==> events[i] == Event(CheckOp, key, base + |events| - i)
  }

  lemma {:induction false} BackwardRunResets(events: seq<Event>, key: Key, m: nat, base: nat, config: Config)
    requires m <= |events| && RunsBackward(events, key, base)
    ensures
      var now := base + |events| - m + 1;
      TableAfter(events, m, config) == if m == 0 then [] else [Record(key, 1, 0, None, now, now)]
    ensures LetThroughCount(events, key, 0, m, config) == m
  {
    hide CheckTable, CheckPermits, FailureTable, SuccessTable;
    if m > 0 {
      assert events[m - 1] == Event(CheckOp, key, base + |events| - m + 1);
      BackwardRunResets(events, key, m - 1, base, config);
      BackwardCheck(key, base + |events| - m + 1, config);
    }
  }

  /** Without it there is no bound: on the stored table, checks of one key that commit in the
      reverse order of their clocks are all let through, at any settings and for any number. */
  lemma BackwardClocksLiftTheQuota(key: Key, n: nat, base: nat, config: Config)
    ensures LetThroughCount(BackwardRun(key, n, base), key, 0, n, config) == n
    ensures n > 1 ==> !KeyKeepsTime(BackwardRun(key, n, base), key, 0, n, config)
  {
    hide LetThroughCount, OnTime, TableAfter;
    var events := BackwardRun(key, n, base);
    assert RunsBackward(events, key, base) && Project(events, key) == BackwardChecks(n, base);
    hide BackwardRun, Project, BackwardChecks, RunsBackward;
    BackwardRunResets(events, key, n, base, config);
    RateLimiter.BackwardClocksLiftTheQuota(key, n, base, config);
  }

  // One call a minute; another key's clock runs a day ahead and makes the sweep forget.
  const SINGLE: Config := Settings(15 * 60_000, 1_024, 5, 1, 60_000)

  function AheadRun(key: Key, other: Key): seq<Event> {
    [Event(CheckOp, key, 0), Event(CheckOp, other, RETENTION_MS + 1), Event(CheckOp, key, 0)]
  }

  /** Keeping to the guard alone is not enough: another key's clock, a day ahead, sweeps the record
      away, and both calls of one moment are let through although one is the limit. */
  lemma ForwardClocksForgetTheWindow(key: Key, other: Key)
    requires key != other
    ensures
      var events := AheadRun(key, other);
      && NeverLost(events, key, SINGLE) && !KeyKeepsTime(events, key, 0, 3, SINGLE)
      && LetThrough(events, 0, SINGLE) && LetThrough(events, 2, SINGLE)
  {
    var events := AheadRun(key, other);
    var projected := [KeyEvent(Check, 0), KeyEvent(Sweep, RETENTION_MS + 1), KeyEvent(Check, 0)];
    assert Project(events, key) == projected;
    assert KeyAfter(key, projected, 1, SINGLE) == Some(Record(key, 1, 0, None, 0, 0));
    assert KeyAfter(key, projected, 2, SINGLE) == None;
    assert LastStart(key, projected, 1, SINGLE) == LastStart(key, projected, 2, SINGLE) == Some(0);
    assert !OnTime(key, projected, 2, SINGLE);
    ShortRunLosesNothing(events, key, SINGLE);
    hide NeverLost;
    LetThroughIsPermitted(events, key, 0, SINGLE);
    LetThroughIsPermitted(events, key, 2, SINGLE);
  }

  lemma {:induction false} NewerIsFew(s: seq<Record>, t: int)
    ensures Newer(s, t) <= |s|
  {
    if s != [] {
      NewerIsFew(s[..|s| - 1], t);
    }
  }

  lemma {:induction false} TableIsShort(events: seq<Event>, n: nat, config: Config)
    requires n <= |events|
    ensures |TableAfter(events, n, config)| <= n
  {
    hide Active, Others, Written;
    if n > 0 {
      TableIsShort(events, n - 1, config);
      StepIsShort(TableAfter(events, n - 1, config), events[n - 1], config);
      hide TableStep;
    }
  }

  lemma StepIsShort(table: seq<Record>, e: Event, config: Config)
    ensures |TableStep(table, e, config)| <= |table| + 1
  {
  }

  /** A run with no more events than the table has room for loses nothing. */
  lemma ShortRunLosesNothing(events: seq<Event>, key: Key, config: Config)
    requires |events| <= config.maxEntries
    ensures NeverLost(events, key, config)
  {
    hide TableStep, Lookup, Active, Others, Prune, KeyStep;
    forall i | 0 <= i < |events| && !events[i].op.SuccessOp?
      ensures events[i].key == key ==> Lookup(TableAfter(events, i + 1, config), key).Some?
      ensures
        events[i].key != key && Prune(Lookup(TableAfter(events, i, config), key), events[i].now).Some? ==>
          Lookup(TableAfter(events, i + 1, config), key).Some?
    {
      TableFacts(events, i, config);
      TableIsShort(events, i, config);
      ShortTableKeeps(TableAfter(events, i, config), events[i], key, config);
    }
  }

  lemma ShortTableKeeps(table: seq<Record>, e: Event, key: Key, config: Config)
    requires UniqueBy(table, KeyOf) && |table| < config.maxEntries && !e.op.SuccessOp?
    ensures
      var after := Lookup(TableStep(table, e, config), key);
      if e.key == key then after.Some? else after == Prune(Lookup(table, key), e.now)
  {
    hide Lookup, Store, Newer, Prune, ConsumeAttempt, CountFailure;
    var others := Others(Active(table, e.now), e.key);
    if e.key == key {
      NewerIsFew(others, e.now);
      OwnStepExactly(table, e, config);
    } else {
      BelowCapacityNothingIsEvicted(table, Written(table, e, config), e.now, config, key);
    }
  }

  // A failure recorded a day late, after the sweep forgot the one before it.
  const STRICT: Config := Settings(15 * 60_000, 1_024, 2, 20, 60_000)

  function LateRun(key: Key): seq<Event> {
    var late := RETENTION_MS + 1;
    [Event(CheckOp, key, 0), Event(FailureOp, key, 0), Event(FailureOp, key, late), Event(CheckOp, key, late)]
  }

  /** A failure that trails its check by more than the retention time makes pruning visible on the
      stored table: it lets the next call through, a map that never forgets has locked the key. */
  lemma LateFailureMakesPruningVisible(key: Key)
    ensures
      var events, plain := LateRun(key), PlainMapAfter(LateRun(key), 4, STRICT);
      && InClockOrder(events) && NotEvicted(events, key, STRICT) && !KeyRemembers(events, key, 4, STRICT)
      && LetThrough(events, 3, STRICT)
      && key in plain && IsLocked(plain[key], events[3].now)
  {
    var events, late := LateRun(key), RETENTION_MS + 1;
    RateLimiter.LateFailureMakesPruningVisible(key);
    assert Project(events, key)
        == [KeyEvent(Check, 0), KeyEvent(Failure, 0), KeyEvent(Failure, late), KeyEvent(Check, late)];
    assert NotEvicted(events, key, STRICT);
    ClockOrderLosesNothing(events, key, STRICT);
    LetThroughIsPermitted(events, key, 3, STRICT);
    PlainMapTracksKey(events, key, 4, STRICT);
  }
}
