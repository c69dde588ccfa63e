/** `PersistentAdminRateLimiter` of src/admin-security/persistent-admin-rate-limiter.ts: the limiter
    that rewrites the stored table.  `calls` is bookkeeping: every call it ever took, in order. */
module PersistentRateLimiter {
  import opened Collections
  import opened RateLimiter
  import opened RateLimitTable
  import opened RateLimitAnswers
  import opened RecordOrder

  lemma {:induction false} EarlierCallsDecide(calls: seq<Event>, more: seq<Event>, n: nat, config: Config)
    requires n <= |calls|
    ensures TableAfter(calls + more, n, config) == TableAfter(calls, n, config)
  {
    hide TableStep;
    if n > 0 {
      EarlierCallsDecide(calls, more, n - 1, config);
    }
  }

  lemma OneMoreCall(calls: seq<Event>, e: Event, config: Config)
    ensures
      var all, before := calls + [e], TableAfter(calls, |calls|, config);
      && TableAfter(all, |calls|, config) == before
      && TableAfter(all, |all|, config) == TableStep(before, e, config)
      && UniqueBy(before, KeyOf)
  {
    hide TableStep;
    EarlierCallsDecide(calls, [e], |calls|, config);
    TableFacts(calls, |calls|, config);
  }

  class PersistentAdminRateLimiter {
    var rateLimits: seq<Record>
    ghost var calls: seq<Event>
    const config: Config

    /** The table is what the calls so far made of the empty one. */
    ghost predicate Valid()
      reads this
    {
      rateLimits == TableAfter(calls, |calls|, config)
    }

    constructor (config: Config)
      ensures Valid() && rateLimits == [] && calls == [] && this.config == config
    {
      this.config := config;
      rateLimits := [];
      calls := [];
    }

    /** Lets a call through exactly when nothing has shut its key and its window is not full, in clock
        order and as long as the key is not evicted; rewrites the record of its key as one step, and of
        other keys only sweeps and evicts. */
    method CheckAndConsume(key: Key, now: int) returns (permitted: bool)
      requires Valid()
      modifies this
      ensures Valid() && calls == old(calls) + [Event(CheckOp, key, now)]
      ensures permitted == LetThrough(calls, |old(calls)|, config)
      ensures InClockOrder(calls) && NotEvicted(calls, key, config) && config.windowMs <= RETENTION_MS ==>
                (permitted
                 <==> !KeyShut(calls, key, |old(calls)|, config) && !WindowFull(calls, key, |old(calls)|, config))
      ensures Lookup(rateLimits, key)
              == if Newer(Others(Active(old(rateLimits), now), key), now) < config.maxEntries
                 then KeyStep(key, Lookup(old(rateLimits), key), KeyEvent(Check, now), config)
                 else None
      ensures forall k :: k != key && Lookup(rateLimits, k).Some? ==>
                Lookup(rateLimits, k) == Prune(Lookup(old(rateLimits), k), now)
    {
      hide ConsumeAttempt, KeyStep, Bounded, TableAfter, NotEvicted, InClockOrder, KeyShut, WindowFull, KeyOf;
      ghost var e := Event(CheckOp, key, now);
      OneMoreCall(calls, e, config);
      var active := Active(rateLimits, now);
      var existing := Lookup(active, key);
      var next := ConsumeAttempt(existing, key, now, config);
      assert next == Written(rateLimits, e, config);
      OwnStepExactly(rateLimits, e, config);
      OthersArePruned(rateLimits, next, now, config);
      rateLimits := Bounded(Others(active, key) + [next], config.maxEntries);
      permitted := !IsLocked(next, now);
      if InClockOrder(calls + [e]) && NotEvicted(calls + [e], key, config) && config.windowMs <= RETENTION_MS {
        TableAnswersExactly(calls + [e], |calls|, config);
      }
      calls := calls + [e];
    }

    /** Counts a failure of its key as one step, and of other keys only sweeps and evicts. */
    method RecordFailure(key: Key, now: int)
      requires Valid()
      modifies this
      ensures Valid() && calls == old(calls) + [Event(FailureOp, key, now)]
      ensures Lookup(rateLimits, key)
              == if Newer(Others(Active(old(rateLimits), now), key), now) < config.maxEntries
                 then KeyStep(key, Lookup(old(rateLimits), key), KeyEvent(Failure, now), config)
                 else None
      ensures forall k :: k != key && Lookup(rateLimits, k).Some? ==>
                Lookup(rateLimits, k) == Prune(Lookup(old(rateLimits), k), now)
    {
      hide KeyStep, Bounded, TableAfter, KeyOf;
      ghost var e := Event(FailureOp, key, now);
      OneMoreCall(calls, e, config);
      var active := Active(rateLimits, now);
      var next := CountFailure(Lookup(active, key), key, now, config);
      OwnStepExactly(rateLimits, e, config);
      OthersArePruned(rateLimits, next, now, config);
      rateLimits := Bounded(Others(active, key) + [next], config.maxEntries);
      calls := calls + [e];
    }

    /** Forgives its own key in place, and leaves every other key's record as it was. */
    method RecordSuccess(key: Key, now: int)
      requires Valid()
      modifies this
      ensures Valid() && calls == old(calls) + [Event(SuccessOp, key, now)]
      ensures forall k :: Lookup(rateLimits, k) ==
                var found := Lookup(old(rateLimits), k);
                if k == key && found.Some? then Some(found.value.(failures := 0, lockedUntil := None, updatedAt := now))
                else found
    {
      hide TableAfter, KeyOf;
      ghost var e := Event(SuccessOp, key, now);
      OneMoreCall(calls, e, config);
      forall k { SuccessLookup(rateLimits, key, now, k); }
      rateLimits := SuccessTable(rateLimits, key, now);
      calls := calls + [e];
    }
  }
}
