/** The bounded compare-and-set loop of src/admin-security/admin-security-state.ts.

    The first half is a small-step machine: any number of callers interleave their reads and
    their compare-and-sets over one revisioned register.  The second half is the loop itself,
    run against an arbitrary schedule of rival commits.  The closure that caller `i` passes to
    the loop is `mutate(i, ·)`. */
module OptimisticState {
  import opened AdminContracts

  const DEFAULT_CONFLICT_RETRIES: nat := 12

  /** What a mutation closure does with the state it is shown: throw, or propose a successor. */
  datatype Outcome<S, R> = Reject(error: Error) | Accept(next: S, result: R)

  datatype Phase<S, R> =
    | Idle
    | Holding(revision: nat, snapshot: S)
    | Returned(result: R)
    | Thrown
    | Exhausted

  datatype Caller<S, R> = Caller(failures: nat, phase: Phase<S, R>)

  /** One successful compare-and-set: who made it, what the register held before and after. */
  datatype Commit<S, R> = Commit(caller: nat, before: S, after: S, result: R)

  datatype World<S, R> = World(
    revision: nat, state: S, callers: seq<Caller<S, R>>, log: seq<Commit<S, R>>)

  datatype Move = Read(caller: nat) | CompareAndSet(caller: nat)

  function ReadStep<S, R>(w: World<S, R>, i: nat, retries: nat): World<S, R>
    requires i < |w.callers|
  {
    var c := w.callers[i];
    if !c.phase.Idle? then w
    else if c.failures >= retries then w.(callers := w.callers[i := c.(phase := Exhausted)])
    else w.(callers := w.callers[i := c.(phase := Holding(w.revision, w.state))])
  }

  function SwapStep<S, R>(w: World<S, R>, i: nat, proposal: Outcome<S, R>): World<S, R>
    requires i < |w.callers| && w.callers[i].phase.Holding?
  {
    var c := w.callers[i];
    match proposal
    case Reject(_) => w.(callers := w.callers[i := c.(phase := Thrown)])
    case Accept(next, result) =>
      if w.revision != c.phase.revision then
        w.(callers := w.callers[i := Caller(c.failures + 1, Idle)])
      else
        World(w.revision + 1, next, w.callers[i := c.(phase := Returned(result))],
              w.log + [Commit(i, w.state, next, result)])
  }

  function Step<S, R>(w: World<S, R>, mutate: (nat, S) -> Outcome<S, R>, move: Move, retries: nat): World<S, R> {
    var i := move.caller;
    if i >= |w.callers| then w
    else if move.Read? then ReadStep(w, i, retries)
    else if !w.callers[i].phase.Holding? then w
    else SwapStep(w, i, mutate(i, w.callers[i].phase.snapshot))
  }

  function Run<S, R>(w: World<S, R>, mutate: (nat, S) -> Outcome<S, R>, moves: seq<Move>, retries: nat): World<S, R>
    decreases |moves|
  {
    if moves == [] then w else Run(Step(w, mutate, moves[0], retries), mutate, moves[1..], retries)
  }

  function Start<S, R>(init: S, callers: nat): (w: World<S, R>) {
    World(0, init, seq(callers, _ => Caller(0, Idle)), [])
  }

  /** The register's contents after the first `k` commits. */
  function StateAt<S, R>(init: S, log: seq<Commit<S, R>>, k: nat): S
    requires k <= |log|
  {
    if k == 0 then init else log[k - 1].after
  }

  ghost predicate LogIsChain<S(!new), R(!new)>(w: World<S, R>, mutate: (nat, S) -> Outcome<S, R>, init: S) {
    && |w.log| == w.revision
    && w.state == StateAt(init, w.log, |w.log|)
    && (forall k :: 0 <= k < |w.log| ==> w.log[k].before == StateAt(init, w.log, k))
    && (forall k :: 0 <= k < |w.log| ==> w.log[k].caller < |w.callers|)
    && (forall k :: 0 <= k < |w.log| ==>
         mutate(w.log[k].caller, w.log[k].before) == Accept(w.log[k].after, w.log[k].result))
  }

  ghost predicate CommittedOnce<S(!new), R(!new)>(log: seq<Commit<S, R>>, i: nat, result: R) {
    exists k :: 0 <= k < |log| && log[k].caller == i && log[k].result == result
      && (forall j :: 0 <= j < |log| && log[j].caller == i ==> j == k)
  }

  ghost predicate NeverCommitted<S(!new), R(!new)>(log: seq<Commit<S, R>>, i: nat) {
    forall k :: 0 <= k < |log| ==> log[k].caller != i
  }

  ghost predicate CallerOk<S(!new), R(!new)>(
      c: Caller<S, R>, log: seq<Commit<S, R>>, init: S, i: nat, retries: nat)
  {
    match c.phase
    case Idle => NeverCommitted(log, i) && c.failures <= |log| && c.failures <= retries
    case Holding(r, s) =>
      && NeverCommitted(log, i) && c.failures <= r <= |log| && c.failures < retries
      && s == StateAt(init, log, r)
    case Returned(result) => CommittedOnce(log, i, result)
    case Thrown => NeverCommitted(log, i)
    case Exhausted => NeverCommitted(log, i) && retries <= |log|
  }

  ghost predicate Inv<S(!new), R(!new)>(
      w: World<S, R>, mutate: (nat, S) -> Outcome<S, R>, init: S, retries: nat)
  {
    && LogIsChain(w, mutate, init)
    && forall i :: 0 <= i < |w.callers| ==> CallerOk(w.callers[i], w.log, init, i, retries)
  }

  lemma BystanderKept<S(!new), R(!new)>(
      c: Caller<S, R>, log: seq<Commit<S, R>>, init: S, i: nat, retries: nat, entry: Commit<S, R>)
    requires CallerOk(c, log, init, i, retries) && entry.caller != i
    ensures CallerOk(c, log + [entry], init, i, retries)
  {
    match c.phase
    case Holding(r, s) =>
      assert StateAt(init, log + [entry], r) == StateAt(init, log, r);
    case Returned(result) =>
      var k :| 0 <= k < |log| && log[k].caller == i && log[k].result == result
        && (forall m :: 0 <= m < |log| && log[m].caller == i ==> m == k);
      assert (log + [entry])[k] == log[k];
    case _ =>
  }

  lemma CommitKeepsChain<S(!new), R(!new)>(
      w: World<S, R>, mutate: (nat, S) -> Outcome<S, R>, init: S, i: nat, next: S, result: R)
    requires LogIsChain(w, mutate, init) && i < |w.callers| && w.callers[i].phase.Holding?
    requires w.callers[i].phase.revision == w.revision
    requires mutate(i, w.state) == Accept(next, result)
    ensures LogIsChain(SwapStep(w, i, Accept(next, result)), mutate, init)
  {
    var w' := SwapStep(w, i, Accept(next, result));
    forall k | 0 <= k < |w'.log|
      ensures w'.log[k].before == StateAt(init, w'.log, k)
      ensures mutate(w'.log[k].caller, w'.log[k].before) == Accept(w'.log[k].after, w'.log[k].result)
    {
      if k < |w.log| {
        assert w'.log[k] == w.log[k];
        assert StateAt(init, w'.log, k) == StateAt(init, w.log, k);
      }
    }
  }

  lemma CommitKeepsInv<S(!new), R(!new)>(
      w: World<S, R>, mutate: (nat, S) -> Outcome<S, R>, i: nat, init: S, retries: nat)
    requires Inv(w, mutate, init, retries) && i < |w.callers|
    requires w.callers[i].phase.Holding? && w.callers[i].phase.revision == w.revision
    requires mutate(i, w.callers[i].phase.snapshot).Accept?
    ensures Inv(SwapStep(w, i, mutate(i, w.callers[i].phase.snapshot)), mutate, init, retries)
  {
    assert CallerOk(w.callers[i], w.log, init, i, retries);
    var Accept(next, result) := mutate(i, w.state);
    var w' := SwapStep(w, i, Accept(next, result));
    CommitKeepsChain(w, mutate, init, i, next, result);
    var entry := Commit(i, w.state, next, result);
    assert w'.log[|w.log|] == entry;
    assert CommittedOnce(w'.log, i, result);
    forall j | 0 <= j < |w'.callers|
      ensures CallerOk(w'.callers[j], w'.log, init, j, retries)
    {
      if j != i {
        BystanderKept(w.callers[j], w.log, init, j, retries, entry);
      }
    }
  }

  lemma StepKeepsInv<S(!new), R(!new)>(
      w: World<S, R>, mutate: (nat, S) -> Outcome<S, R>, move: Move, init: S, retries: nat)
    requires Inv(w, mutate, init, retries)
    ensures Inv(Step(w, mutate, move, retries), mutate, init, retries)
    ensures |Step(w, mutate, move, retries).callers| == |w.callers|
  {
    var i := move.caller;
    if i < |w.callers| {
      assert CallerOk(w.callers[i], w.log, init, i, retries);
      if move.CompareAndSet? && w.callers[i].phase.Holding?
         && mutate(i, w.callers[i].phase.snapshot).Accept?
         && w.revision == w.callers[i].phase.revision {
        CommitKeepsInv(w, mutate, i, init, retries);
      } else {
        var w' := Step(w, mutate, move, retries);
        assert CallerOk(w'.callers[i], w'.log, init, i, retries);
        forall j | 0 <= j < |w'.callers|
          ensures CallerOk(w'.callers[j], w'.log, init, j, retries)
        {
          assert CallerOk(w.callers[j], w.log, init, j, retries);
        }
      }
    }
  }

  lemma {:induction false} RunKeepsInv<S(!new), R(!new)>(
      w: World<S, R>, mutate: (nat, S) -> Outcome<S, R>, moves: seq<Move>, init: S, retries: nat)
    requires Inv(w, mutate, init, retries)
    ensures Inv(Run(w, mutate, moves, retries), mutate, init, retries)
    ensures |Run(w, mutate, moves, retries).callers| == |w.callers|
    decreases |moves|
  {
    if moves != [] {
      StepKeepsInv(w, mutate, moves[0], init, retries);
      RunKeepsInv(Step(w, mutate, moves[0], retries), mutate, moves[1..], init, retries);
    }
  }

  /** The closures of the callers in `order`, run one at a time and none of them throwing,
      lead from `init` to `final`, each handing back the corresponding result. */
  ghost predicate Serial<S(!new), R(!new)>(
      init: S, mutate: (nat, S) -> Outcome<S, R>, order: seq<nat>, final: S, results: seq<R>)
    requires |order| == |results|
    decreases |order|
  {
    if order == [] then final == init
    else
      var last := |order| - 1;
      exists s :: Serial(init, mutate, order[..last], s, results[..last])
                  && mutate(order[last], s) == Accept(final, results[last])
  }

  function Committers<S, R>(log: seq<Commit<S, R>>): (r: seq<nat>) {
    seq(|log|, k requires 0 <= k < |log| => log[k].caller)
  }

  function Results<S, R>(log: seq<Commit<S, R>>): (r: seq<R>) {
    seq(|log|, k requires 0 <= k < |log| => log[k].result)
  }

  lemma {:induction false} PrefixIsSerial<S(!new), R(!new)>(
      w: World<S, R>, mutate: (nat, S) -> Outcome<S, R>, init: S, k: nat)
    requires LogIsChain(w, mutate, init) && k <= |w.log|
    ensures Serial(init, mutate, Committers(w.log)[..k], StateAt(init, w.log, k), Results(w.log)[..k])
    decreases k
  {
    if k > 0 {
      PrefixIsSerial(w, mutate, init, k - 1);
      var order, results := Committers(w.log)[..k], Results(w.log)[..k];
      assert order[..k - 1] == Committers(w.log)[..k - 1];
      assert results[..k - 1] == Results(w.log)[..k - 1];
      var s := w.log[k - 1].before;
      assert Serial(init, mutate, order[..k - 1], s, results[..k - 1]);
    }
  }

  ghost predicate PhaseMatchesLog<S(!new), R(!new)>(
      phase: Phase<S, R>, log: seq<Commit<S, R>>, i: nat, retries: nat)
  {
    match phase
    case Returned(result) => CommittedOnce(log, i, result)
    case Exhausted => NeverCommitted(log, i) && retries <= |log|
    case _ => NeverCommitted(log, i)
  }

  /** Main theorem: whatever the interleaving, the register is what the committed mutations
      give one at a time in revision order; a caller that returned committed exactly once,
      with the result it was handed; a caller that threw or ran out of retries committed
      nothing, and running out takes at least `retries` commits by the others. */
  lemma EveryInterleavingIsSerial<S(!new), R(!new)>(
      init: S, callers: nat, mutate: (nat, S) -> Outcome<S, R>, moves: seq<Move>, retries: nat)
    ensures
      var w := Run(Start(init, callers), mutate, moves, retries);
      && |w.log| == w.revision && |w.callers| == callers
      && Serial(init, mutate, Committers(w.log), w.state, Results(w.log))
      && (forall i :: 0 <= i < callers ==> PhaseMatchesLog(w.callers[i].phase, w.log, i, retries))
  {
    var w0 := Start<S, R>(init, callers);
    assert Inv(w0, mutate, init, retries);
    RunKeepsInv(w0, mutate, moves, init, retries);
    var w := Run(w0, mutate, moves, retries);
    PrefixIsSerial(w, mutate, init, |w.log|);
    assert Committers(w.log)[..|w.log|] == Committers(w.log);
    assert Results(w.log)[..|w.log|] == Results(w.log);
    forall i | 0 <= i < callers
      ensures PhaseMatchesLog(w.callers[i].phase, w.log, i, retries)
    {
      assert CallerOk(w.callers[i], w.log, init, i, retries);
    }
  }

  // ---------------------------------------------------------------- the loop itself

  /** What the register holds once the rivals' proposals `written` have gone in, one by one. */
  function After<S>(s: S, written: seq<S>): S {
    if written == [] then s else written[|written| - 1]
  }

  /** All that rivals write during the first `k` windows; windows past the schedule are quiet. */
  function Before<S>(schedule: seq<seq<S>>, k: nat): seq<S> {
    if k == 0 then []
    else if k <= |schedule| then Before(schedule, k - 1) + schedule[k - 1]
    else Before(schedule, k - 1)
  }

  predicate Quiet<S>(schedule: seq<seq<S>>, k: nat) {
    k < |schedule| ==> |schedule[k]| == 0
  }

  datatype Reply<R> = Done(result: R) | Threw(error: Error) | Conflict

  /** The repository boundary of src/admin-security/admin-security-repository.ts. */
  class Repository<S> {
    var revision: nat
    var state: S

    constructor (init: S)
      ensures revision == 0 && state == init
    {
      revision, state := 0, init;
    }

    method Read() returns (r: nat, s: S)
      ensures r == revision && s == state
    {
      r, s := revision, state;
    }

    method CompareAndSet(expected: nat, next: S) returns (swapped: bool)
      modifies this
      ensures swapped == (old(revision) == expected)
      ensures if swapped then revision == expected + 1 && state == next
              else revision == old(revision) && state == old(state)
    {
      swapped := revision == expected;
      if swapped {
        revision, state := revision + 1, next;
      }
    }

    /** Other callers commit `written`, one after the other. */
    method Interfere(written: seq<S>)
      modifies this
      ensures revision == old(revision) + |written|
      ensures state == After(old(state), written)
    {
      for i := 0 to |written|
        invariant revision == old(revision) + i
        invariant state == After(old(state), written[..i])
      {
        var r, _ := Read();
        var _ := CompareAndSet(r, written[i]);
      }
    }

    /** `mutateAdminSecurityState` under an arbitrary schedule of rival commits: `schedule[k]`
        is what others write between the k-th read and the compare-and-set that follows it.
        The loop returns normally exactly when some attempt meets a quiet window, and then its
        own mutation is applied once, to what the rivals left; it reports a conflict only when
        every one of its attempts was overtaken, and then it has written nothing. */
    method MutateAdminSecurityState<R>(
        mutate: S -> Outcome<S, R>, conflictRetries: nat, schedule: seq<seq<S>>)
      returns (reply: Reply<R>, ghost attempts: nat)
      modifies this
      ensures attempts <= conflictRetries
      ensures forall k :: 0 <= k < attempts ==> !Quiet(schedule, k)
      ensures forall k :: 0 <= k < attempts ==> mutate(After(old(state), Before(schedule, k))).Accept?
      ensures reply.Conflict? <==> attempts == conflictRetries
      ensures
        var seen := After(old(state), Before(schedule, attempts));
        match reply
        case Done(result) =>
          && Quiet(schedule, attempts) && mutate(seen) == Accept(state, result)
          && revision == old(revision) + |Before(schedule, attempts)| + 1
        case Threw(error) =>
          && mutate(seen) == Reject(error) && state == seen
          && revision == old(revision) + |Before(schedule, attempts)|
        case Conflict =>
          state == seen && revision == old(revision) + |Before(schedule, attempts)|
    {
      attempts := 0;
      for attempt := 0 to conflictRetries
        invariant attempts == attempt
        invariant forall k :: 0 <= k < attempt ==> !Quiet(schedule, k)
        invariant forall k :: 0 <= k < attempt ==> mutate(After(old(state), Before(schedule, k))).Accept?
        invariant state == After(old(state), Before(schedule, attempt))
        invariant revision == old(revision) + |Before(schedule, attempt)|
      {
        var current, snapshot := Read();
        var mutation := mutate(snapshot);
        if mutation.Reject? {
          reply := Threw(mutation.error);
          return;
        }
        if attempt < |schedule| {
          Interfere(schedule[attempt]);
        }
        var swapped := CompareAndSet(current, mutation.next);
        if swapped {
          reply := Done(mutation.result);
          return;
        }
        attempts := attempts + 1;
      }
      reply := Conflict;
    }
  }
}
