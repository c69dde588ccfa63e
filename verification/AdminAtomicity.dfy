/** Why a mutation may be one step of the ceremony machine: however the retry loops of concurrent
    calls interleave their reads and their swaps, what they commit is a path of that machine. */
module AdminAtomicity {
  import opened Collections
  import opened AdminContracts
  import opened AdminTransactions
  import opened AdminCeremonies
  import opened AdminPreservation
  import opened AdminHistory
  import opened AdminSchedules
  import Loop = OptimisticState

  /** The caller an action belongs to, if it is part of a longer ceremony. */
  function OwnThread(a: Action): Option<nat> {
    match a
    case BeginLogin(t) => Some(t)
    case OfferLogin(t, _, _, _, _) => Some(t)
    case ConsumeChallenge(t, _, _, _, _, _) => Some(t)
    case ReadCredential(t, _) => Some(t)
    case FinishRegistration(t, _, _, _, _) => Some(t)
    case FinishLogin(t, _, _, _, _, _) => Some(t)
    case Present(t, _, _) => Some(t)
    case ReadSessionState(t, _) => Some(t)
    case Touch(t) => Some(t)
    case Perform(t, _, _, _, _) => Some(t)
    case FinishStepUp(t, _, _, _, _, _) => Some(t)
    case Abandon(t) => Some(t)
    case _ => None
  }

  /** What the closure of `a` does with the state the loop shows it, the repository's own check
      included; the rest of what it captured stays as `sys` has it. */
  ghost function Mutate(config: Config, sys: System, a: Action, s: State): Loop.Outcome<State, ()> {
    match ProposalOf(config, sys.(state := s), a)
    case Proposed(next) => if ValidState(next) then Loop.Accept(next, ()) else Loop.Reject(InputInvalid)
    case _ => Loop.Reject(InputInvalid)
  }

  /** Calls of different callers with different fresh values. */
  ghost predicate Concurrent(sys: System, calls: seq<Action>) {
    && (forall i :: 0 <= i < |calls| ==> Fresh(sys.h.minted, Mints(calls[i])))
    && (forall i, j :: 0 <= i < j < |calls| ==> Apart(calls[i], calls[j]))
  }

  predicate Apart(a: Action, b: Action) {
    && (OwnThread(a).Some? ==> OwnThread(a) != OwnThread(b))
    && (forall k, l :: 0 <= k < |Mints(a)| && 0 <= l < |Mints(b)| ==> Mints(a)[k] != Mints(b)[l])
  }

  /** `a` finds its caller and its fresh values in `now` as it left them in `sys`. */
  ghost predicate StillDue(sys: System, now: System, a: Action) {
    && Fresh(now.h.minted, Mints(a))
    && (OwnThread(a).Some? ==> ThreadAt(now, OwnThread(a).value) == ThreadAt(sys, OwnThread(a).value))
  }

  lemma ProposalIsOwn(config: Config, sys: System, now: System, a: Action)
    requires sys.state == now.state
    requires OwnThread(a).Some? ==> ThreadAt(now, OwnThread(a).value) == ThreadAt(sys, OwnThread(a).value)
    ensures ProposalOf(config, now, a) == ProposalOf(config, sys, a)
  {
    hide PerformProposal;
  }

  lemma CommitIsOwn(config: Config, sys: System, a: Action, next: State, t: nat)
    requires ProposalOf(config, sys, a) == Proposed(next) && OwnThread(a) != Some(t)
    ensures ThreadAt(Committed(config, sys, a, next), t) == ThreadAt(sys, t)
  {
    hide ConsumeReceiptTx, PerformProposal, TouchTx, LogoutTx;
  }

  /** A closure that succeeds in the loop is a step that commits. */
  lemma StepTaken(config: Config, sys: System, now: System, a: Action, next: State)
    requires StillDue(sys, now, a) && Mutate(config, sys, a, now.state) == Loop.Accept(next, ())
    ensures ProposalOf(config, Drawn(now, Mints(a)), a) == Proposed(next)
    ensures Step(config, now, a) == Committed(config, Drawn(now, Mints(a)), a, next)
    ensures Step(config, now, a).state == next
  {
    hide ProposalOf, Committed, Mints, Fresh, ValidState;
    ProposalIsOwn(config, sys.(state := now.state), Drawn(now, Mints(a)), a);
    CommittedState(config, Drawn(now, Mints(a)), a, next);
  }

  lemma FreshApart(minted: set<nat>, a: Action, b: Action)
    requires Fresh(minted, Mints(b)) && (Apart(a, b) || Apart(b, a))
    ensures Fresh(Minted(minted, Mints(a)), Mints(b))
  {
    hide Mints;
  }

  lemma OthersStayDue(config: Config, sys: System, now: System, a: Action, next: State, b: Action)
    requires StillDue(sys, now, a) && Mutate(config, sys, a, now.state) == Loop.Accept(next, ())
    requires StillDue(sys, now, b) && (Apart(a, b) || Apart(b, a))
    ensures StillDue(sys, Step(config, now, a), b)
  {
    hide ProposalOf, Committed, Mints, Fresh, ValidState, Minted, Step;
    StepTaken(config, sys, now, a, next);
    var drawn := Drawn(now, Mints(a));
    CommitDrawsNothing(config, drawn, a, next);
    FreshApart(now.h.minted, a, b);
    if OwnThread(b).Some? {
      CommitIsOwn(config, drawn, a, next, OwnThread(b).value);
    }
  }

  // ------------------------------------------------------------------- the whole schedule

  /** One system per commit: each is the step of the call that committed. */
  ghost predicate Follows(
      config: Config, sys: System, calls: seq<Action>, log: seq<Loop.Commit<State, ()>>, path: seq<System>)
  {
    && |path| == |log| + 1 && path[0] == sys
    && forall k: nat :: k < |log| ==>
         && log[k].caller < |calls| && path[k].state == log[k].before && path[k + 1].state == log[k].after
         && path[k + 1] == Step(config, path[k], calls[log[k].caller])
  }

  /** Every call commits at most once, and what commits is what its closure makes of the state
      the commit before it left. */
  ghost predicate Committing(
      config: Config, sys: System, calls: seq<Action>, log: seq<Loop.Commit<State, ()>>)
  {
    && (forall k :: 0 <= k < |log| ==>
          && log[k].caller < |calls| && log[k].before == Loop.StateAt(sys.state, log, k)
          && Mutate(config, sys, calls[log[k].caller], log[k].before) == Loop.Accept(log[k].after, log[k].result))
    && (forall j, k :: 0 <= j < k < |log| ==> log[j].caller != log[k].caller)
  }

  /** The calls that have not committed among the first `k` are still due. */
  ghost predicate RestIsDue(sys: System, now: System, calls: seq<Action>, log: seq<Loop.Commit<State, ()>>, k: nat)
    requires k <= |log|
  {
    forall i :: 0 <= i < |calls| && Waits(log, i, k) ==> StillDue(sys, now, calls[i])
  }

  predicate Waits(log: seq<Loop.Commit<State, ()>>, i: nat, k: nat)
    requires k <= |log|
  {
    forall j :: 0 <= j < k ==> log[j].caller != i
  }

  lemma AllAreDue(sys: System, calls: seq<Action>, log: seq<Loop.Commit<State, ()>>)
    requires Concurrent(sys, calls)
    ensures RestIsDue(sys, sys, calls, log, 0)
  {
    hide StillDue;
    forall i | 0 <= i < |calls|
      ensures StillDue(sys, sys, calls[i])
    {
      DueAtFirst(sys, calls[i]);
    }
  }

  lemma CallIsDue(sys: System, now: System, calls: seq<Action>, log: seq<Loop.Commit<State, ()>>, k: nat, i: nat)
    requires k <= |log| && i < |calls| && RestIsDue(sys, now, calls, log, k) && Waits(log, i, k)
    ensures StillDue(sys, now, calls[i])
  {
    hide StillDue, Waits;
  }

  lemma CallsAreApart(sys: System, calls: seq<Action>, i: nat, j: nat)
    requires Concurrent(sys, calls) && i < |calls| && j < |calls| && i != j
    ensures Apart(calls[i], calls[j]) || Apart(calls[j], calls[i])
  {
    hide Apart, Fresh;
  }

  lemma CommitterIsDue(
      config: Config, sys: System, calls: seq<Action>, log: seq<Loop.Commit<State, ()>>, now: System, k: nat)
    requires Committing(config, sys, calls, log) && k < |log|
    requires RestIsDue(sys, now, calls, log, k) && now.state == Loop.StateAt(sys.state, log, k)
    ensures log[k].caller < |calls| && now.state == log[k].before
    ensures StillDue(sys, now, calls[log[k].caller])
    ensures Mutate(config, sys, calls[log[k].caller], now.state) == Loop.Accept(log[k].after, ())
  {
    hide Mutate, StillDue, RestIsDue, Loop.StateAt;
    var c := log[k];
    assert c.result == ();
    assert Waits(log, c.caller, k) by {
      OnlyOnce(config, sys, calls, log, k);
    }
    CallIsDue(sys, now, calls, log, k, c.caller);
  }

  lemma OnlyOnce(config: Config, sys: System, calls: seq<Action>, log: seq<Loop.Commit<State, ()>>, k: nat)
    requires Committing(config, sys, calls, log) && k < |log|
    ensures Waits(log, log[k].caller, k)
  {
    hide Mutate;
  }

  /** The next commit of the log is a step, and the calls after it stay due. */
  lemma NextCommit(
      config: Config, sys: System, calls: seq<Action>, log: seq<Loop.Commit<State, ()>>, now: System, k: nat)
    requires Concurrent(sys, calls) && Committing(config, sys, calls, log) && k < |log|
    requires RestIsDue(sys, now, calls, log, k) && now.state == Loop.StateAt(sys.state, log, k)
    ensures log[k].caller < |calls| && now.state == log[k].before
    ensures
      var after := Step(config, now, calls[log[k].caller]);
      after.state == log[k].after && RestIsDue(sys, after, calls, log, k + 1)
  {
    CommitterIsDue(config, sys, calls, log, now, k);
    hide Mutate, Step, StillDue, Apart, Committing, Concurrent;
    var c := log[k];
    var a := calls[c.caller];
    StepTaken(config, sys, now, a, c.after);
    var after := Step(config, now, a);
    assert RestIsDue(sys, after, calls, log, k + 1) by {
      forall i | 0 <= i < |calls| && Waits(log, i, k + 1)
        ensures StillDue(sys, after, calls[i])
      {
        assert log[k].caller != i && Waits(log, i, k);
        CallIsDue(sys, now, calls, log, k, i);
        CallsAreApart(sys, calls, c.caller, i);
        OthersStayDue(config, sys, now, a, c.after, calls[i]);
      }
    }
  }

  lemma FollowsOneMore(
      config: Config, sys: System, calls: seq<Action>, log: seq<Loop.Commit<State, ()>>,
      c: Loop.Commit<State, ()>, path: seq<System>, next: System)
    requires Follows(config, sys, calls, log, path) && c.caller < |calls|
    requires path[|log|].state == c.before && next.state == c.after
    requires next == Step(config, path[|log|], calls[c.caller])
    ensures Follows(config, sys, calls, log + [c], path + [next])
  {
    hide Step;
  }

  lemma {:induction false} CommitsFollow(
      config: Config, sys: System, calls: seq<Action>, log: seq<Loop.Commit<State, ()>>, k: nat)
    returns (path: seq<System>)
    requires Concurrent(sys, calls) && Committing(config, sys, calls, log) && k <= |log|
    ensures Follows(config, sys, calls, log[..k], path) && path[k].state == Loop.StateAt(sys.state, log, k)
    ensures RestIsDue(sys, path[k], calls, log, k)
  {
    hide Committing, Step, Concurrent, RestIsDue;
    if k == 0 {
      path := [sys];
      AllAreDue(sys, calls, log);
    } else {
      var before := CommitsFollow(config, sys, calls, log, k - 1);
      var c, now := log[k - 1], before[k - 1];
      NextCommit(config, sys, calls, log, now, k - 1);
      var next := Step(config, now, calls[c.caller]);
      assert log[..k] == log[..k - 1] + [c];
      FollowsOneMore(config, sys, calls, log[..k - 1], c, before, next);
      path := before + [next];
      hide Follows;
    }
  }

  lemma DueAtFirst(sys: System, a: Action)
    requires Fresh(sys.h.minted, Mints(a))
    ensures StillDue(sys, sys, a)
  {
  }

  lemma LoopCommits(
      config: Config, sys: System, calls: seq<Action>, mutate: (nat, State) -> Loop.Outcome<State, ()>,
      w: Loop.World<State, ()>, retries: nat)
    requires forall i, s :: 0 <= i < |calls| ==> mutate(i, s) == Mutate(config, sys, calls[i], s)
    requires Loop.Inv(w, mutate, sys.state, retries) && |w.callers| == |calls|
    ensures Committing(config, sys, calls, w.log)
  {
    hide Mutate;
    forall j, k | 0 <= j < k < |w.log|
      ensures w.log[j].caller != w.log[k].caller
    {
      var i := w.log[j].caller;
      assert Loop.CallerOk(w.callers[i], w.log, sys.state, i, retries);
    }
  }

  /** Main result.  From any state of the machine, let any number of calls of different callers run
      their retry loops, reading and swapping in any order and with any number of retries: the
      commits, in revision order, are atomic steps of the machine, one per call that committed. */
  lemma LoopsAreAtomicSteps(
      config: Config, sys: System, calls: seq<Action>, mutate: (nat, State) -> Loop.Outcome<State, ()>,
      moves: seq<Loop.Move>, retries: nat)
    requires Concurrent(sys, calls)
    requires forall i, s :: 0 <= i < |calls| ==> mutate(i, s) == Mutate(config, sys, calls[i], s)
    ensures
      var w := Loop.Run(Loop.Start(sys.state, |calls|), mutate, moves, retries);
      && (forall j, k :: 0 <= j < k < |w.log| ==> w.log[j].caller != w.log[k].caller)
      && exists path: seq<System> :: Follows(config, sys, calls, w.log, path) && path[|w.log|].state == w.state
  {
    hide Mutate, Step, Concurrent, Loop.Run;
    var w0 := Loop.Start<State, ()>(sys.state, |calls|);
    assert Loop.Inv(w0, mutate, sys.state, retries);
    Loop.RunKeepsInv(w0, mutate, moves, sys.state, retries);
    var w := Loop.Run(w0, mutate, moves, retries);
    LoopCommits(config, sys, calls, mutate, w, retries);
    var path := CommitsFollow(config, sys, calls, w.log, |w.log|);
    assert w.log[..|w.log|] == w.log;
  }
}
