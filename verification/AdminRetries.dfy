/** The ceremony machine with the retry loops inside: a mutation is no longer one step but a call
    that looks at the register, runs its closure, and swaps or looks again, while other callers
    arrive, read, compute and commit.  The systems such a run goes through are a run of the machine
    with atomic mutations, so all that is proved about those holds here. */
module AdminRetries {
  import opened Collections
  import opened AdminContracts
  import opened AdminTransactions
  import opened AdminCeremonies
  import opened AdminPreservation
  import opened AdminHistory
  import opened AdminSchedules
  import opened AdminAtomicity

  /** A call between two of its accesses to the register, with the conflicts it met so far. */
  datatype Phase =
    | Idle(failures: nat)
    | Holding(failures: nat, revision: nat, next: State)

  datatype Call = Call(action: Action, phase: Phase)

  datatype Fine = Fine(sys: System, revision: nat, calls: map<nat, Call>)

  datatype Move =
    | Compute(action: Action)              // a caller's step without a mutation
    | Begin(call: nat, action: Action)     // a call enters its retry loop
    | Look(call: nat)                      // it reads the register and runs its closure
    | Swap(call: nat)                      // it compares and sets

  const BEGINNING := Fine(START, 0, map[])

  /** No pending call has this caller or these fresh values. */
  predicate Undisturbed(calls: map<nat, Call>, a: Action) {
    forall id :: id in calls ==> Apart(calls[id].action, a) && Apart(a, calls[id].action)
  }

  /** The caller gives up, or its closure threw, or the repository's validation did. */
  function Ended(f: Fine, id: nat, sys: System): Fine {
    f.(sys := sys, calls := f.calls - {id})
  }

  /** Its ceremony is over without a trace in the register. */
  function Conflicted(sys: System, a: Action): System {
    if OwnThread(a).None? then sys else sys.(threads := sys.threads - {OwnThread(a).value})
  }

  ghost function LookMove(config: Config, f: Fine, id: nat, retries: nat): Fine
    requires id in f.calls && f.calls[id].phase.Idle?
  {
    var a, failures := f.calls[id].action, f.calls[id].phase.failures;
    if failures >= retries then Ended(f, id, Conflicted(f.sys, a))
    else
      match ProposalOf(config, f.sys, a)
      case Proposed(next) =>
        if ValidState(next) then f.(calls := f.calls[id := Call(a, Holding(failures, f.revision, next))])
        else Ended(f, id, Failed(Drawn(f.sys, Mints(a)), a))
      case _ => Ended(f, id, Failed(Drawn(f.sys, Mints(a)), a))
  }

  /** The register takes whatever a call holds, if nobody committed since it looked; the books are
      those of the mutation as it would be now. */
  ghost function Taken(config: Config, sys: System, a: Action, next: State): System {
    if ProposalOf(config, Drawn(sys, Mints(a)), a) == Proposed(next) then
      Committed(config, Drawn(sys, Mints(a)), a, next)
    else sys.(state := next)
  }

  ghost function SwapMove(config: Config, f: Fine, id: nat): Fine
    requires id in f.calls && f.calls[id].phase.Holding?
  {
    var Call(a, Holding(failures, revision, next)) := f.calls[id];
    if revision != f.revision then f.(calls := f.calls[id := Call(a, Idle(failures + 1))])
    else Fine(Taken(config, f.sys, a, next), f.revision + 1, f.calls - {id})
  }

  /** The mutation an action makes, if its caller is where it makes one. */
  predicate Mutates(config: Config, sys: System, a: Action) {
    !ProposalOf(config, sys, a).NoMutation?
  }

  ghost function FineStep(config: Config, f: Fine, move: Move, retries: nat): Fine {
    match move
    case Compute(a) =>
      if Fresh(f.sys.h.minted, Mints(a)) && Undisturbed(f.calls, a) && !Mutates(config, f.sys, a) then
        f.(sys := Local(config, Drawn(f.sys, Mints(a)), a))
      else f
    case Begin(id, a) =>
      if || id in f.calls || !Fresh(f.sys.h.minted, Mints(a)) || !Undisturbed(f.calls, a)
         || !Mutates(config, f.sys, a) then f
      else f.(calls := f.calls[id := Call(a, Idle(0))])
    case Look(id) => if id in f.calls && f.calls[id].phase.Idle? then LookMove(config, f, id, retries) else f
    case Swap(id) => if id in f.calls && f.calls[id].phase.Holding? then SwapMove(config, f, id) else f
  }

  ghost predicate IsFineRun(config: Config, run: seq<Fine>, moves: seq<Move>, retries: nat) {
    && |run| == |moves| + 1 && run[0] == BEGINNING
    && forall k: nat :: k < |moves| ==> run[k + 1] == FineStep(config, run[k], moves[k], retries)
  }

  // ------------------------------------------------------------------- what a pending call relies on

  /** Its caller and its fresh values are untouched, and what it holds is what its closure would
      still propose, unless somebody committed. */
  ghost predicate CallOk(config: Config, f: Fine, call: Call) {
    && Fresh(f.sys.h.minted, Mints(call.action)) && Mutates(config, f.sys, call.action)
    && (call.phase.Holding? ==>
          && call.phase.revision <= f.revision
          && (call.phase.revision == f.revision ==>
                ProposalOf(config, f.sys, call.action) == Proposed(call.phase.next) && ValidState(call.phase.next)))
  }

  ghost predicate FineInv(config: Config, f: Fine) {
    && (forall id :: id in f.calls ==> CallOk(config, f, f.calls[id]))
    && (forall i, j :: i in f.calls && j in f.calls && i != j ==> Apart(f.calls[i].action, f.calls[j].action))
  }

  /** `after` differs from `before` in nothing call `b` relies on, the register aside. */
  ghost predicate LeavesAlone(before: System, after: System, b: Action) {
    && Fresh(after.h.minted, Mints(b))
    && (OwnThread(b).Some? ==> ThreadAt(after, OwnThread(b).value) == ThreadAt(before, OwnThread(b).value))
  }

  lemma WhetherItMutates(config: Config, before: System, after: System, b: Action)
    requires LeavesAlone(before, after, b)
    ensures Mutates(config, after, b) <==> Mutates(config, before, b)
  {
    hide Fresh, Mints, CreateBootstrapTx, BeginRegistrationTx, OfferChallengeTx, ConsumeChallengeTx, FinishLoginTx,
         FinishRegistrationTx, FinishStepUpTx, TouchTx, LogoutTx, RevokeSessionTx, RevokeAllTx, RegisterServiceTx,
         RecordEventTx, ConsumeReceiptTx, RateLimitTx, NewSession, NewReceipt, CounterContract;
  }

  lemma SameProposal(config: Config, before: System, after: System, b: Action)
    requires LeavesAlone(before, after, b) && after.state == before.state
    ensures ProposalOf(config, after, b) == ProposalOf(config, before, b)
  {
    ProposalIsOwn(config, before, after, b);
  }

  lemma CallStaysOk(config: Config, f: Fine, g: Fine, call: Call)
    requires CallOk(config, f, call) && LeavesAlone(f.sys, g.sys, call.action)
    requires g.revision > f.revision || (g.revision == f.revision && g.sys.state == f.sys.state)
    ensures CallOk(config, g, call)
  {
    WhetherItMutates(config, f.sys, g.sys, call.action);
    if g.revision == f.revision {
      SameProposal(config, f.sys, g.sys, call.action);
    }
    hide ProposalOf, Mutates, Fresh, Mints, ValidState;
  }

  // ------------------------------------------------------------------- what a caller leaves alone

  lemma LocalIsOwn(config: Config, sys: System, a: Action, t: nat)
    requires OwnThread(a) != Some(t)
    ensures ThreadAt(Local(config, sys, a), t) == ThreadAt(sys, t)
    ensures ThreadAt(Failed(sys, a), t) == ThreadAt(sys, t) && ThreadAt(Conflicted(sys, a), t) == ThreadAt(sys, t)
  {
    hide ReadSession, CredentialRead, ClientGoal, ActivePrincipal;
  }

  lemma OthersLeftAlone(config: Config, sys: System, a: Action, after: System, b: Action)
    requires Apart(a, b) && Apart(b, a) && Fresh(sys.h.minted, Mints(b))
    requires after == Local(config, Drawn(sys, Mints(a)), a) || after == Failed(Drawn(sys, Mints(a)), a)
             || after == Conflicted(sys, a)
    ensures LeavesAlone(sys, after, b) && after.state == sys.state
  {
    hide Local, Failed, Mints, Fresh, Minted, OwnThread;
    IdleGrows(config, Drawn(sys, Mints(a)), a);
    FreshApart(sys.h.minted, a, b);
    if OwnThread(b).Some? {
      LocalIsOwn(config, Drawn(sys, Mints(a)), a, OwnThread(b).value);
      LocalIsOwn(config, sys, a, OwnThread(b).value);
    }
  }

  lemma CommitLeavesAlone(config: Config, sys: System, a: Action, next: State, b: Action)
    requires Apart(a, b) && Apart(b, a) && Fresh(sys.h.minted, Mints(b))
    requires ProposalOf(config, Drawn(sys, Mints(a)), a) == Proposed(next)
    ensures LeavesAlone(sys, Committed(config, Drawn(sys, Mints(a)), a, next), b)
  {
    hide ProposalOf, Committed, Mints, Fresh, Minted, OwnThread;
    var drawn := Drawn(sys, Mints(a));
    CommitDrawsNothing(config, drawn, a, next);
    FreshApart(sys.h.minted, a, b);
    if OwnThread(b).Some? {
      CommitIsOwn(config, drawn, a, next, OwnThread(b).value);
    }
  }

  // ------------------------------------------------------------------- every move is a step

  ghost predicate Steps(config: Config, before: System, after: System) {
    exists a :: after == Step(config, before, a)
  }

  lemma Stutters(config: Config, sys: System)
    ensures Steps(config, sys, sys)
  {
    var a := CreateBootstrap(0, 0, 0);
    assert Mints(a)[0] == Mints(a)[1];
    assert sys == Step(config, sys, a);
  }

  lemma GivesUp(config: Config, sys: System, a: Action)
    ensures Steps(config, sys, Conflicted(sys, a))
  {
    if OwnThread(a).None? {
      Stutters(config, sys);
    } else {
      var abandon := Abandon(OwnThread(a).value);
      assert Mints(abandon) == [];
      LocalStep(config, sys, abandon);
      assert Minted(sys.h.minted, []) == sys.h.minted;
      assert Conflicted(sys, a) == Step(config, sys, abandon);
    }
  }

  /** The sweep of pending calls once the system went from `f.sys` to `sys`. */
  lemma RestStaysOk(config: Config, f: Fine, g: Fine, id: nat)
    requires FineInv(config, f) && g.calls == f.calls - {id}
    requires g.revision > f.revision || (g.revision == f.revision && g.sys.state == f.sys.state)
    requires forall j :: j in f.calls && j != id ==> LeavesAlone(f.sys, g.sys, f.calls[j].action)
    ensures FineInv(config, g)
  {
    hide CallOk, LeavesAlone, Apart;
    forall j | j in g.calls
      ensures CallOk(config, g, g.calls[j])
    {
      CallStaysOk(config, f, g, f.calls[j]);
    }
  }

  lemma ComputeIsStep(config: Config, f: Fine, a: Action)
    requires FineInv(config, f) && Fresh(f.sys.h.minted, Mints(a)) && Undisturbed(f.calls, a)
    requires !Mutates(config, f.sys, a)
    ensures
      var g := f.(sys := Local(config, Drawn(f.sys, Mints(a)), a));
      FineInv(config, g) && Steps(config, f.sys, g.sys)
  {
    var g := f.(sys := Local(config, Drawn(f.sys, Mints(a)), a));
    ProposalIsOwn(config, f.sys, Drawn(f.sys, Mints(a)), a);
    LocalStep(config, f.sys, a);
    assert g.sys == Step(config, f.sys, a);
    hide Local, Step, ProposalOf, Fresh, Mints, LeavesAlone, CallOk, Apart;
    IdleGrows(config, Drawn(f.sys, Mints(a)), a);
    forall j | j in f.calls
      ensures CallOk(config, g, f.calls[j])
    {
      FreshOfCall(config, f, f.calls[j]);
      OthersLeftAlone(config, f.sys, a, g.sys, f.calls[j].action);
      CallStaysOk(config, f, g, f.calls[j]);
    }
  }

  lemma FreshOfCall(config: Config, f: Fine, call: Call)
    requires CallOk(config, f, call)
    ensures Fresh(f.sys.h.minted, Mints(call.action)) && Mutates(config, f.sys, call.action)
  {
    hide Fresh, Mints, Mutates, ProposalOf, ValidState;
  }

  /** A call that ends without a commit is a step: a refusal, or its caller giving up. */
  lemma EndIsStep(config: Config, f: Fine, id: nat, sys: System)
    requires FineInv(config, f) && id in f.calls
    requires
      var a := f.calls[id].action;
      || sys == Conflicted(f.sys, a)
      || (sys == Failed(Drawn(f.sys, Mints(a)), a)
          && forall next :: ProposalOf(config, f.sys, a) == Proposed(next) ==> !ValidState(next))
    ensures FineInv(config, Ended(f, id, sys)) && Steps(config, f.sys, sys)
  {
    var a := f.calls[id].action;
    FreshOfCall(config, f, f.calls[id]);
    if sys == Conflicted(f.sys, a) {
      GivesUp(config, f.sys, a);
    } else {
      ProposalIsOwn(config, f.sys, Drawn(f.sys, Mints(a)), a);
      assert sys == Step(config, f.sys, a);
    }
    hide Step, ProposalOf, Fresh, Mints, LeavesAlone, CallOk, Apart, Failed, Conflicted, Mutates, ValidState;
    forall j | j in f.calls && j != id
      ensures LeavesAlone(f.sys, sys, f.calls[j].action) && sys.state == f.sys.state
    {
      FreshOfCall(config, f, f.calls[j]);
      OthersLeftAlone(config, f.sys, a, sys, f.calls[j].action);
    }
    EndedState(config, f.sys, a, sys);
    RestStaysOk(config, f, Ended(f, id, sys), id);
  }

  lemma EndedState(config: Config, before: System, a: Action, sys: System)
    requires sys == Conflicted(before, a) || sys == Failed(Drawn(before, Mints(a)), a)
    ensures sys.state == before.state
  {
    IdleGrows(config, Drawn(before, Mints(a)), a);
    hide Failed;
  }

  lemma LookIsStep(config: Config, f: Fine, id: nat, retries: nat)
    requires FineInv(config, f) && id in f.calls && f.calls[id].phase.Idle?
    ensures
      var g := LookMove(config, f, id, retries);
      FineInv(config, g) && Steps(config, f.sys, g.sys)
  {
    var call := f.calls[id];
    FreshOfCall(config, f, call);
    hide Step, Fresh, Mints, Apart, Failed, Conflicted, ValidState;
    if call.phase.failures >= retries {
      EndIsStep(config, f, id, Conflicted(f.sys, call.action));
    } else {
      match ProposalOf(config, f.sys, call.action) {
        case Proposed(next) =>
          hide ProposalOf;
          if ValidState(next) {
            Stutters(config, f.sys);
            HoldingIsOk(config, f, id, Call(call.action, Holding(call.phase.failures, f.revision, next)));
          } else {
            EndIsStep(config, f, id, Failed(Drawn(f.sys, Mints(call.action)), call.action));
          }
        case _ =>
          hide ProposalOf;
          EndIsStep(config, f, id, Failed(Drawn(f.sys, Mints(call.action)), call.action));
      }
    }
  }

  /** Only the phase of one call changes. */
  lemma HoldingIsOk(config: Config, f: Fine, id: nat, call: Call)
    requires FineInv(config, f) && id in f.calls && call.action == f.calls[id].action && CallOk(config, f, call)
    ensures FineInv(config, f.(calls := f.calls[id := call]))
  {
    hide Apart;
    var g := f.(calls := f.calls[id := call]);
    forall j | j in g.calls
      ensures CallOk(config, g, g.calls[j])
    {
      assert CallOk(config, f, g.calls[j]);
    }
    hide CallOk;
  }

  lemma SwapIsStep(config: Config, f: Fine, id: nat)
    requires FineInv(config, f) && id in f.calls && f.calls[id].phase.Holding?
    ensures
      var g := SwapMove(config, f, id);
      FineInv(config, g) && Steps(config, f.sys, g.sys)
  {
    var Call(a, Holding(failures, revision, next)) := f.calls[id];
    FreshOfCall(config, f, f.calls[id]);
    if revision != f.revision {
      Stutters(config, f.sys);
      assert CallOk(config, f, f.calls[id]);
      HoldingIsOk(config, f, id, Call(a, Idle(failures + 1)));
    } else {
      assert CallOk(config, f, f.calls[id]);
      CommitIsStep(config, f, id, a, next);
    }
  }

  lemma CommitIsStep(config: Config, f: Fine, id: nat, a: Action, next: State)
    requires FineInv(config, f) && id in f.calls && f.calls[id].action == a
    requires Fresh(f.sys.h.minted, Mints(a)) && ProposalOf(config, f.sys, a) == Proposed(next) && ValidState(next)
    ensures Steps(config, f.sys, Taken(config, f.sys, a, next))
    ensures FineInv(config, Fine(Taken(config, f.sys, a, next), f.revision + 1, f.calls - {id}))
  {
    ProposalIsOwn(config, f.sys, Drawn(f.sys, Mints(a)), a);
    var after := Committed(config, Drawn(f.sys, Mints(a)), a, next);
    hide ProposalOf, Committed, Fresh, Mints, ValidState;
    assert Taken(config, f.sys, a, next) == after == Step(config, f.sys, a);
    hide Step, Taken, CallOk, Apart, LeavesAlone, Mutates;
    forall j | j in f.calls && j != id
      ensures LeavesAlone(f.sys, after, f.calls[j].action)
    {
      FreshOfCall(config, f, f.calls[j]);
      CommitLeavesAlone(config, f.sys, a, next, f.calls[j].action);
    }
    RestStaysOk(config, f, Fine(after, f.revision + 1, f.calls - {id}), id);
  }

  lemma BeginIsStep(config: Config, f: Fine, id: nat, a: Action)
    requires FineInv(config, f) && id !in f.calls && Fresh(f.sys.h.minted, Mints(a)) && Undisturbed(f.calls, a)
    requires Mutates(config, f.sys, a)
    ensures FineInv(config, f.(calls := f.calls[id := Call(a, Idle(0))]))
  {
    hide Apart, Fresh, Mints, Mutates;
    var g := f.(calls := f.calls[id := Call(a, Idle(0))]);
    forall j | j in g.calls
      ensures CallOk(config, g, g.calls[j])
    {
      assert CallOk(config, f, g.calls[j]);
    }
    hide CallOk;
  }

  lemma FineStepIsStep(config: Config, f: Fine, move: Move, retries: nat)
    requires FineInv(config, f)
    ensures
      var g := FineStep(config, f, move, retries);
      FineInv(config, g) && Steps(config, f.sys, g.sys)
  {
    Stutters(config, f.sys);
    hide FineInv, Steps, Step, Local, Fresh, Mints, Mutates, Undisturbed, LookMove, SwapMove;
    match move {
      case Compute(a) =>
        if Fresh(f.sys.h.minted, Mints(a)) && Undisturbed(f.calls, a) && !Mutates(config, f.sys, a) {
          ComputeIsStep(config, f, a);
        }
      case Begin(id, a) =>
        if id !in f.calls && Fresh(f.sys.h.minted, Mints(a)) && Undisturbed(f.calls, a) && Mutates(config, f.sys, a) {
          BeginIsStep(config, f, id, a);
        }
      case Look(id) =>
        if id in f.calls && f.calls[id].phase.Idle? {
          LookIsStep(config, f, id, retries);
        }
      case Swap(id) =>
        if id in f.calls && f.calls[id].phase.Holding? {
          SwapIsStep(config, f, id);
        }
    }
  }

  /** The systems a run with retry loops goes through. */
  function Systems(run: seq<Fine>): (r: seq<System>) {
    seq(|run|, k requires 0 <= k < |run| => run[k].sys)
  }

  lemma {:induction false} FineRunKeepsInv(config: Config, run: seq<Fine>, moves: seq<Move>, retries: nat, k: nat)
    requires IsFineRun(config, run, moves, retries) && k < |run|
    ensures FineInv(config, run[k])
  {
    hide FineStep;
    if k > 0 {
      hide FineInv;
      FineRunKeepsInv(config, run, moves, retries, k - 1);
      FineStepIsStep(config, run[k - 1], moves[k - 1], retries);
    }
  }

  /** Main result.  However callers arrive, compute, look, swap, conflict and give up, the systems that
      a run with retry loops goes through are a run of the machine with atomic mutations. */
  lemma RetryRunsAreRuns(config: Config, run: seq<Fine>, moves: seq<Move>, retries: nat)
    requires IsFineRun(config, run, moves, retries)
    ensures IsRun(config, Systems(run))
  {
    hide FineStep, Step, FineInv;
    var systems := Systems(run);
    forall k: nat | k + 1 < |systems|
      ensures Moves(config, systems, k)
    {
      FineRunKeepsInv(config, run, moves, retries, k);
      FineStepIsStep(config, run[k], moves[k], retries);
      assert run[k + 1] == FineStep(config, run[k], moves[k], retries);
      var a :| run[k + 1].sys == Step(config, run[k].sys, a);
      assert systems[k + 1] == Step(config, systems[k], a);
    }
  }
}
