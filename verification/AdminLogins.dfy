/** Every login has a challenge of its own, over every run. */
module AdminLogins {
  import opened Collections
  import opened AdminContracts
  import opened AdminTransactions
  import opened CommandStrings
  import opened AdminCeremonies
  import opened AdminInvariants
  import opened AdminPreservation
  import opened AdminRuns
  import opened AdminHistory
  import opened AdminTrails
  import opened AdminSessions

  /** The login flow whose consumed challenge a caller holds. */
  function LoginFlow(th: Thread): Option<Id> {
    match th
    case HoldingLogin(c) => Some(c.flowId)
    case VerifyingLogin(c, _) => Some(c.flowId)
    case _ => None
  }

  /** Where a login flow in hand comes from: the caller had it, or takes one nobody ever used. */
  ghost predicate HadOrTakes(sys: System, a: Action, after: System, t: nat)
    requires t in after.threads
  {
    LoginFlow(after.threads[t]).Some? ==>
      || (t in sys.threads && LoginFlow(sys.threads[t]) == LoginFlow(after.threads[t]))
      || (a.ConsumeChallenge? && t == a.caller && LoginFlow(after.threads[t]).value !in sys.h.used)
  }

  lemma LocalLogins(config: Config, sys: System, a: Action, t: nat)
    requires t in Local(config, sys, a).threads
    ensures HadOrTakes(sys, a, Local(config, sys, a), t)
  {
    hide ReadSession, GoalCapability, ClientGoal, ActivePrincipal, OwnedCredential;
  }

  lemma FailedLogins(sys: System, a: Action, t: nat)
    requires t in Failed(sys, a).threads
    ensures HadOrTakes(sys, a, Failed(sys, a), t)
  {
  }

  lemma CommitLogins(config: Config, sys: System, a: Action, next: State, t: nat)
    requires Inv(sys) && ProposalOf(config, sys, a) == Proposed(next) && t in Committed(config, sys, a, next).threads
    ensures HadOrTakes(sys, a, Committed(config, sys, a, next), t)
    ensures a.FinishLogin? ==> t != a.caller
  {
    hide FinishRegistrationTx, FinishLoginTx, FinishStepUpTx, ConsumeReceiptTx, Command, RequestCapability, AppendEvent,
         FirstRevocation, RevokedTogether, ReceiptsOk, SessionsOk, IssuedOk, BooksOk, CallersOk, MarkUsed;
    if a.ConsumeChallenge? {
      var c := ConsumeChallengeTx(sys.state, a.flowId, a.kind, a.sourceKey, a.now).result;
      assert ChallengeTracked(c, sys.h.challenges, sys.h.used);
    }
  }

  lemma StepLogins(config: Config, sys: System, a: Action, t: nat)
    requires Inv(sys) && t in Step(config, sys, a).threads
    ensures HadOrTakes(sys, a, Step(config, sys, a), t)
  {
    hide Inv, ProposalOf, Committed, Local, Failed, ValidState, Mints, Fresh, Minted, Unseen, HadOrTakes;
    if Fresh(sys.h.minted, Mints(a)) {
      var drawn := Drawn(sys, Mints(a));
      DrawingKeepsInv(sys, Mints(a));
      match ProposalOf(config, drawn, a) {
        case NoMutation => LocalLogins(config, drawn, a, t);
        case Refused => FailedLogins(drawn, a, t);
        case Proposed(next) =>
          if ValidState(next) {
            CommitLogins(config, drawn, a, next, t);
          } else {
            FailedLogins(drawn, a, t);
          }
      }
      DrawnHad(sys, a, Step(config, sys, a), t);
    } else {
      NothingTaken(sys, a, t);
    }
  }

  lemma DrawnHad(sys: System, a: Action, after: System, t: nat)
    requires t in after.threads && HadOrTakes(Drawn(sys, Mints(a)), a, after, t)
    ensures HadOrTakes(sys, a, after, t)
  {
    hide Mints, Minted;
  }

  lemma NothingTaken(sys: System, a: Action, t: nat)
    requires t in sys.threads
    ensures HadOrTakes(sys, a, sys, t)
  {
  }

  ghost predicate LoginsApart(threads: map<nat, Thread>) {
    forall t, u :: t in threads && u in threads && t != u && LoginFlow(threads[t]).Some? ==>
      LoginFlow(threads[t]) != LoginFlow(threads[u])
  }

  ghost predicate NobodyHolds(threads: map<nat, Thread>, f: Id) {
    forall t :: t in threads ==> LoginFlow(threads[t]) != Some(f)
  }

  lemma HeldIsUsed(sys: System, t: nat)
    requires Inv(sys) && t in sys.threads && LoginFlow(sys.threads[t]).Some?
    ensures LoginFlow(sys.threads[t]).value in sys.h.used
  {
    hide RecordsOk, BooksOk, FlowsHeldOnce, ReceiptsHeldOnce;
    assert ThreadOk(sys.threads[t], sys.h, sys.state.principals != []);
  }

  lemma StepKeepsApart(config: Config, sys: System, a: Action)
    requires Inv(sys) && LoginsApart(sys.threads)
    ensures LoginsApart(Step(config, sys, a).threads)
  {
    hide Inv, Step, LoginFlow;
    var after := Step(config, sys, a);
    forall t, u | t in after.threads && u in after.threads && t != u && LoginFlow(after.threads[t]).Some?
      ensures LoginFlow(after.threads[t]) != LoginFlow(after.threads[u])
    {
      StepLogins(config, sys, a, t);
      StepLogins(config, sys, a, u);
      if t in sys.threads && LoginFlow(sys.threads[t]) == LoginFlow(after.threads[t]) {
        HeldIsUsed(sys, t);
      }
      if u in sys.threads && LoginFlow(sys.threads[u]).Some? {
        HeldIsUsed(sys, u);
      }
    }
  }

  lemma {:induction false} RunKeepsApart(config: Config, run: seq<System>, i: nat)
    requires IsRun(config, run) && i < |run|
    ensures LoginsApart(run[i].threads)
  {
    hide Inv, Step, Moves, LoginsApart;
    if i == 0 {
      StartIsApart();
    } else {
      hide IsRun;
      RunKeepsApart(config, run, i - 1);
      RunKeepsInv(config, run, i - 1);
      var a := StepOfRun(config, run, i - 1);
      StepKeepsApart(config, run[i - 1], a);
    }
  }

  lemma StartIsApart()
    ensures LoginsApart(START.threads)
  {
  }

  /** Once used and held by nobody, a login flow stays that way. */
  lemma {:induction false} NobodyTakesAgain(config: Config, run: seq<System>, i: nat, j: nat, f: Id)
    requires IsRun(config, run) && i <= j < |run| && f in run[i].h.used && NobodyHolds(run[i].threads, f)
    ensures f in run[j].h.used && NobodyHolds(run[j].threads, f)
    decreases j
  {
    hide IsRun, Inv, Step, Grows, LoginFlow;
    if i < j {
      NobodyTakesAgain(config, run, i, j - 1, f);
      Reached(config, run, j - 1, j);
      EntriesStay(run[j - 1].h, run[j].h);
      var a := StepOfRun(config, run, j - 1);
      forall t | t in run[j].threads
        ensures LoginFlow(run[j].threads[t]) != Some(f)
      {
        StepLogins(config, run[j - 1], a, t);
      }
    }
  }

  /** The flow of a login that opened a session is used up there, and no caller holds it any more. */
  lemma LoginEndsItsFlow(config: Config, run: seq<System>, k: nat, a: Action, x: Session)
    requires IsRun(config, run) && Took(config, run, k, a) && Opens(config, run[k], a, x) && Booked(run, k, a)
    ensures
      var f := run[k].threads[a.caller].challenge.flowId;
      f in run[k + 1].h.used && NobodyHolds(run[k + 1].threads, f)
  {
    hide IsRun, Inv, Step, Grows, Mints, Minted, Fresh, ProposalOf, Committed, ValidState, LoginsApart, Unseen;
    RunKeepsInv(config, run, k);
    RunKeepsApart(config, run, k);
    Reached(config, run, k, k + 1);
    EntriesStay(run[k].h, run[k + 1].h);
    HeldIsUsed(run[k], a.caller);
    var next := CommitsOrNot(config, run[k], a);
    DrawingKeepsInv(run[k], Mints(a));
    LoginLeavesItsFlow(config, Drawn(run[k], Mints(a)), a, next.value);
  }

  lemma LoginLeavesItsFlow(config: Config, sys: System, a: Action, next: State)
    requires a.FinishLogin? && ProposalOf(config, sys, a) == Proposed(next) && LoginsApart(sys.threads)
    ensures NobodyHolds(Committed(config, sys, a, next).threads, sys.threads[a.caller].challenge.flowId)
  {
    hide FinishLoginTx, NewSession;
  }

  /** Over every run, no two logins that opened a session went through the same challenge. */
  lemma EveryLoginHasItsOwnChallenge(
      config: Config, run: seq<System>, k: nat, a: Action, x: Session, m: nat, b: Action, y: Session)
    requires IsRun(config, run) && k < m
    requires Took(config, run, k, a) && Opens(config, run[k], a, x) && Booked(run, k, a)
    requires Took(config, run, m, b) && Opens(config, run[m], b, y) && Booked(run, m, b)
    ensures run[k].threads[a.caller].challenge.flowId != run[m].threads[b.caller].challenge.flowId
  {
    hide IsRun, Step;
    LoginEndsItsFlow(config, run, k, a, x);
    NobodyTakesAgain(config, run, k + 1, m, run[k].threads[a.caller].challenge.flowId);
    assert LoginFlow(run[m].threads[b.caller]) == Some(run[m].threads[b.caller].challenge.flowId);
  }
}
