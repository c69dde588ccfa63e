/** Every step, hence every run, of the ceremony machine keeps the invariant. */
module AdminRuns {
  import opened Collections
  import opened AdminContracts
  import opened AdminTransactions
  import opened CommandStrings
  import opened AdminCeremonies
  import opened AdminInvariants
  import opened AdminPreservation

  // ------------------------------------------------------------------- steps without a mutation

  lemma ReadSessionKnows(s: State, h: History, token: Hash, capability: Option<Capability>, now: int)
    requires SessionsOk(s.sessions, h.sessions, h.revoked)
    ensures
      var who := ReadSession(s, token, capability, now);
      who.Some? ==> KnownIdentity(who.value, token, h) && s.principals != []
  {
    var who := ReadSession(s, token, capability, now);
    if who.Some? {
      assert SessionTracked(who.value.session, h.sessions, h.revoked);
    }
  }

  lemma ReadSessionStateKeeps(config: Config, sys: System, t: nat, now: int)
    requires Inv(sys)
    ensures Inv(Local(config, sys, ReadSessionState(t, now)))
  {
    hide ReceiptsOk, ChallengesOk, IssuedOk, BooksOk, FlowsHeldOnce, ReceiptsHeldOnce, SessionsOk, ReadSession,
         GoalCapability;
    if t in sys.threads && sys.threads[t].Authenticating? {
      var Authenticating(goal, token) := sys.threads[t];
      var who := ReadSession(sys.state, token, GoalCapability(goal), now);
      assert ThreadOk(sys.threads[t], sys.h, sys.state.principals != []);
      ReadSessionKnows(sys.state, sys.h, token, GoalCapability(goal), now);
      hide RecordsOk, GoalOk, KnownIdentity;
      DroppedCaller(sys.threads, t, sys.h, sys.state.principals != []);
      if who.Some? {
        hide CallersOk;
        SameGoalKeepsCallers(sys.threads, t, Authorized(goal, token, who.value), sys.h, sys.state.principals != []);
        SameGoalKeepsCallers(sys.threads, t, Touching(goal, token, who.value, now), sys.h, sys.state.principals != []);
      }
    }
  }

  lemma ReadCredentialKeeps(config: Config, sys: System, t: nat, credentialId: Id)
    requires Inv(sys)
    ensures Inv(Local(config, sys, ReadCredential(t, credentialId)))
  {
    hide RecordsOk, BooksOk, FlowsHeldOnce, ReceiptsHeldOnce, OwnedCredential, ActivePrincipal;
    if t in sys.threads {
      var th := sys.threads[t];
      assert ThreadOk(th, sys.h, sys.state.principals != []);
      var next := CredentialRead(sys.state, th, credentialId);
      if next.Some? {
        assert ThreadOk(next.value, sys.h, sys.state.principals != []);
        assert HeldFlow(next.value) == HeldFlow(th) && HeldReceipt(next.value) == HeldReceipt(th);
        hide CallersOk, CredentialRead;
        SameGoalKeepsCallers(sys.threads, t, next.value, sys.h, sys.state.principals != []);
      } else {
        DroppedCaller(sys.threads, t, sys.h, sys.state.principals != []);
      }
    }
  }

  lemma PresentKeeps(config: Config, sys: System, t: nat, goal: Goal, token: Hash)
    requires Inv(sys)
    ensures Inv(Local(config, sys, Present(t, goal, token)))
  {
    hide RecordsOk, BooksOk, FlowsHeldOnce, ReceiptsHeldOnce, SafeIdentifier, Presentable;
    if ClientGoal(goal) {
      var next := Authenticating(goal, token);
      assert ThreadOk(next, sys.h, sys.state.principals != []);
      assert HeldFlow(next).None? && HeldReceipt(next).None?;
      hide CallersOk;
      EmptyHandedKeepsCallers(sys.threads, t, next, sys.h, sys.state.principals != []);
    }
  }

  lemma BindingKeeps(config: Config, sys: System, a: Action)
    requires Inv(sys) && a.Perform?
    ensures Inv(Local(config, sys, a))
  {
    hide RecordsOk, BooksOk, FlowsHeldOnce, ReceiptsHeldOnce;
    if a.caller in sys.threads && sys.threads[a.caller].Authorized? && sys.threads[a.caller].goal.Redeem? {
      var th := sys.threads[a.caller];
      assert ThreadOk(th, sys.h, sys.state.principals != []);
      var next := BoundStepUp(th.goal.challenge, th.who.session);
      assert HeldFlow(next) == HeldFlow(th) && HeldReceipt(next) == HeldReceipt(th);
      DroppedCaller(sys.threads, a.caller, sys.h, sys.state.principals != []);
      if Local(config, sys, a).threads == sys.threads[a.caller := next] {
        assert ThreadOk(next, sys.h, sys.state.principals != []);
        hide CallersOk;
        SameGoalKeepsCallers(sys.threads, a.caller, next, sys.h, sys.state.principals != []);
      }
    }
  }

  lemma LocalKeepsInv(config: Config, sys: System, a: Action)
    requires Inv(sys)
    ensures Inv(Local(config, sys, a))
  {
    hide RecordsOk, BooksOk, ReadSession, CredentialRead, ClientGoal;
    match a {
      case BeginLogin(t) =>
        EmptyHandedKeepsCallers(sys.threads, t, OfferingLogin(FOUNDER_PRINCIPAL_ID), sys.h, sys.state.principals != []);
      case ReadCredential(t, credentialId) => ReadCredentialKeeps(config, sys, t, credentialId);
      case Present(t, goal, token) => PresentKeeps(config, sys, t, goal, token);
      case ReadSessionState(t, now) => ReadSessionStateKeeps(config, sys, t, now);
      case Perform(_, _, _, _, _) => BindingKeeps(config, sys, a);
      case Abandon(t) => DroppedCaller(sys.threads, t, sys.h, sys.state.principals != []);
      case _ =>
    }
  }

  lemma FailedKeepsInv(sys: System, a: Action)
    requires Inv(sys)
    ensures Inv(Failed(sys, a))
  {
    hide RecordsOk, BooksOk, CallersOk;
    forall t: nat
      ensures CallersOk(sys.threads - {t}, sys.h, sys.state.principals != [])
    {
      DroppedCaller(sys.threads, t, sys.h, sys.state.principals != []);
    }
  }

  // ------------------------------------------------------------------- steps that commit

  lemma DrawnAreMinted(a: Action, h: History)
    requires forall i :: 0 <= i < |Mints(a)| ==> Unseen(Mints(a)[i], h)
    ensures forall i :: 0 <= i < |Mints(a)| ==> Mints(a)[i] in h.minted
  {
    hide Mints, Unseen;
    forall i | 0 <= i < |Mints(a)|
      ensures Mints(a)[i] in h.minted
    {
      UnseenIsMinted(Mints(a)[i], h);
    }
  }

  lemma CeremonyCommitKeepsInv(config: Config, sys: System, a: Action, next: State)
    requires Inv(sys) && ValidState(next) && ProposalOf(config, sys, a) == Proposed(next)
    requires forall i :: 0 <= i < |Mints(a)| ==> Unseen(Mints(a)[i], sys.h) && Mints(a)[i] in sys.h.minted
    requires a.BeginRegistration? || a.OfferLogin? || a.FinishRegistration? || a.FinishLogin? || a.FinishStepUp?
    ensures Inv(Committed(config, sys, a, next))
  {
    hide Inv, ValidState, Committed, Unseen, ProposalOf;
    match a {
      case BeginRegistration(presented, flowId, sourceKey, now) =>
        assert Mints(a)[0] == flowId;
        BeginRegistrationKeeps(config, sys, presented, flowId, sourceKey, now, next);
      case OfferLogin(t, flowId, sourceKey, eventId, now) =>
        assert Mints(a)[0] == flowId && Mints(a)[1] == eventId;
        OfferLoginKeeps(config, sys, t, flowId, sourceKey, eventId, now, next);
      case FinishRegistration(t, credentialId, counter, eventId, now) =>
        assert Mints(a)[0] == eventId;
        FinishRegistrationKeeps(config, sys, t, credentialId, counter, eventId, now, next);
      case FinishLogin(t, newCounter, sessionId, token, eventId, now) =>
        assert Mints(a)[0] == sessionId && Mints(a)[1] == token && Mints(a)[2] == eventId;
        FinishLoginKeeps(config, sys, t, newCounter, sessionId, token, eventId, now, next);
      case FinishStepUp(t, newCounter, receiptId, token, eventId, now) =>
        assert Mints(a)[0] == receiptId && Mints(a)[1] == token && Mints(a)[2] == eventId;
        FinishStepUpKeeps(config, sys, t, newCounter, receiptId, token, eventId, now, next);
    }
  }

  lemma CommittedKeepsInv(config: Config, sys: System, a: Action, next: State)
    requires Inv(sys) && ValidState(next) && ProposalOf(config, sys, a) == Proposed(next)
    requires forall i :: 0 <= i < |Mints(a)| ==> Unseen(Mints(a)[i], sys.h)
    ensures Inv(Committed(config, sys, a, next))
  {
    hide Inv, ValidState, Committed, Unseen, ProposalOf;
    DrawnAreMinted(a, sys.h);
    match a {
      case CreateBootstrap(token, eventId, now) =>
        assert Mints(a)[1] == eventId;
        CreateBootstrapKeeps(config, sys, token, eventId, now, next);
      case ConsumeChallenge(t, flowId, kind, sourceKey, token, now) =>
        ConsumeChallengeKeeps(config, sys, t, flowId, kind, sourceKey, token, now, next);
      case Touch(t) => TouchKeeps(config, sys, t, next);
      case Perform(_, flowId, eventId, _, _) =>
        assert Mints(a)[0] == flowId && Mints(a)[1] == eventId;
        PerformKeeps(config, sys, a, next);
      case Logout(token, eventId, now) =>
        assert Mints(a)[0] == eventId;
        LogoutKeeps(config, sys, token, eventId, now, next);
      case RateLimit(_) => RateLimitKeeps(config, sys, a, next);
      case Audit(eventType, eventId) =>
        assert Mints(a)[0] == eventId;
        AuditKeeps(config, sys, eventType, eventId, next);
      case _ =>
        NothingToCommit(config, sys, a, next);
        CeremonyCommitKeepsInv(config, sys, a, next);
    }
  }

  lemma UnseenIsMinted(id: Id, h: History)
    requires Unseen(id, h)
    ensures id in h.minted
  {
  }

  lemma NothingToCommit(config: Config, sys: System, a: Action, next: State)
    requires ProposalOf(config, sys, a) == Proposed(next)
    ensures !a.BeginLogin? && !a.ReadCredential? && !a.Present? && !a.ReadSessionState? && !a.Abandon?
  {
  }

  // ------------------------------------------------------------------- every run

  lemma StepKeepsInv(config: Config, sys: System, a: Action)
    requires Inv(sys)
    ensures Inv(Step(config, sys, a))
  {
    hide Inv, ProposalOf, Committed, Local, Failed, Unseen, ValidState, Mints, Fresh, Minted;
    if Fresh(sys.h.minted, Mints(a)) {
      var drawn := Drawn(sys, Mints(a));
      DrawingKeepsInv(sys, Mints(a));
      match ProposalOf(config, drawn, a) {
        case NoMutation => LocalKeepsInv(config, drawn, a);
        case Refused => FailedKeepsInv(drawn, a);
        case Proposed(next) =>
          if ValidState(next) {
            CommittedKeepsInv(config, drawn, a, next);
          } else {
            FailedKeepsInv(drawn, a);
          }
      }
    }
  }

  lemma StartKeepsInv()
    ensures Inv(START)
  {
  }

  lemma StepOfRun(config: Config, run: seq<System>, i: nat) returns (a: Action)
    requires IsRun(config, run) && i + 1 < |run|
    ensures run[i + 1] == Step(config, run[i], a)
  {
    hide Step;
    assert Moves(config, run, i);
    a :| run[i + 1] == Step(config, run[i], a);
  }

  lemma {:induction false} RunKeepsInv(config: Config, run: seq<System>, i: nat)
    requires IsRun(config, run) && i < |run|
    ensures Inv(run[i])
  {
    hide Inv, Step, Moves;
    if i == 0 {
      StartKeepsInv();
    } else {
      hide IsRun;
      RunKeepsInv(config, run, i - 1);
      var a := StepOfRun(config, run, i - 1);
      StepKeepsInv(config, run[i - 1], a);
    }
  }
}
