/** Who the callers of the ceremony machine are, over every run: the founder and the registered
    services are the only principals, and whoever gets as far as a mutation held the capability it
    takes. */
module AdminIdentities {
  import opened Collections
  import opened AdminContracts
  import opened AdminTransactions
  import opened CommandStrings
  import opened AdminCeremonies
  import opened AdminInvariants
  import opened AdminPreservation
  import opened AdminRuns
  import opened AdminHistory

  const FOUNDER: Principal := Human("founder", [Founder], {}, true)

  /** A service's profile gives it one capability of the runtime, and none of an administrator. */
  predicate RuntimeOnly(p: Principal) {
    && p.Service? && p.active && p.principalId != "founder"
    && match p.profile
       case Scheduler => p.capabilities == {RuntimeSchedule}
       case Worker => p.capabilities == {RuntimeExecute}
       case Monitor => p.capabilities == {RuntimeMonitor}
       case Backup => p.capabilities == {BackupManage}
  }

  predicate KnownPrincipal(p: Principal) {
    p == FOUNDER || RuntimeOnly(p)
  }

  function ToAct(request: Request): Capability {
    if request.KillSwitch? then AdminKillSwitchControl else AdminServicePrincipalManage
  }

  /** The capability a goal takes. */
  function Takes(goal: Goal): Option<Capability> {
    match goal
    case RevokeOne(_) => Some(AdminSessionManage)
    case RevokeAll(_) => Some(AdminSessionManage)
    case OfferStepUp(capability, _, _) => Some(capability)
    case Redeem(challenge) => challenge.capability
    case SpendReceipt(request) => Some(ToAct(request))
    case Carry(request, _) => Some(ToAct(request))
  }

  /** It is what the machine asks for. */
  lemma TakesExactly(goal: Goal)
    ensures GoalCapability(goal) == Takes(goal)
  {
  }

  /** What a principal may do, however its roles and grants came together: a founder everything, an
      operator commands, an auditor the record of events, both of them reading; a service its
      profile's one thing; and anyone active what it was granted itself. */
  lemma HoldsExactly(p: Principal, c: Capability)
    ensures HasCapability(p, c)
            <==> p.active
                 && (c in p.capabilities
                     || match p
                        case Human(_, roles, _, _) =>
                          || Founder in roles
                          || (c == AdminRead && roles != [])
                          || (c == AdminCommandExecute && Operator in roles)
                          || (c == AdminSecurityEventRead && Auditor in roles)
                        case Service(_, profile, _, _) =>
                          c == match profile
                               case Scheduler => RuntimeSchedule
                               case Worker => RuntimeExecute
                               case Monitor => RuntimeMonitor
                               case Backup => BackupManage)
  {
    match p {
      case Human(_, roles, _, _) =>
        if roles != [] {
          assert roles[0] in roles;
        }
        var held := set role, k | role in roles && k in RoleCapabilities(role) :: k;
        assert c in held <==> exists role :: role in roles && c in RoleCapabilities(role);
        assert c in RoleCapabilities(Founder);
      case Service(_, _, _, _) =>
    }
  }

  predicate IsRuntime(c: Capability) {
    c.RuntimeSchedule? || c.RuntimeExecute? || c.RuntimeMonitor? || c.BackupManage?
  }

  /** Administrators' goals are the founder's alone. */
  predicate Qualified(p: Principal, goal: Goal) {
    KnownPrincipal(p) && (Takes(goal).Some? && !IsRuntime(Takes(goal).value) ==> p == FOUNDER)
  }

  /** What a client named passed the identifier checks: the command it wants a step-up for, the
      operation it presents a receipt for, the principal it wants logged out. */
  predicate WellNamed(goal: Goal) {
    match goal
    case RevokeAll(principalId) => principalId.Some? ==> SafeIdentifier(principalId.value)
    case OfferStepUp(_, command, _) => SafeIdentifier(command)
    case SpendReceipt(request) => SafeIdentifier(Subject(request)) && SafeIdentifier(Command(request))
    case Carry(request, _) => SafeIdentifier(Subject(request)) && SafeIdentifier(Command(request))
    case _ => true
  }

  predicate CallerOk(th: Thread) {
    match th
    case OfferingLogin(principalId) => principalId == "founder"
    case VerifyingLogin(c, credential) => c.principalId == Some(credential.principalId)
    case VerifyingStepUp(c, _, credential) => c.principalId == Some(credential.principalId)
    case Authenticating(goal, _) => WellNamed(goal)
    case Touching(goal, _, who, _) => Qualified(who.principal, goal) && WellNamed(goal)
    case Authorized(goal, _, who) => Qualified(who.principal, goal) && WellNamed(goal)
    case _ => true
  }

  ghost predicate Identified(sys: System) {
    && (forall p :: p in sys.state.principals ==> KnownPrincipal(p))
    && (forall t :: t in sys.threads ==> CallerOk(sys.threads[t]))
  }

  /** A capability of the founder's role, or one of a profile: nobody known holds another way. */
  lemma HoldsOnlyOwn(p: Principal, c: Capability)
    requires KnownPrincipal(p) && HasCapability(p, c) && !IsRuntime(c)
    ensures p == FOUNDER
  {
  }

  lemma ReadQualifies(s: State, goal: Goal, token: Hash, now: int)
    requires forall p :: p in s.principals ==> KnownPrincipal(p)
    ensures
      var who := ReadSession(s, token, GoalCapability(goal), now);
      who.Some? ==> Qualified(who.value.principal, goal)
  {
    var who := ReadSession(s, token, GoalCapability(goal), now);
    if who.Some? {
      var p := who.value.principal;
      hide KnownPrincipal, HasCapability;
      if Takes(goal).Some? && !IsRuntime(Takes(goal).value) {
        assert HasCapability(p, Takes(goal).value);
        HoldsOnlyOwn(p, Takes(goal).value);
      }
    }
  }

  lemma LocalIdentifies(config: Config, sys: System, a: Action)
    requires Identified(sys)
    ensures Identified(Local(config, sys, a))
  {
    hide ReadSession, GoalCapability, Qualified, KnownPrincipal, SafeIdentifier, Command, ActivePrincipal;
    if a.ReadSessionState? && a.caller in sys.threads && sys.threads[a.caller].Authenticating? {
      ReadQualifies(sys.state, sys.threads[a.caller].goal, sys.threads[a.caller].token, a.now);
    }
  }

  lemma FailedIdentifies(sys: System, a: Action)
    requires Identified(sys)
    ensures Identified(Failed(sys, a))
  {
    hide CallerOk, KnownPrincipal;
  }

  lemma PerformPrincipals(config: Config, s: State, goal: Goal, who: Identity, a: Action, next: State)
    requires a.Perform? && PerformProposal(config, s, goal, who, a) == Proposed(next)
    requires HasFounder(s.principals) && forall p :: p in s.principals ==> KnownPrincipal(p)
    ensures forall p :: p in next.principals ==> KnownPrincipal(p)
  {
    hide Command, RequestCapability, AppendEvent, Spend, RevokeAllOf, RevokeIfOpen, AppendChallenge;
  }

  lemma CommitPrincipals(config: Config, sys: System, a: Action, next: State)
    requires Identified(sys) && Inv(sys) && ProposalOf(config, sys, a) == Proposed(next)
    ensures forall p :: p in next.principals ==> KnownPrincipal(p)
  {
    hide RecordsOk, CountersOk, ActsOk, MintedOk, FlowsHeldOnce, ReceiptsHeldOnce, ValidState, CallerOk, AppendEvent,
         AppendChallenge, AppendSession, AppendReceipt, SetCounter, MarkUsed, PerformProposal, KnownPrincipal;
    match a {
      case Perform(t, _, _, _, _) =>
        var th := sys.threads[t];
        assert ThreadOk(th, sys.h, sys.state.principals != []);
        PerformPrincipals(config, sys.state, th.goal, th.who, a, next);
      case FinishRegistration(_, _, _, _, _) =>
        assert KnownPrincipal(FOUNDER) by { FounderIsKnown(); }
      case _ =>
    }
  }

  lemma FounderIsKnown()
    ensures KnownPrincipal(FOUNDER)
  {
  }

  lemma PerformCallers(config: Config, sys: System, a: Action, next: State)
    requires Identified(sys) && a.Perform? && ProposalOf(config, sys, a) == Proposed(next)
    ensures forall t :: t in AfterPerform(config, sys, a, next).threads ==>
              CallerOk(AfterPerform(config, sys, a, next).threads[t])
  {
    hide Command, RequestCapability, ConsumeReceiptTx, Qualified, PerformProposal, FirstRevocation, RevokedTogether,
         SafeIdentifier;
  }

  lemma CommitCallers(config: Config, sys: System, a: Action, next: State)
    requires Identified(sys) && ProposalOf(config, sys, a) == Proposed(next)
    ensures forall t :: t in Committed(config, sys, a, next).threads ==>
              CallerOk(Committed(config, sys, a, next).threads[t])
  {
    hide PerformProposal, AfterPerform, Qualified, FinishRegistrationTx, FinishLoginTx, FinishStepUpTx, FirstRevocation,
         ConsumeChallengeTx, KnownPrincipal;
    if a.Perform? {
      PerformCallers(config, sys, a, next);
    }
  }

  lemma StepIdentifies(config: Config, sys: System, a: Action)
    requires Inv(sys) && Identified(sys)
    ensures Identified(Step(config, sys, a))
  {
    hide Inv, ProposalOf, Committed, Local, Failed, ValidState, Mints, Fresh, Minted, CallerOk, KnownPrincipal, Unseen;
    if Fresh(sys.h.minted, Mints(a)) {
      var drawn := Drawn(sys, Mints(a));
      DrawingKeepsInv(sys, Mints(a));
      LocalIdentifies(config, drawn, a);
      FailedIdentifies(drawn, a);
      match ProposalOf(config, drawn, a) {
        case Proposed(next) =>
          CommittedState(config, drawn, a, next);
          CommitPrincipals(config, drawn, a, next);
          CommitCallers(config, drawn, a, next);
        case _ =>
      }
    }
  }

  lemma {:induction false} RunIdentifies(config: Config, run: seq<System>, i: nat)
    requires IsRun(config, run) && i < |run|
    ensures Identified(run[i])
  {
    hide Inv, Step, Moves, KnownPrincipal, CallerOk;
    if i > 0 {
      hide IsRun, Identified;
      RunIdentifies(config, run, i - 1);
      RunKeepsInv(config, run, i - 1);
      var a := StepOfRun(config, run, i - 1);
      StepIdentifies(config, run[i - 1], a);
    }
  }

  /** Over every run the founder and services with their profile's one runtime capability are the only
      principals there are. */
  lemma OnlyFounderAndServices(config: Config, run: seq<System>, i: nat, p: Principal)
    requires IsRun(config, run) && i < |run| && p in run[i].state.principals
    ensures p == FOUNDER || RuntimeOnly(p)
  {
    RunIdentifies(config, run, i);
  }
}
