/** The ceremonies of src/admin-security/admin-security-service.ts as one machine.

    Every ceremony is a caller that alternates local reads with atomic mutations (module
    OptimisticState shows that the compare-and-set loop makes them atomic).  Callers interleave
    in any order, may stop at any point, and bring their own clocks: no order is assumed
    between the `now` of one step and that of another.  `History` is bookkeeping no step reads. */
module AdminCeremonies {
  import opened Collections
  import opened AdminContracts
  import opened OptimisticState
  import opened AdminTransactions
  import opened CommandStrings
  import RateLimitTable
  import RateLimiter

  datatype Ttls = Ttls(
    bootstrapMs: int, challengeMs: int, sessionAbsoluteMs: int, sessionIdleMs: int, sessionTouchMs: int,
    stepUpMs: int, limiter: RateLimiter.Config)

  /** The service constructor: positive durations, idle lifetime within the absolute one. */
  type Config = c: Ttls |
    && c.bootstrapMs > 0 && c.challengeMs > 0 && c.stepUpMs > 0 && c.sessionTouchMs > 0
    && 0 < c.sessionIdleMs <= c.sessionAbsoluteMs
    witness Ttls(600_000, 300_000, 28_800_000, 1_800_000, 60_000, 120_000,
                 RateLimiter.Settings(900_000, 1_024, 5, 20, 60_000))

  /** What a session is presented for. */
  datatype Goal =
    | RevokeOne(target: Id)
    | RevokeAll(principalId: Option<string>)
    | OfferStepUp(capability: Capability, command: string, fingerprint: Hash)
    | Redeem(challenge: Challenge)
    | SpendReceipt(request: Request)
    | Carry(request: Request, receiptId: Id)

  /** A caller between two atomic steps. */
  datatype Thread =
    | OfferingLogin(principalId: string)
    | HoldingLogin(challenge: Challenge)
    | VerifyingLogin(challenge: Challenge, credential: Credential)
    | HoldingRegistration(challenge: Challenge)
    | Authenticating(goal: Goal, token: Hash)
    | Touching(goal: Goal, token: Hash, who: Identity, now: int)
    | Authorized(goal: Goal, token: Hash, who: Identity)
    | BoundStepUp(challenge: Challenge, session: Session)
    | VerifyingStepUp(challenge: Challenge, session: Session, credential: Credential)

  datatype Issued = Issued(receipt: Receipt, flowId: Id)
  datatype Act = Act(request: Request, receiptId: Id, principalId: string)
  datatype FounderRegistration = FounderRegistration(flowId: Id, tokenHash: Hash)
  datatype CounterUse = CounterUse(credentialId: Id, read: nat, wrote: nat)

  datatype History = History(
    minted: set<nat>,                   // every random identifier and token ever drawn
    challenges: map<Id, Challenge>,     // every challenge ever stored, as it was created
    used: set<Id>,                      // flows whose challenge was consumed
    receipts: map<Id, Issued>,          // every receipt ever stored, and the flow that earned it
    spent: set<Id>,                     // receipts that were consumed
    acts: seq<Act>,                     // kill-switch authorisations and service registrations
    founders: seq<FounderRegistration>, // committed founder registrations
    sessions: map<Id, Session>,         // every session ever stored, as it was created
    revoked: map<Id, int>,              // when each revoked session was first revoked
    uses: seq<CounterUse>)              // committed assertions: counter read, counter written

  datatype System = System(state: State, threads: map<nat, Thread>, h: History)

  const START := System(EMPTY_STATE, map[], History({}, map[], {}, map[], {}, [], [], map[], map[], []))

  datatype Action =
    | CreateBootstrap(token: Hash, eventId: Id, now: int)
    | BeginRegistration(presented: Hash, flowId: Id, sourceKey: Hash, now: int)
    | BeginLogin(caller: nat)
    | OfferLogin(caller: nat, flowId: Id, sourceKey: Hash, eventId: Id, now: int)
    | ConsumeChallenge(
        caller: nat, flowId: Id, kind: ChallengeKind, sourceKey: Hash, sessionToken: Hash, now: int)
    | ReadCredential(caller: nat, credentialId: Id)
    | FinishRegistration(caller: nat, credentialId: Id, counter: nat, eventId: Id, now: int)
    | FinishLogin(caller: nat, newCounter: nat, sessionId: Id, token: Hash, eventId: Id, now: int)
    | Present(caller: nat, goal: Goal, sessionToken: Hash)
    | ReadSessionState(caller: nat, now: int)
    | Touch(caller: nat)
    | Perform(caller: nat, flowId: Id, eventId: Id, sourceKey: Hash, now: int)
    | FinishStepUp(caller: nat, newCounter: nat, receiptId: Id, token: Hash, eventId: Id, now: int)
    | Logout(token: Hash, eventId: Id, now: int)
    | RateLimit(event: RateLimitTable.Event)
    | Audit(eventType: EventType, eventId: Id)
    | Abandon(caller: nat)

  function GoalCapability(goal: Goal): Option<Capability> {
    match goal
    case RevokeOne(_) => Some(AdminSessionManage)
    case RevokeAll(_) => Some(AdminSessionManage)
    case OfferStepUp(capability, _, _) => Some(capability)
    case Redeem(challenge) => challenge.capability
    case SpendReceipt(request) => Some(RequestCapability(request))
    case Carry(request, _) => Some(RequestCapability(request))
  }

  /** Web Authentication Level 2, section 7.2 step 21: unless both counters are zero, the new
      one is strictly greater. */
  predicate CounterContract(stored: nat, signed: nat) {
    if stored == 0 && signed == 0 then true else signed > stored
  }

  /** What ceremonies record on their own when they fail or are refused. */
  predicate IsReport(t: EventType) {
    t.BootstrapRejected? || t.AuthenticationFailed? || t.AuthorizationDenied? || t.StepUpFailed? || t.RateLimited?
  }

  /** Random values an action draws. */
  function Mints(a: Action): seq<Id> {
    match a
    case CreateBootstrap(token, eventId, _) => [token, eventId]
    case BeginRegistration(_, flowId, _, _) => [flowId]
    case OfferLogin(_, flowId, _, eventId, _) => [flowId, eventId]
    case FinishRegistration(_, _, _, eventId, _) => [eventId]
    case FinishLogin(_, _, sessionId, token, eventId, _) => [sessionId, token, eventId]
    case Perform(_, flowId, eventId, _, _) => [flowId, eventId]
    case FinishStepUp(_, _, receiptId, token, eventId, _) => [receiptId, token, eventId]
    case Logout(_, eventId, _) => [eventId]
    case Audit(_, eventId) => [eventId]
    case _ => []
  }

  predicate Fresh(minted: set<nat>, ids: seq<Id>) {
    && (forall i :: 0 <= i < |ids| ==> ids[i] !in minted)
    && (forall i, j :: 0 <= i < j < |ids| ==> ids[i] != ids[j])
  }

  function Minted(minted: set<nat>, ids: seq<Id>): (r: set<nat>) {
    minted + set i | 0 <= i < |ids| :: ids[i]
  }

  datatype Proposal = NoMutation | Refused | Proposed(next: State)

  function Propose<R>(o: Outcome<State, R>): Proposal {
    match o
    case Reject(_) => Refused
    case Accept(next, _) => Proposed(next)
  }

  /** `#newChallenge`. */
  function NewChallenge(
      config: Config, kind: ChallengeKind, flowId: Id, sourceKey: Hash, now: int): Challenge
  {
    Challenge(flowId, kind, None, None, None, None, None, None, sourceKey, now + config.challengeMs, None)
  }

  function RegistrationChallenge(config: Config, presented: Hash, flowId: Id, sourceKey: Hash, now: int): Challenge {
    NewChallenge(config, Registration, flowId, sourceKey, now).(bootstrapTokenHash := Some(presented))
  }

  function LoginChallenge(config: Config, principalId: string, flowId: Id, sourceKey: Hash, now: int): Challenge {
    NewChallenge(config, Login, flowId, sourceKey, now).(principalId := Some(principalId))
  }

  function StepUpChallenge(config: Config, goal: Goal, who: Identity, flowId: Id, sourceKey: Hash, now: int): Challenge
    requires goal.OfferStepUp?
  {
    NewChallenge(config, StepUp, flowId, sourceKey, now).(
      principalId := Some(who.principal.principalId),
      sessionId := Some(who.session.sessionId),
      capability := Some(goal.capability),
      command := Some(goal.command),
      fingerprint := Some(goal.fingerprint))
  }

  function NewSession(config: Config, principalId: string, sessionId: Id, token: Hash, now: int): Session {
    var absolute := now + config.sessionAbsoluteMs;
    var idle := if absolute < now + config.sessionIdleMs then absolute else now + config.sessionIdleMs;
    Session(sessionId, principalId, token, now, idle, absolute, None)
  }

  /** `finishStepUp` refuses a challenge with any of its bindings missing. */
  predicate FullyBound(c: Challenge) {
    c.principalId.Some? && c.sessionId.Some? && c.capability.Some? && c.command.Some? && c.fingerprint.Some?
  }

  function NewReceipt(config: Config, c: Challenge, receiptId: Id, token: Hash, now: int): Receipt
    requires FullyBound(c)
  {
    Receipt(receiptId, c.principalId.value, c.sessionId.value, c.capability.value, c.command.value,
            c.fingerprint.value, token, now + config.stepUpMs, None)
  }

  function TargetPrincipal(goal: Goal, who: Identity): string
    requires goal.RevokeAll?
  {
    if goal.principalId.Some? then goal.principalId.value else who.principal.principalId
  }

  /** The mutation of `Perform`: what an authenticated caller does next. */
  function PerformProposal(config: Config, s: State, goal: Goal, who: Identity, a: Action): Proposal
    requires a.Perform?
  {
    match goal
    case RevokeOne(target) =>
      Propose(RevokeSessionTx(s, target, SecurityEvent(a.eventId, SessionRevoked), a.now))
    case RevokeAll(_) =>
      Propose(RevokeAllTx(s, TargetPrincipal(goal, who), SecurityEvent(a.eventId, AllSessionsRevoked), a.now))
    case OfferStepUp(_, _, _) =>
      if !who.principal.Human? then Refused
      else
        Propose(OfferChallengeTx(s, StepUpChallenge(config, goal, who, a.flowId, a.sourceKey, a.now),
                                 SecurityEvent(a.eventId, StepUpChallengeCreated), a.now))
    case Redeem(_) => NoMutation
    case SpendReceipt(request) =>
      Propose(ConsumeReceiptTx(s, who, RequestCapability(request), Command(request), request.fingerprint,
                               request.receiptToken, SecurityEvent(a.eventId, StepUpReceiptConsumed), a.now))
    case Carry(request, _) =>
      match request
      case KillSwitch(_, _, _, _) => Propose(RecordEventTx(s, SecurityEvent(a.eventId, KillSwitchAuthorized)))
      case RegisterService(principalId, profile, _, _) =>
        Propose(RegisterServiceTx(s, Service(principalId, profile, ProfileCapabilities(profile), true),
                                  SecurityEvent(a.eventId, ServicePrincipalRegistered)))
  }

  /** The successor each action's closure proposes to the register, if it has one. */
  function ProposalOf(config: Config, sys: System, a: Action): Proposal {
    var s := sys.state;
    match a
    case CreateBootstrap(token, eventId, now) =>
      Propose(CreateBootstrapTx(s, Bootstrap(token, now + config.bootstrapMs, None),
                                SecurityEvent(eventId, BootstrapCreated), now))
    case BeginRegistration(presented, flowId, sourceKey, now) =>
      Propose(BeginRegistrationTx(s, RegistrationChallenge(config, presented, flowId, sourceKey, now), presented, now))
    case OfferLogin(t, flowId, sourceKey, eventId, now) =>
      if t !in sys.threads || !sys.threads[t].OfferingLogin? then NoMutation
      else
        Propose(OfferChallengeTx(s, LoginChallenge(config, sys.threads[t].principalId, flowId, sourceKey, now),
                                 SecurityEvent(eventId, AuthenticationChallengeCreated), now))
    case ConsumeChallenge(t, flowId, kind, sourceKey, _, now) =>
      if t in sys.threads then NoMutation else Propose(ConsumeChallengeTx(s, flowId, kind, sourceKey, now))
    case FinishRegistration(t, credentialId, counter, eventId, now) =>
      if t !in sys.threads || !sys.threads[t].HoldingRegistration? then NoMutation
      else
        Propose(FinishRegistrationTx(s, sys.threads[t].challenge,
                                     Credential(credentialId, FOUNDER_PRINCIPAL_ID, counter),
                                     SecurityEvent(eventId, FounderRegistered), now))
    case FinishLogin(t, newCounter, sessionId, token, eventId, now) =>
      if || t !in sys.threads || !sys.threads[t].VerifyingLogin?
         || !CounterContract(sys.threads[t].credential.counter, newCounter) then NoMutation
      else
        var read := sys.threads[t].credential;
        Propose(FinishLoginTx(s, read, newCounter, NewSession(config, read.principalId, sessionId, token, now),
                              SecurityEvent(eventId, AuthenticationSucceeded), now))
    case Touch(t) =>
      if t !in sys.threads || !sys.threads[t].Touching? then NoMutation
      else Propose(TouchTx(s, sys.threads[t].who.session.sessionId, config.sessionIdleMs, sys.threads[t].now))
    case Perform(t, _, _, _, _) =>
      if t !in sys.threads || !sys.threads[t].Authorized? then NoMutation
      else PerformProposal(config, s, sys.threads[t].goal, sys.threads[t].who, a)
    case FinishStepUp(t, newCounter, receiptId, token, eventId, now) =>
      if || t !in sys.threads || !sys.threads[t].VerifyingStepUp?
         || !FullyBound(sys.threads[t].challenge)
         || !CounterContract(sys.threads[t].credential.counter, newCounter) then NoMutation
      else
        var th := sys.threads[t];
        Propose(FinishStepUpTx(s, th.credential, newCounter, th.session.sessionId,
                               NewReceipt(config, th.challenge, receiptId, token, now),
                               SecurityEvent(eventId, StepUpSucceeded), now))
    case Logout(token, eventId, now) =>
      Propose(LogoutTx(s, token, SecurityEvent(eventId, SessionRevoked), now))
    case RateLimit(event) => Propose(RateLimitTx(s, event, config.limiter))
    case Audit(eventType, eventId) =>
      if !IsReport(eventType) then NoMutation
      else Propose(RecordEventTx(s, SecurityEvent(eventId, eventType)))
    case _ => NoMutation
  }

  /** What a consumed challenge leads to. */
  function AfterConsume(c: Challenge, sessionToken: Hash): Option<Thread> {
    match c.kind
    case Login => if c.principalId.None? then None else Some(HoldingLogin(c))
    case Registration => Some(HoldingRegistration(c))
    case StepUp => if FullyBound(c) then Some(Authenticating(Redeem(c), sessionToken)) else None
  }

  function With(threads: map<nat, Thread>, t: nat, next: Option<Thread>): map<nat, Thread> {
    if next.Some? then threads[t := next.value] else threads - {t}
  }

  function FirstRevocation(revoked: map<Id, int>, id: Id, now: int): map<Id, int> {
    if id in revoked then revoked else revoked[id := now]
  }

  /** Sessions of `principalId` still open in `ss`, each revoked at `now`. */
  function RevokedTogether(revoked: map<Id, int>, ss: seq<Session>, principalId: string, now: int): map<Id, int> {
    (map x | x in ss && x.principalId == principalId && x.revokedAt.None? :: x.sessionId := now) + revoked
  }

  function AfterPerform(config: Config, sys: System, a: Action, next: State): System
    requires a.Perform? && a.caller in sys.threads && sys.threads[a.caller].Authorized?
  {
    var Authorized(goal, token, who) := sys.threads[a.caller];
    var h, done := sys.h, sys.threads - {a.caller};
    match goal
    case RevokeOne(target) => System(next, done, h.(revoked := FirstRevocation(h.revoked, target, a.now)))
    case RevokeAll(_) =>
      System(next, done,
             h.(revoked := RevokedTogether(h.revoked, sys.state.sessions, TargetPrincipal(goal, who), a.now)))
    case OfferStepUp(_, _, _) =>
      var c := StepUpChallenge(config, goal, who, a.flowId, a.sourceKey, a.now);
      System(next, done, h.(challenges := h.challenges[a.flowId := c]))
    case Redeem(_) => sys
    case SpendReceipt(request) =>
      var found := ConsumeReceiptTx(
        sys.state, who, RequestCapability(request), Command(request), request.fingerprint, request.receiptToken,
        SecurityEvent(a.eventId, StepUpReceiptConsumed), a.now);
      if found.Reject? then sys
      else
        System(next, sys.threads[a.caller := Authenticating(Carry(request, found.result.receiptId), token)],
               h.(spent := h.spent + {found.result.receiptId}))
    case Carry(request, receiptId) =>
      System(next, done, h.(acts := h.acts + [Act(request, receiptId, who.principal.principalId)]))
  }

  /** The machine once the register took `next`: the caller moves on, the books are updated. */
  function Committed(config: Config, sys: System, a: Action, next: State): System
    requires ProposalOf(config, sys, a) == Proposed(next)
  {
    var s, h := sys.state, sys.h;
    match a
    case BeginRegistration(presented, flowId, sourceKey, now) =>
      var c := RegistrationChallenge(config, presented, flowId, sourceKey, now);
      System(next, sys.threads, h.(challenges := h.challenges[flowId := c]))
    case OfferLogin(t, flowId, sourceKey, _, now) =>
      var c := LoginChallenge(config, sys.threads[t].principalId, flowId, sourceKey, now);
      System(next, sys.threads - {t}, h.(challenges := h.challenges[flowId := c]))
    case ConsumeChallenge(t, flowId, kind, sourceKey, sessionToken, now) =>
      var c := ConsumeChallengeTx(s, flowId, kind, sourceKey, now).result;
      System(next, With(sys.threads, t, AfterConsume(c, sessionToken)), h.(used := h.used + {c.flowId}))
    case FinishRegistration(t, _, _, _, _) =>
      var c := sys.threads[t].challenge;
      System(next, sys.threads - {t},
             h.(founders := h.founders + [FounderRegistration(c.flowId, c.bootstrapTokenHash.value)]))
    case FinishLogin(t, newCounter, sessionId, token, _, now) =>
      var read := sys.threads[t].credential;
      System(next, sys.threads - {t},
             h.(sessions := h.sessions[sessionId := NewSession(config, read.principalId, sessionId, token, now)],
                uses := h.uses + [CounterUse(read.credentialId, read.counter, newCounter)]))
    case Touch(t) =>
      var th := sys.threads[t];
      var touched := TouchTx(s, th.who.session.sessionId, config.sessionIdleMs, th.now).result;
      System(next, sys.threads[t := Authorized(th.goal, th.token, th.who.(session := touched))], h)
    case Perform(_, _, _, _, _) => AfterPerform(config, sys, a, next)
    case FinishStepUp(t, newCounter, receiptId, token, _, now) =>
      var th := sys.threads[t];
      var receipt := NewReceipt(config, th.challenge, receiptId, token, now);
      System(next, sys.threads - {t},
             h.(receipts := h.receipts[receiptId := Issued(receipt, th.challenge.flowId)],
                uses := h.uses + [CounterUse(th.credential.credentialId, th.credential.counter, newCounter)]))
    case Logout(token, eventId, now) =>
      var id := LogoutTx(s, token, SecurityEvent(eventId, SessionRevoked), now).result;
      System(next, sys.threads, h.(revoked := FirstRevocation(h.revoked, id, now)))
    case _ => sys.(state := next)
  }

  /** What a client may ask for directly; the other goals arise inside a ceremony. */
  predicate ClientGoal(goal: Goal) {
    match goal
    case RevokeOne(_) => true
    case RevokeAll(principalId) => principalId.Some? ==> SafeIdentifier(principalId.value)
    case OfferStepUp(_, command, _) => SafeIdentifier(command)
    case SpendReceipt(request) => Presentable(request)
    case _ => false
  }

  /** Steps that only read, or only compute. */
  function Local(config: Config, sys: System, a: Action): System {
    var s, threads := sys.state, sys.threads;
    match a
    case BeginLogin(t) =>
      if || t in threads || ActivePrincipal(s, FOUNDER_PRINCIPAL_ID).None?
         || Find(s.credentials, (c: Credential) => c.principalId == FOUNDER_PRINCIPAL_ID).None? then sys
      else sys.(threads := threads[t := OfferingLogin(FOUNDER_PRINCIPAL_ID)])
    case ReadCredential(t, credentialId) =>
      if t !in threads then sys else sys.(threads := With(threads, t, CredentialRead(s, threads[t], credentialId)))
    case Present(t, goal, sessionToken) =>
      if t in threads || !ClientGoal(goal) then sys
      else sys.(threads := threads[t := Authenticating(goal, sessionToken)])
    case ReadSessionState(t, now) =>
      if t !in threads || !threads[t].Authenticating? then sys
      else
        var Authenticating(goal, token) := threads[t];
        var who := ReadSession(s, token, GoalCapability(goal), now);
        if who.None? then sys.(threads := threads - {t})
        else if now - who.value.session.lastSeenAt < config.sessionTouchMs then
          sys.(threads := threads[t := Authorized(goal, token, who.value)])
        else sys.(threads := threads[t := Touching(goal, token, who.value, now)])
    case Perform(t, _, _, _, _) =>
      if t !in threads || !threads[t].Authorized? || !threads[t].goal.Redeem? then sys
      else
        var c, who := threads[t].goal.challenge, threads[t].who;
        if c.principalId == Some(who.principal.principalId) && c.sessionId == Some(who.session.sessionId) then
          sys.(threads := threads[t := BoundStepUp(c, who.session)])
        else sys.(threads := threads - {t})
    case Abandon(t) => sys.(threads := threads - {t})
    case _ => sys
  }

  /** The read between consuming a challenge and verifying the assertion; None when it throws. */
  function CredentialRead(s: State, th: Thread, credentialId: Id): Option<Thread> {
    match th
    case HoldingLogin(c) =>
      if c.principalId.None? || ActivePrincipal(s, c.principalId.value).None? then None
      else
        var found := OwnedCredential(s, c.principalId.value, credentialId);
        if found.None? then None else Some(VerifyingLogin(c, found.value))
    case BoundStepUp(c, session) =>
      if c.principalId.None? then None
      else
        var found := OwnedCredential(s, c.principalId.value, credentialId);
        if found.None? then None else Some(VerifyingStepUp(c, session, found.value))
    case _ => Some(th)
  }

  /** A ceremony whose mutation threw, or whose proposal the repository rejected, is over. */
  function Failed(sys: System, a: Action): System {
    match a
    case FinishRegistration(t, _, _, _, _) => sys.(threads := sys.threads - {t})
    case FinishLogin(t, _, _, _, _, _) => sys.(threads := sys.threads - {t})
    case Touch(t) => sys.(threads := sys.threads - {t})
    case Perform(t, _, _, _, _) => sys.(threads := sys.threads - {t})
    case FinishStepUp(t, _, _, _, _, _) => sys.(threads := sys.threads - {t})
    case _ => sys
  }

  /** One atomic step.  The register refuses a successor that `validateState` rejects. */
  ghost function Step(config: Config, sys: System, a: Action): System {
    if !Fresh(sys.h.minted, Mints(a)) then sys
    else
      var sys := sys.(h := sys.h.(minted := Minted(sys.h.minted, Mints(a))));
      match ProposalOf(config, sys, a)
      case NoMutation => Local(config, sys, a)
      case Refused => Failed(sys, a)
      case Proposed(next) => if ValidState(next) then Committed(config, sys, a, next) else Failed(sys, a)
  }

  /** `run[i]` moves on by one action of somebody. */
  ghost predicate Moves(config: Config, run: seq<System>, i: nat) {
    i + 1 < |run| && exists a :: run[i + 1] == Step(config, run[i], a)
  }

  /** The states some run goes through, from the empty one on. */
  ghost predicate IsRun(config: Config, run: seq<System>) {
    run != [] && run[0] == START && forall i: nat :: i + 1 < |run| ==> Moves(config, run, i)
  }
}
