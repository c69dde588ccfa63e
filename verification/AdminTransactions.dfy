/** The mutation closures that src/admin-security/admin-security-service.ts hands to
    `mutateAdminSecurityState`, and its pure reads.  Each takes what the ceremony captured
    beforehand and the state the register shows it. */
module AdminTransactions {
  import opened Collections
  import opened AdminContracts
  import opened OptimisticState
  import RateLimitTable
  import RateLimiter

  const FOUNDER_PRINCIPAL_ID := "founder"
  const DEFAULT_CHALLENGE_TTL_MS: int := 5 * 60_000
  const MAX_CHALLENGES: nat := 256
  const MAX_SECURITY_EVENTS: nat := 5_000
  const MAX_SESSIONS: nat := 1_024
  const MAX_STEP_UP_RECEIPTS: nat := 512

  // ------------------------------------------------------------------- bounded appends

  function KeepChallenge(now: int): Challenge -> bool {
    (c: Challenge) => c.usedAt.None? || now - c.usedAt.value <= DEFAULT_CHALLENGE_TTL_MS
  }

  function AppendChallenge(cs: seq<Challenge>, c: Challenge, now: int): seq<Challenge> {
    Retain(cs, KeepChallenge(now), c, MAX_CHALLENGES)
  }

  function KeepSession(now: int): Session -> bool {
    (s: Session) => s.revokedAt.None? && s.absoluteExpiresAt > now
  }

  function AppendSession(ss: seq<Session>, s: Session, now: int): seq<Session> {
    Retain(ss, KeepSession(now), s, MAX_SESSIONS)
  }

  function KeepReceipt(now: int): Receipt -> bool {
    (r: Receipt) => r.consumedAt.None? && r.expiresAt > now
  }

  function AppendReceipt(rs: seq<Receipt>, r: Receipt, now: int): seq<Receipt> {
    Retain(rs, KeepReceipt(now), r, MAX_STEP_UP_RECEIPTS)
  }

  function KeepEvent(): SecurityEvent -> bool {
    (e: SecurityEvent) => true
  }

  function AppendEvent(es: seq<SecurityEvent>, e: SecurityEvent): seq<SecurityEvent> {
    Retain(es, KeepEvent(), e, MAX_SECURITY_EVENTS)
  }

  // ------------------------------------------------------------------- rewrites in place

  function MarkUsed(cs: seq<Challenge>, flowId: Id, now: int): (r: seq<Challenge>) {
    seq(|cs|, i requires 0 <= i < |cs| => if cs[i].flowId == flowId then cs[i].(usedAt := Some(now)) else cs[i])
  }

  function Spend(rs: seq<Receipt>, receiptId: Id, now: int): (r: seq<Receipt>) {
    seq(|rs|, i requires 0 <= i < |rs| =>
      if rs[i].receiptId == receiptId then rs[i].(consumedAt := Some(now)) else rs[i])
  }

  function SetCounter(cs: seq<Credential>, credentialId: Id, counter: nat): (r: seq<Credential>) {
    seq(|cs|, i requires 0 <= i < |cs| =>
      if cs[i].credentialId == credentialId then cs[i].(counter := counter) else cs[i])
  }

  function ReplaceSession(ss: seq<Session>, next: Session): (r: seq<Session>) {
    seq(|ss|, i requires 0 <= i < |ss| => if ss[i].sessionId == next.sessionId then next else ss[i])
  }

  function EndSession(ss: seq<Session>, sessionId: Id, now: int): (r: seq<Session>) {
    seq(|ss|, i requires 0 <= i < |ss| =>
      if ss[i].sessionId == sessionId then ss[i].(revokedAt := Some(now)) else ss[i])
  }

  function RevokeIfOpen(ss: seq<Session>, sessionId: Id, now: int): (r: seq<Session>) {
    seq(|ss|, i requires 0 <= i < |ss| =>
      if ss[i].sessionId == sessionId && ss[i].revokedAt.None? then ss[i].(revokedAt := Some(now)) else ss[i])
  }

  function RevokeAllOf(ss: seq<Session>, principalId: string, now: int): (r: seq<Session>) {
    seq(|ss|, i requires 0 <= i < |ss| =>
      if ss[i].principalId == principalId && ss[i].revokedAt.None? then ss[i].(revokedAt := Some(now)) else ss[i])
  }

  // ------------------------------------------------------------------- lookups and reads

  function PrincipalOf(s: State, principalId: string): Option<Principal> {
    Find(s.principals, (p: Principal) => p.principalId == principalId)
  }

  predicate HasFounder(principals: seq<Principal>) {
    exists p :: p in principals && p.principalId == FOUNDER_PRINCIPAL_ID
  }

  /** `activePrincipal`: None when it throws. */
  function ActivePrincipal(s: State, principalId: string): Option<Principal> {
    var p := PrincipalOf(s, principalId);
    if p.Some? && p.value.active then p else None
  }

  function CredentialOf(s: State, credentialId: Id): Option<Credential> {
    Find(s.credentials, (c: Credential) => c.credentialId == credentialId)
  }

  function OwnedCredential(s: State, principalId: string, credentialId: Id): Option<Credential> {
    Find(s.credentials, (c: Credential) => c.principalId == principalId && c.credentialId == credentialId)
  }

  function SessionById(s: State, sessionId: Id): Option<Session> {
    Find(s.sessions, (x: Session) => x.sessionId == sessionId)
  }

  function SessionByToken(s: State, token: Hash): Option<Session> {
    Find(s.sessions, (x: Session) => x.tokenHash == token)
  }

  predicate IsActiveSession(s: Option<Session>, now: int) {
    && s.Some? && s.value.revokedAt.None?
    && s.value.absoluteExpiresAt > now && s.value.idleExpiresAt > now
  }

  datatype Identity = Identity(principal: Principal, session: Session)

  /** The read half of `authenticateSession`; the touch that may follow is `TouchTx`. */
  function ReadSession(s: State, token: Hash, capability: Option<Capability>, now: int): (r: Option<Identity>)
    ensures r.Some? ==>
      && r.value.session in s.sessions && r.value.session.tokenHash == token
      && r.value.session.revokedAt.None?
      && r.value.principal in s.principals && r.value.principal.principalId == r.value.session.principalId
  {
    var session := SessionByToken(s, token);
    if !IsActiveSession(session, now) then None
    else
      var principal := ActivePrincipal(s, session.value.principalId);
      if principal.None? then None
      else if capability.Some? && !HasCapability(principal.value, capability.value) then None
      else Some(Identity(principal.value, session.value))
  }

  predicate BootstrapActive(s: State, presented: Hash, now: int) {
    && s.bootstrap.Some? && s.bootstrap.value.consumedAt.None?
    && s.bootstrap.value.expiresAt > now
    && s.bootstrap.value.tokenHash == presented
    && !HasFounder(s.principals)
  }

  // ------------------------------------------------------------------- founder bootstrap

  function CreateBootstrapTx(s: State, b: Bootstrap, event: SecurityEvent, now: int): Outcome<State, ()> {
    if HasFounder(s.principals) || (s.bootstrap.Some? && s.bootstrap.value.consumedAt.Some?) then
      Reject(BootstrapAlreadyCompleted)
    else if s.bootstrap.Some? && s.bootstrap.value.consumedAt.None? && s.bootstrap.value.expiresAt > now then
      Reject(BootstrapInvalid)
    else
      Accept(s.(bootstrap := Some(b), events := AppendEvent(s.events, event)), ())
  }

  function BeginRegistrationTx(s: State, c: Challenge, presented: Hash, now: int): Outcome<State, ()> {
    if !BootstrapActive(s, presented, now) then Reject(BootstrapInvalid)
    else Accept(s.(challenges := AppendChallenge(s.challenges, c, now)), ())
  }

  function FinishRegistrationTx(
      s: State, c: Challenge, credential: Credential, event: SecurityEvent, now: int): Outcome<State, ()>
  {
    if || c.bootstrapTokenHash.None?
       || s.bootstrap.None? || s.bootstrap.value.consumedAt.Some?
       || s.bootstrap.value.expiresAt <= now
       || c.bootstrapTokenHash.value != s.bootstrap.value.tokenHash
       || HasFounder(s.principals)
       || CredentialOf(s, credential.credentialId).Some?
    then Reject(BootstrapAlreadyCompleted)
    else
      Accept(
        s.(bootstrap := Some(s.bootstrap.value.(consumedAt := Some(now))),
           credentials := s.credentials + [credential],
           principals := s.principals + [Human(FOUNDER_PRINCIPAL_ID, [Founder], {}, true)],
           events := AppendEvent(s.events, event)),
        ())
  }

  // ------------------------------------------------------------------- challenges

  /** `beginAuthentication` and `beginStepUp`: append without looking at the state again. */
  function OfferChallengeTx(s: State, c: Challenge, event: SecurityEvent, now: int): Outcome<State, ()> {
    Accept(s.(challenges := AppendChallenge(s.challenges, c, now), events := AppendEvent(s.events, event)), ())
  }

  function ConsumeChallengeTx(
      s: State, flowId: Id, kind: ChallengeKind, sourceKey: Hash, now: int): Outcome<State, Challenge>
  {
    var found := Find(s.challenges, (c: Challenge) => c.flowId == flowId && c.kind == kind);
    if || found.None? || found.value.usedAt.Some?
       || found.value.expiresAt <= now || found.value.sourceKey != sourceKey then
      Reject(if found.Some? && found.value.expiresAt <= now then ChallengeExpired else ChallengeInvalid)
    else
      Accept(s.(challenges := MarkUsed(s.challenges, found.value.flowId, now)), found.value)
  }

  // ------------------------------------------------------------------- login and sessions

  function FinishLoginTx(
      s: State, read: Credential, newCounter: nat, session: Session, event: SecurityEvent, now: int): Outcome<State, ()>
  {
    var current := OwnedCredential(s, read.principalId, read.credentialId);
    if current.None? || current.value.counter != read.counter then Reject(CredentialInvalid)
    else if ActivePrincipal(s, session.principalId).None? then Reject(CredentialInvalid)
    else
      Accept(
        s.(credentials := SetCounter(s.credentials, read.credentialId, newCounter),
           sessions := AppendSession(s.sessions, session, now),
           events := AppendEvent(s.events, event)),
        ())
  }

  function TouchTx(s: State, sessionId: Id, idleTtlMs: int, now: int): Outcome<State, Session> {
    var current := SessionById(s, sessionId);
    if !IsActiveSession(current, now) then Reject(SessionInvalid)
    else
      var c := current.value;
      var idle := if c.absoluteExpiresAt < now + idleTtlMs then c.absoluteExpiresAt else now + idleTtlMs;
      var next := c.(idleExpiresAt := idle, lastSeenAt := now);
      Accept(s.(sessions := ReplaceSession(s.sessions, next)), next)
  }

  function LogoutTx(s: State, token: Hash, event: SecurityEvent, now: int): Outcome<State, Id> {
    var session := SessionByToken(s, token);
    if session.None? || session.value.revokedAt.Some? then Reject(SessionInvalid)
    else
      Accept(
        s.(sessions := EndSession(s.sessions, session.value.sessionId, now), events := AppendEvent(s.events, event)),
        session.value.sessionId)
  }

  function RevokeSessionTx(s: State, target: Id, event: SecurityEvent, now: int): Outcome<State, ()> {
    if SessionById(s, target).None? then Reject(SessionInvalid)
    else
      Accept(s.(sessions := RevokeIfOpen(s.sessions, target, now), events := AppendEvent(s.events, event)), ())
  }

  function RevokeAllTx(s: State, principalId: string, event: SecurityEvent, now: int): Outcome<State, nat> {
    Accept(
      s.(sessions := RevokeAllOf(s.sessions, principalId, now), events := AppendEvent(s.events, event)),
      |Filter(s.sessions, (x: Session) => x.principalId == principalId && x.revokedAt.None?)|)
  }

  // ------------------------------------------------------------------- step-up

  function FinishStepUpTx(
      s: State, read: Credential, newCounter: nat, sessionId: Id, receipt: Receipt, event: SecurityEvent, now: int)
    : Outcome<State, ()>
  {
    var current := CredentialOf(s, read.credentialId);
    if current.None? || current.value.counter != read.counter || !IsActiveSession(SessionById(s, sessionId), now) then
      Reject(StepUpInvalid)
    else
      Accept(
        s.(credentials := SetCounter(s.credentials, read.credentialId, newCounter),
           receipts := AppendReceipt(s.receipts, receipt, now),
           events := AppendEvent(s.events, event)),
        ())
  }

  /** The session is not looked up again here: only the identity read earlier is compared. */
  function ConsumeReceiptTx(
      s: State, who: Identity, capability: Capability, command: string, fingerprint: Hash, token: Hash,
      event: SecurityEvent, now: int): Outcome<State, Receipt>
  {
    var found := Find(s.receipts, (r: Receipt) => r.tokenHash == token);
    if || found.None? || found.value.consumedAt.Some?
       || found.value.expiresAt <= now
       || found.value.principalId != who.principal.principalId
       || found.value.sessionId != who.session.sessionId
       || found.value.capability != capability
       || found.value.command != command
       || found.value.fingerprint != fingerprint
    then Reject(StepUpInvalid)
    else
      Accept(
        s.(receipts := Spend(s.receipts, found.value.receiptId, now), events := AppendEvent(s.events, event)),
        found.value)
  }

  // ------------------------------------------------------------------- the rest

  function RegisterServiceTx(s: State, p: Principal, event: SecurityEvent): Outcome<State, ()> {
    if PrincipalOf(s, p.principalId).Some? then Reject(InputInvalid)
    else Accept(s.(principals := s.principals + [p], events := AppendEvent(s.events, event)), ())
  }

  function RecordEventTx(s: State, event: SecurityEvent): Outcome<State, ()> {
    Accept(s.(events := AppendEvent(s.events, event)), ())
  }

  function RateLimitTx(s: State, e: RateLimitTable.Event, config: RateLimiter.Config): Outcome<State, ()> {
    Accept(s.(rateLimits := RateLimitTable.TableStep(s.rateLimits, e, config)), ())
  }
}
