/** The stored records of src/admin-security/admin-security-contracts.ts.

    Timestamps are milliseconds.  Opaque random identifiers, and SHA-256 values of opaque
    tokens, are naturals: hashing is taken as injective, so a token and its hash are one value. */
module AdminContracts {
  import opened Collections
  import RateLimiter

  type Id = nat
  type Hash = nat

  datatype Error =
    | BootstrapAlreadyCompleted
    | BootstrapInvalid
    | CapabilityDenied
    | ChallengeExpired
    | ChallengeInvalid
    | CredentialInvalid
    | InputInvalid
    | RateLimitExceeded
    | SessionInvalid
    | StepUpInvalid

  datatype Capability =
    | AdminRead
    | AdminCommandExecute
    | AdminCredentialManage
    | AdminSessionManage
    | AdminSecurityEventRead
    | AdminServicePrincipalManage
    | AdminKillSwitchControl
    | AdminProviderControl
    | AdminCostControl
    | RuntimeSchedule
    | RuntimeExecute
    | RuntimeMonitor
    | BackupManage

  datatype Role = Founder | Operator | Auditor

  datatype Profile = Scheduler | Worker | Monitor | Backup

  datatype Principal =
    | Human(principalId: string, roles: seq<Role>, capabilities: set<Capability>, active: bool)
    | Service(principalId: string, profile: Profile, capabilities: set<Capability>, active: bool)

  datatype Credential = Credential(credentialId: Id, principalId: string, counter: nat)

  datatype Bootstrap = Bootstrap(tokenHash: Hash, expiresAt: int, consumedAt: Option<int>)

  datatype ChallengeKind = Login | Registration | StepUp

  datatype Challenge = Challenge(
    flowId: Id,
    kind: ChallengeKind,
    bootstrapTokenHash: Option<Hash>,
    principalId: Option<string>,
    sessionId: Option<Id>,
    capability: Option<Capability>,
    command: Option<string>,
    fingerprint: Option<Hash>,
    sourceKey: Hash,
    expiresAt: int,
    usedAt: Option<int>)

  datatype Session = Session(
    sessionId: Id,
    principalId: string,
    tokenHash: Hash,
    lastSeenAt: int,
    idleExpiresAt: int,
    absoluteExpiresAt: int,
    revokedAt: Option<int>)

  datatype Receipt = Receipt(
    receiptId: Id,
    principalId: string,
    sessionId: Id,
    capability: Capability,
    command: string,
    fingerprint: Hash,
    tokenHash: Hash,
    expiresAt: int,
    consumedAt: Option<int>)

  datatype EventType =
    | BootstrapCreated
    | BootstrapRejected
    | FounderRegistered
    | AuthenticationChallengeCreated
    | AuthenticationSucceeded
    | AuthenticationFailed
    | SessionRevoked
    | AllSessionsRevoked
    | AuthorizationDenied
    | StepUpChallengeCreated
    | StepUpSucceeded
    | StepUpFailed
    | StepUpReceiptConsumed
    | RateLimited
    | ServicePrincipalRegistered
    | KillSwitchAuthorized

  datatype SecurityEvent = SecurityEvent(eventId: Id, eventType: EventType)

  /** `AdminSecurityState` without its revision, which the register keeps. */
  datatype State = State(
    bootstrap: Option<Bootstrap>,
    principals: seq<Principal>,
    credentials: seq<Credential>,
    challenges: seq<Challenge>,
    sessions: seq<Session>,
    receipts: seq<Receipt>,
    rateLimits: seq<RateLimiter.Record>,
    events: seq<SecurityEvent>)

  const EMPTY_STATE := State(None, [], [], [], [], [], [], [])

  const ADMIN_CAPABILITIES: set<Capability> := {
    AdminRead, AdminCommandExecute, AdminCredentialManage, AdminSessionManage, AdminSecurityEventRead,
    AdminServicePrincipalManage, AdminKillSwitchControl, AdminProviderControl, AdminCostControl,
    RuntimeSchedule, RuntimeExecute, RuntimeMonitor, BackupManage}

  function RoleCapabilities(role: Role): set<Capability> {
    match role
    case Founder => ADMIN_CAPABILITIES
    case Operator => {AdminRead, AdminCommandExecute}
    case Auditor => {AdminRead, AdminSecurityEventRead}
  }

  function ProfileCapabilities(profile: Profile): set<Capability> {
    match profile
    case Scheduler => {RuntimeSchedule}
    case Worker => {RuntimeExecute}
    case Monitor => {RuntimeMonitor}
    case Backup => {BackupManage}
  }

  function EffectiveCapabilities(p: Principal): set<Capability> {
    p.capabilities
    + match p
      case Human(_, roles, _, _) => (set role, c | role in roles && c in RoleCapabilities(role) :: c)
      case Service(_, profile, _, _) => ProfileCapabilities(profile)
  }

  /** `assertCapability`. */
  predicate HasCapability(p: Principal, c: Capability) {
    p.active && c in EffectiveCapabilities(p)
  }

  /** `^[A-Za-z0-9][A-Za-z0-9._:-]{0,127}$` */
  predicate SafeIdentifier(s: string) {
    && 1 <= |s| <= 128
    && Alphanumeric(s[0])
    && forall i :: 0 <= i < |s| ==> Alphanumeric(s[i]) || s[i] in "._:-"
  }

  predicate Alphanumeric(c: char) {
    'A' <= c <= 'Z' || 'a' <= c <= 'z' || '0' <= c <= '9'
  }

  // ------------------------------------------------------------- keys of the records

  function PrincipalKey(p: Principal): string { p.principalId }
  function CredentialKey(c: Credential): Id { c.credentialId }
  function ChallengeKey(c: Challenge): Id { c.flowId }
  function SessionKey(s: Session): Id { s.sessionId }
  function ReceiptKey(r: Receipt): Id { r.receiptId }
  function EventKey(e: SecurityEvent): Id { e.eventId }

  /** The length clauses of `validateState`. */
  predicate WithinBounds(s: State) {
    && |s.principals| <= 1_024
    && |s.credentials| <= 2_048
    && |s.challenges| <= 4_096
    && |s.sessions| <= 4_096
    && |s.receipts| <= 4_096
    && |s.rateLimits| <= 8_192
    && |s.events| <= 20_000
  }

  /** The uniqueness clauses of `validateState`. */
  ghost predicate KeysUnique(s: State) {
    && UniqueBy(s.principals, PrincipalKey)
    && UniqueBy(s.credentials, CredentialKey)
    && UniqueBy(s.challenges, ChallengeKey)
    && UniqueBy(s.sessions, SessionKey)
    && UniqueBy(s.receipts, ReceiptKey)
    && UniqueBy(s.events, EventKey)
  }

  ghost predicate ValidState(s: State) {
    WithinBounds(s) && KeysUnique(s)
  }
}
