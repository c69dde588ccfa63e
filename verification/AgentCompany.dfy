/** The records of src/agent-company/operational-agent-company.ts, the workday clauses of
    operational-agent-company-validator.ts, and the four rewrites of
    operational-agent-company-service.ts.

    Executor outputs are abstract: `Output` keeps what gates and validator look at.  Fingerprints
    are functions of what they cover and are left out. */
module AgentCompany {
  import opened Collections

  datatype Agent =
    | OnlywayAssistant
    | ResearchAgent
    | BusinessAgent
    | ContentDirector
    | ContentProducer
    | SalesAgent
    | CustomerDeliveryAgent
    | KnowledgeCurator
    | DeveloperAgent
    | FinanceCostAnalyst
    | LegalRiskReviewer
    | QualityGuardian
    | RiskGuardian
    | CostGuardian
    | SecurityGuardian
    | BackupGuardian
    | PublisherAgent

  /** What an executor throws.  Only the repository's own two errors tell their message. */
  datatype Failure = ConflictError(message: string) | ValidationError(message: string) | OtherError

  /** Identifiers the validator accepts, the order of execution, the dependency graph, and what the
      executors throw that always do. */
  datatype Company = Company(
    ids: seq<Agent>, catalog: seq<Agent>, dependencies: map<Agent, seq<Agent>>, failing: map<Agent, Failure>)

  predicate NoDuplicates(agents: seq<Agent>) {
    forall i, j :: 0 <= i < j < |agents| ==> agents[i] != agents[j]
  }

  predicate WellFormed(co: Company) {
    && NoDuplicates(co.catalog) && |co.ids| == |co.catalog|
    && (forall a :: a in co.catalog ==> a in co.ids && a in co.dependencies)
    && (forall a :: a in co.catalog ==>
          |co.dependencies[a]| <= 20 && forall d :: d in co.dependencies[a] ==> d in co.catalog)
  }

  /** The dependencies of the agent at `i` come before it. */
  predicate DependenciesFirst(order: seq<Agent>, dependencies: map<Agent, seq<Agent>>, i: nat)
    requires i < |order|
  {
    order[i] in dependencies ==> forall d :: d in dependencies[order[i]] ==> d in order[..i]
  }

  /** Every dependency comes earlier. */
  predicate Topological(order: seq<Agent>, dependencies: map<Agent, seq<Agent>>) {
    forall i :: 0 <= i < |order| ==> DependenciesFirst(order, dependencies, i)
  }

  // ------------------------------------------------------------------- work items

  datatype Status = Queued | Running | Completed | Blocked

  datatype Finding =
    | MissingOutput
    | UnverifiedImplementation
    | DossierBlocked
    | ContentBlocked
    | ExternalEffect
    | OverBudget
    | Message(text: string)

  datatype GateName = Quality | Risk | Cost

  datatype Gate = Gate(name: GateName, findings: seq<Finding>, score: int, passed: bool)

  datatype Output = Output(
    id: nat, keys: nat, bytes: nat, blocked: bool, implementationDenied: bool, externalEffect: bool, costCents: int)

  datatype Blocker =
    | DependencyNotCompleted(incomplete: seq<Agent>)
    | GateBlocked(gate: GateName, evidence: seq<Finding>)
    | ExecutorOutputUnverified
    | BackupRestoreReceiptRequired

  datatype Task = Task(
    agent: Agent,
    dependencies: seq<Agent>,
    status: Status,
    attempts: nat,
    durationMs: int,
    startedAt: Option<int>,
    completedAt: Option<int>,
    gates: seq<Gate>,
    output: Option<Output>,
    blocker: Option<Blocker>)

  datatype DayStatus = DayRunning | DayBlocked | AwaitingFabio

  datatype Workday = Workday(input: nat, status: DayStatus, tasks: seq<Task>, version: nat)

  // ------------------------------------------------------------------- validator

  predicate Blank(s: string) {
    forall i :: 0 <= i < |s| ==> s[i] in " \t\r\n"
  }

  predicate FindingOk(f: Finding) {
    f.Message? ==> !Blank(f.text) && |f.text| <= 4_000
  }

  predicate GatesOk(gs: seq<Gate>) {
    && |gs| == 3
    && (forall i, j :: 0 <= i < j < 3 ==> gs[i].name != gs[j].name)
    && (forall g :: g in gs ==>
          0 <= g.score <= 100 && |g.findings| <= 30 && forall f :: f in g.findings ==> FindingOk(f))
  }

  predicate BlockerOk(b: Blocker) {
    match b
    case DependencyNotCompleted(incomplete) => 1 <= |incomplete| <= 20
    case GateBlocked(_, evidence) => 1 <= |evidence| <= 20 && forall f :: f in evidence ==> FindingOk(f)
    case _ => true
  }

  const MAX_WORK_ITEM_OUTPUT_BYTES: nat := 65_536

  /** The work-item clauses of `AgentCompanyWorkdayValidator`. */
  predicate TaskOk(co: Company, t: Task) {
    && t.agent in co.ids && t.attempts <= 100 && 0 <= t.durationMs <= 86_400_000
    && (forall d :: d in t.dependencies ==> d in co.ids)
    && match t.status
       case Completed =>
         && GatesOk(t.gates)
         && t.output.Some? && t.output.value.bytes <= MAX_WORK_ITEM_OUTPUT_BYTES
         && t.startedAt.Some? && t.completedAt.Some? && t.blocker.None?
       case Blocked =>
         && GatesOk(t.gates)
         && t.blocker.Some? && BlockerOk(t.blocker.value) && t.startedAt.Some? && t.completedAt.Some?
       case _ => t.gates == [] && t.output.None? && t.completedAt.None? && t.blocker.None?
  }

  /** The clauses of `AgentCompanyWorkdayValidator` the runner is responsible for. */
  predicate RecordOk(co: Company, w: Workday) {
    && |w.tasks| == |co.ids|
    && (forall i, j :: 0 <= i < j < |w.tasks| ==> w.tasks[i].agent != w.tasks[j].agent)
    && (forall t :: t in w.tasks ==> TaskOk(co, t))
    && (w.status.AwaitingFabio? ==> forall t :: t in w.tasks ==> t.status.Completed?)
    && (w.status.DayBlocked? ==> exists t :: t in w.tasks && t.status.Blocked?)
  }

  // ------------------------------------------------------------------- gates and blockers

  function MakeGate(name: GateName, findings: seq<Finding>): Gate {
    Gate(name, findings, if findings == [] then 100 else 0, findings == [])
  }

  /** `#gates`. */
  function Gates(agent: Agent, output: Output, maxBudgetCents: int): seq<Gate> {
    var quality :=
      (if output.keys == 0 then [MissingOutput] else [])
      + (if agent.DeveloperAgent? && !output.implementationDenied then [UnverifiedImplementation] else [])
      + (if agent.BusinessAgent? && output.blocked then [DossierBlocked] else [])
      + (if agent.ContentProducer? && output.blocked then [ContentBlocked] else []);
    var risk := if output.externalEffect then [ExternalEffect] else [];
    var cost := if output.costCents > maxBudgetCents then [OverBudget] else [];
    [MakeGate(Quality, quality), MakeGate(Risk, risk), MakeGate(Cost, cost)]
  }

  function FirstBlockedGate(gates: seq<Gate>): Option<Gate> {
    Find(gates, (g: Gate) => !g.passed)
  }

  const UNFINISHED := "L'executor non ha completato il task in modo verificabile."

  /** `safeBlocker`. */
  function SafeBlocker(error: Failure): string {
    match error
    case ConflictError(message) => message
    case ValidationError(message) => message
    case OtherError => UNFINISHED
  }

  /** `blockedGates`. */
  function BlockedGates(error: Failure): seq<Gate> {
    [MakeGate(Quality, [Message(SafeBlocker(error))]), MakeGate(Risk, []), MakeGate(Cost, [])]
  }

  /** `executorBlocker`. */
  function ExecutorBlocker(error: Failure): Blocker {
    if error.ConflictError? && error.message == "BACKUP_RESTORE_RECEIPT_REQUIRED" then BackupRestoreReceiptRequired
    else ExecutorOutputUnverified
  }

  /** `elapsed`. */
  function Elapsed(start: int, end: int): int {
    if end < start then 0 else end - start
  }

  // ------------------------------------------------------------------- rewrites of a record

  function TaskOf(w: Workday, agent: Agent): Option<Task> {
    Find(w.tasks, (t: Task) => t.agent == agent)
  }

  predicate IsCompleted(w: Workday, agent: Agent) {
    var t := TaskOf(w, agent);
    t.Some? && t.value.status.Completed?
  }

  function Incomplete(w: Workday, dependencies: seq<Agent>): seq<Agent> {
    Filter(dependencies, (d: Agent) => !IsCompleted(w, d))
  }

  function Initial(co: Company, input: nat): Workday
    requires WellFormed(co)
  {
    Workday(input, DayRunning,
            seq(|co.catalog|, i requires 0 <= i < |co.catalog| =>
              Task(co.catalog[i], co.dependencies[co.catalog[i]], Queued, 0, 0, None, None, [], None, None)),
            0)
  }

  function StartTask(t: Task, now: int): Task {
    t.(attempts := t.attempts + 1, gates := [], startedAt := Some(now), status := Running)
  }

  function CompleteTask(t: Task, output: Output, gates: seq<Gate>, durationMs: int, now: int): Task {
    t.(completedAt := Some(now), durationMs := durationMs, gates := gates, output := Some(output), status := Completed)
  }

  function BlockTask(t: Task, blocker: Blocker, gates: seq<Gate>, durationMs: int, now: int): Task {
    t.(blocker := Some(blocker), completedAt := Some(now), durationMs := durationMs, gates := gates, status := Blocked)
  }

  function MarkRunning(w: Workday, agent: Agent, now: int): Workday {
    w.(status := DayRunning,
       tasks := seq(|w.tasks|, i requires 0 <= i < |w.tasks| =>
         if w.tasks[i].agent == agent then StartTask(w.tasks[i], now) else w.tasks[i]),
       version := w.version + 1)
  }

  function Complete(w: Workday, agent: Agent, output: Output, gates: seq<Gate>, durationMs: int, now: int): Workday {
    w.(tasks := seq(|w.tasks|, i requires 0 <= i < |w.tasks| =>
         if w.tasks[i].agent == agent then CompleteTask(w.tasks[i], output, gates, durationMs, now) else w.tasks[i]),
       version := w.version + 1)
  }

  function Block(w: Workday, agent: Agent, blocker: Blocker, gates: seq<Gate>, durationMs: int, now: int): Workday {
    w.(status := DayBlocked,
       tasks := seq(|w.tasks|, i requires 0 <= i < |w.tasks| =>
         if w.tasks[i].agent == agent then BlockTask(w.tasks[i], blocker, gates, durationMs, now) else w.tasks[i]),
       version := w.version + 1)
  }

  function AwaitFabio(w: Workday): Workday {
    w.(status := AwaitingFabio, version := w.version + 1)
  }

  // ------------------------------------------------------------------- repository

  datatype Event = TaskChanged(version: nat) | ApprovalRequested(version: nat)

  datatype Store = Store(record: Option<Workday>, events: seq<Event>)

  /** `transitionAllowed` in src/persistence/sqlite/sqlite-agent-company-workday-repository.ts. */
  predicate TransitionAllowed(previous: Workday, next: Workday) {
    && previous.status.DayRunning?
    && |Changed(previous.tasks, next.tasks)| <= 1
  }

  function Changed(previous: seq<Task>, next: seq<Task>): set<nat> {
    set i | 0 <= i < |next| && (i >= |previous| || next[i] != previous[i])
  }

  /** The repository's `update`; `fits` says whether the serialised record is small enough. */
  predicate CanUpdate(co: Company, s: Store, next: Workday, expected: nat, fits: bool) {
    && fits && RecordOk(co, next)
    && s.record.Some? && s.record.value.version == expected && next.version == expected + 1
    && s.record.value.input == next.input
    && TransitionAllowed(s.record.value, next)
  }

  /** `#update` within one transaction: the record and its events, or nothing. */
  function Update(co: Company, s: Store, before: Workday, next: Workday, fits: bool): Option<Store> {
    if !CanUpdate(co, s, next, before.version, fits) then None
    else
      Some(Store(
        Some(next),
        s.events + [TaskChanged(next.version)]
        + if next.status.AwaitingFabio? && !before.status.AwaitingFabio? then [ApprovalRequested(next.version)]
          else []))
  }

  function Insert(co: Company, s: Store, initial: Workday, fits: bool): Option<Store> {
    if s.record.Some? || !fits || !RecordOk(co, initial) || initial.version != 0 then None
    else Some(Store(Some(initial), s.events + [TaskChanged(initial.version)]))
  }

  // ------------------------------------------------------------------- the real company

  const OPERATIONAL_AGENT_IDS: seq<Agent> := [
    OnlywayAssistant, ResearchAgent, BusinessAgent, ContentDirector, ContentProducer, SalesAgent,
    CustomerDeliveryAgent, KnowledgeCurator, DeveloperAgent, FinanceCostAnalyst, LegalRiskReviewer,
    QualityGuardian, RiskGuardian, CostGuardian, SecurityGuardian, BackupGuardian, PublisherAgent]

  const CATALOG: seq<Agent> := [
    OnlywayAssistant, ResearchAgent, BusinessAgent, ContentDirector, ContentProducer, SalesAgent,
    CustomerDeliveryAgent, KnowledgeCurator, DeveloperAgent, FinanceCostAnalyst, LegalRiskReviewer,
    PublisherAgent, QualityGuardian, RiskGuardian, CostGuardian, SecurityGuardian, BackupGuardian]

  function Dependencies(a: Agent): seq<Agent> {
    match a
    case OnlywayAssistant => []
    case ResearchAgent => [OnlywayAssistant]
    case BusinessAgent => [ResearchAgent]
    case ContentDirector => [BusinessAgent]
    case ContentProducer => [ContentDirector]
    case SalesAgent => [BusinessAgent]
    case CustomerDeliveryAgent => [BusinessAgent]
    case KnowledgeCurator => [ResearchAgent, BusinessAgent, ContentProducer]
    case DeveloperAgent => [OnlywayAssistant]
    case FinanceCostAnalyst => [BusinessAgent]
    case LegalRiskReviewer => [BusinessAgent, ContentProducer]
    case QualityGuardian => [BusinessAgent, ContentProducer, SalesAgent, CustomerDeliveryAgent]
    case RiskGuardian => [LegalRiskReviewer]
    case CostGuardian => [FinanceCostAnalyst]
    case SecurityGuardian => [DeveloperAgent, PublisherAgent]
    case BackupGuardian => [KnowledgeCurator]
    case PublisherAgent => [ContentProducer, LegalRiskReviewer]
  }

  const DEPENDENCIES: map<Agent, seq<Agent>> := map a | a in CATALOG :: Dependencies(a)

  const ONLYWAY := Company(
    OPERATIONAL_AGENT_IDS, CATALOG, DEPENDENCIES,
    map[BackupGuardian := ConflictError("BACKUP_RESTORE_RECEIPT_REQUIRED")])

  /** Where `CATALOG` has an agent. */
  function Position(a: Agent): (i: nat)
    ensures i < |CATALOG| && CATALOG[i] == a
  {
    match a
    case OnlywayAssistant => 0
    case ResearchAgent => 1
    case BusinessAgent => 2
    case ContentDirector => 3
    case ContentProducer => 4
    case SalesAgent => 5
    case CustomerDeliveryAgent => 6
    case KnowledgeCurator => 7
    case DeveloperAgent => 8
    case FinanceCostAnalyst => 9
    case LegalRiskReviewer => 10
    case PublisherAgent => 11
    case QualityGuardian => 12
    case RiskGuardian => 13
    case CostGuardian => 14
    case SecurityGuardian => 15
    case BackupGuardian => 16
  }

  lemma PositionOf(i: nat)
    requires i < |CATALOG|
    ensures Position(CATALOG[i]) == i
  {
  }

  lemma DependenciesComeFirst(a: Agent, d: Agent)
    requires d in Dependencies(a)
    ensures Position(d) < Position(a) && |Dependencies(a)| <= 20
  {
  }

  lemma DependenciesAreFew(a: Agent)
    ensures |Dependencies(a)| <= 20
  {
  }

  lemma EveryAgentIsListed(a: Agent)
    ensures a in OPERATIONAL_AGENT_IDS
  {
    match a {
      case OnlywayAssistant => assert OPERATIONAL_AGENT_IDS[0] == a;
      case ResearchAgent => assert OPERATIONAL_AGENT_IDS[1] == a;
      case BusinessAgent => assert OPERATIONAL_AGENT_IDS[2] == a;
      case ContentDirector => assert OPERATIONAL_AGENT_IDS[3] == a;
      case ContentProducer => assert OPERATIONAL_AGENT_IDS[4] == a;
      case SalesAgent => assert OPERATIONAL_AGENT_IDS[5] == a;
      case CustomerDeliveryAgent => assert OPERATIONAL_AGENT_IDS[6] == a;
      case KnowledgeCurator => assert OPERATIONAL_AGENT_IDS[7] == a;
      case DeveloperAgent => assert OPERATIONAL_AGENT_IDS[8] == a;
      case FinanceCostAnalyst => assert OPERATIONAL_AGENT_IDS[9] == a;
      case LegalRiskReviewer => assert OPERATIONAL_AGENT_IDS[10] == a;
      case QualityGuardian => assert OPERATIONAL_AGENT_IDS[11] == a;
      case RiskGuardian => assert OPERATIONAL_AGENT_IDS[12] == a;
      case CostGuardian => assert OPERATIONAL_AGENT_IDS[13] == a;
      case SecurityGuardian => assert OPERATIONAL_AGENT_IDS[14] == a;
      case BackupGuardian => assert OPERATIONAL_AGENT_IDS[15] == a;
      case PublisherAgent => assert OPERATIONAL_AGENT_IDS[16] == a;
    }
  }

  lemma CatalogHasNoDuplicates()
    ensures NoDuplicates(CATALOG)
  {
    hide Position;
    forall i, j | 0 <= i < j < |CATALOG|
      ensures CATALOG[i] != CATALOG[j]
    {
      PositionOf(i);
      PositionOf(j);
    }
  }

  lemma OnlywayIsWellFormed()
    ensures WellFormed(ONLYWAY)
  {
    hide Dependencies, Position, NoDuplicates;
    CatalogHasNoDuplicates();
    forall a | a in CATALOG
      ensures a in OPERATIONAL_AGENT_IDS && |Dependencies(a)| <= 20
      ensures forall d :: d in Dependencies(a) ==> d in CATALOG
    {
      EveryAgentIsListed(a);
      DependenciesAreFew(a);
      forall d | d in Dependencies(a)
        ensures d in CATALOG
      {
        assert CATALOG[Position(d)] == d;
      }
    }
  }

  /** The catalogue is an order in which every dependency comes first. */
  lemma CatalogIsTopological()
    ensures Topological(CATALOG, DEPENDENCIES)
  {
    hide Dependencies, Position;
    forall i | 0 <= i < |CATALOG|
      ensures DependenciesFirst(CATALOG, DEPENDENCIES, i)
    {
      forall d | d in Dependencies(CATALOG[i])
        ensures d in CATALOG[..i]
      {
        DependenciesComeFirst(CATALOG[i], d);
        PositionOf(i);
        assert CATALOG[..i][Position(d)] == d;
      }
    }
  }

  /** The identifier list is not: it puts the publisher after the security guardian. */
  lemma IdentifierListIsNotTopological()
    ensures !Topological(OPERATIONAL_AGENT_IDS, DEPENDENCIES)
  {
    assert OPERATIONAL_AGENT_IDS[14] == SecurityGuardian;
    assert CATALOG[15] == SecurityGuardian && Dependencies(SecurityGuardian)[1] == PublisherAgent;
    assert PublisherAgent !in OPERATIONAL_AGENT_IDS[..14];
    assert !DependenciesFirst(OPERATIONAL_AGENT_IDS, DEPENDENCIES, 14);
  }
}
