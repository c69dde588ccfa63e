/** src/assistants/deterministic-guardian-consultation.ts: how a request, its operations and an
    operator-safety report become a consultation decision.  Reasons and warnings are left out; the
    lists that decide something, or that a delegation decision copies, are kept. */
module GuardianConsultation {
  import opened Collections

  datatype Operation =
    | CloudOrVpsReadiness
    | ExternalSideEffect
    | IncreaseAutonomy
    | MemoryWrite
    | ModelExpansion
    | PublishOrSend
    | ToolExecution
    | WorkflowExecution

  datatype Domain = OperatorSafety | CostDomain | SecurityDomain | BackupDomain | IncidentDomain | QualityDomain

  const SAFETY_DOMAIN_ORDER: seq<Domain> := [
    OperatorSafety, CostDomain, SecurityDomain, BackupDomain, IncidentDomain, QualityDomain]

  datatype RiskLevel = Normal | Sensitive | Risky

  datatype Kind = MayContinue | ContinueWithWarning | RequiresApproval | RequiresOperatorConfirmation | Blocked

  datatype SafetyStatus = Healthy | AttentionRequired | Critical | UnknownStatus

  datatype Autonomy = SafeToContinue | ContinueWithAttention | DoNotIncreaseAutonomy | UnknownAutonomy

  datatype Report = Report(
    status: SafetyStatus, autonomy: Autonomy, includedGuardians: seq<Domain>, criticalDomains: seq<Domain>)

  datatype Approval = Approval(approvalId: string, operation: Operation)

  datatype SafetyRequirement = SafetyRequirement(operation: Operation, requiredDomains: seq<Domain>)

  datatype Policy = Policy(
    attentionRequiresAcknowledgement: bool,
    blockCriticalEscalation: bool,
    blockRiskyWhenSafetyMissing: bool,
    blockRiskyWhenSafetyUnknown: bool,
    requiredApprovals: seq<Approval>,
    safetyRequirements: seq<SafetyRequirement>)

  datatype Request = Request(operations: seq<Operation>, risk: RiskLevel, report: Option<Report>)

  /** The evaluator's own sentences, and any other that a supplied decision says. */
  datatype Blocker =
    | ReportRequired
    | CriticalSafety
    | CriticalDomain(domain: Domain)
    | SafetyUnknown
    | MissingDomain(domain: Domain)
    | Said(text: string)

  datatype Advice =
    | SupplyReport
    | ResolveCritical
    | ProvideCoverage
    | AcknowledgeWarnings
    | StayBounded
    | CollectApproval
    | ContinueBounded
    | Advised(text: string)

  datatype Decision = Decision(
    kind: Kind,
    acknowledgementRequired: bool,
    approvalRequired: bool,
    blockers: seq<Blocker>,
    advice: seq<Advice>,              // `recommendedNextActions`
    checkedDomains: seq<Domain>,
    missingDomains: seq<Domain>,
    status: Option<SafetyStatus>,     // None: missing
    autonomy: Option<Autonomy>,       // None: missing
    requiredApprovals: seq<Approval>)

  lemma EveryDomainIsOrdered(d: Domain)
    ensures d in SAFETY_DOMAIN_ORDER
  {
    match d {
      case OperatorSafety => assert SAFETY_DOMAIN_ORDER[0] == d;
      case CostDomain => assert SAFETY_DOMAIN_ORDER[1] == d;
      case SecurityDomain => assert SAFETY_DOMAIN_ORDER[2] == d;
      case BackupDomain => assert SAFETY_DOMAIN_ORDER[3] == d;
      case IncidentDomain => assert SAFETY_DOMAIN_ORDER[4] == d;
      case QualityDomain => assert SAFETY_DOMAIN_ORDER[5] == d;
    }
  }

  predicate IsRisky(r: Request) {
    r.risk != Normal || r.operations != []
  }

  /** `sortSafetyDomains` of what the report covers: the fixed order, without duplicates. */
  function CheckedDomains(report: Option<Report>): seq<Domain> {
    if report.None? then []
    else
      var included := report.value.includedGuardians;
      Filter(SAFETY_DOMAIN_ORDER, (d: Domain) => d.OperatorSafety? || d in included)
  }

  predicate NeedsDomain(r: Request, policy: Policy, d: Domain) {
    || (d.OperatorSafety? && IsRisky(r))
    || exists q :: q in policy.safetyRequirements && q.operation in r.operations && d in q.requiredDomains
  }

  /** `requiredSafetyDomains`, again in the fixed order. */
  function RequiredDomains(r: Request, policy: Policy): seq<Domain> {
    Filter(SAFETY_DOMAIN_ORDER, (d: Domain) => NeedsDomain(r, policy, d))
  }

  function MissingDomains(r: Request, policy: Policy): seq<Domain> {
    var checked := CheckedDomains(r.report);
    Filter(RequiredDomains(r, policy), (d: Domain) => d !in checked)
  }

  function RequiredApprovals(r: Request, policy: Policy): seq<Approval> {
    Filter(policy.requiredApprovals, (a: Approval) => a.operation in r.operations)
  }

  function Each(domains: seq<Domain>, critical: bool): seq<Blocker> {
    seq(|domains|, i requires 0 <= i < |domains| =>
      if critical then CriticalDomain(domains[i]) else MissingDomain(domains[i]))
  }

  /** What the branches of `buildDecision` choose. */
  datatype Choice = Choice(kind: Kind, acknowledgement: bool, blockers: seq<Blocker>, advice: Advice)

  function Choose(r: Request, policy: Policy): Choice {
    var risky := IsRisky(r);
    if r.report.None? then
      if risky && policy.blockRiskyWhenSafetyMissing then Choice(Blocked, false, [ReportRequired], SupplyReport)
      else Choice(RequiresOperatorConfirmation, true, [], SupplyReport)
    else
      var report := r.report.value;
      if report.autonomy.DoNotIncreaseAutonomy? || report.status.Critical? then
        if risky && policy.blockCriticalEscalation then
          Choice(Blocked, false, [CriticalSafety] + Each(report.criticalDomains, true), ResolveCritical)
        else Choice(ContinueWithWarning, true, [], ResolveCritical)
      else if report.autonomy.UnknownAutonomy? || report.status.UnknownStatus? || MissingDomains(r, policy) != [] then
        if risky && policy.blockRiskyWhenSafetyUnknown then
          Choice(Blocked, false, [SafetyUnknown] + Each(MissingDomains(r, policy), false), ProvideCoverage)
        else Choice(RequiresOperatorConfirmation, true, [], ProvideCoverage)
      else if report.status.AttentionRequired? then
        if risky && policy.attentionRequiresAcknowledgement then
          Choice(RequiresOperatorConfirmation, true, [], AcknowledgeWarnings)
        else if RequiredApprovals(r, policy) != [] then Choice(RequiresApproval, false, [], StayBounded)
        else Choice(ContinueWithWarning, false, [], StayBounded)
      else if RequiredApprovals(r, policy) != [] then Choice(RequiresApproval, false, [], CollectApproval)
      else Choice(MayContinue, false, [], ContinueBounded)
  }

  /** `buildDecision`. */
  function Evaluate(r: Request, policy: Policy): Decision {
    var c, approvals := Choose(r, policy), RequiredApprovals(r, policy);
    Decision(
      c.kind, c.acknowledgement, approvals != [], c.blockers, [c.advice], CheckedDomains(r.report),
      MissingDomains(r, policy),
      if r.report.None? then None else Some(r.report.value.status),
      if r.report.None? then None else Some(r.report.value.autonomy),
      approvals)
  }

  // ------------------------------------------------------------------- what decides the kind

  /** The kind of a decision depends on four observations of the request alone. */
  function KindFor(report: Option<Report>, risky: bool, missing: bool, approvals: bool, policy: Policy): Kind {
    if report.None? then if risky && policy.blockRiskyWhenSafetyMissing then Blocked else RequiresOperatorConfirmation
    else if report.value.autonomy.DoNotIncreaseAutonomy? || report.value.status.Critical? then
      if risky && policy.blockCriticalEscalation then Blocked else ContinueWithWarning
    else if report.value.autonomy.UnknownAutonomy? || report.value.status.UnknownStatus? || missing then
      if risky && policy.blockRiskyWhenSafetyUnknown then Blocked else RequiresOperatorConfirmation
    else if report.value.status.AttentionRequired? && risky && policy.attentionRequiresAcknowledgement then
      RequiresOperatorConfirmation
    else if approvals then RequiresApproval
    else if report.value.status.AttentionRequired? then ContinueWithWarning
    else MayContinue
  }

  function KindOf(r: Request, policy: Policy): Kind {
    KindFor(r.report, IsRisky(r), MissingDomains(r, policy) != [], RequiredApprovals(r, policy) != [], policy)
  }

  /** Every decision is the one its kind calls for; a blocked one always says why, and nothing
      else has blockers, which is what the delegation policy relies on when it hands them on. */
  lemma EvaluateFacts(r: Request, policy: Policy)
    ensures
      var d := Evaluate(r, policy);
      && d.kind == KindOf(r, policy)
      && (d.kind.Blocked? <==> d.blockers != [])
      && (d.acknowledgementRequired ==> d.kind.RequiresOperatorConfirmation? || d.kind.ContinueWithWarning?)
      && d.requiredApprovals == RequiredApprovals(r, policy) && d.missingDomains == MissingDomains(r, policy)
      && d.checkedDomains == CheckedDomains(r.report)
      && (d.status.None? <==> r.report.None?) && (d.autonomy.None? <==> r.report.None?)
      && d.approvalRequired == (d.requiredApprovals != [])
  {
    hide RequiredApprovals, MissingDomains, CheckedDomains, IsRisky, Each;
  }

  // ------------------------------------------------------------------- monotonicity

  /** How much a decision asks before going on. */
  function Strictness(k: Kind): nat {
    match k
    case MayContinue => 0
    case ContinueWithWarning => 1
    case RequiresApproval => 2
    case RequiresOperatorConfirmation => 3
    case Blocked => 4
  }

  function RiskRank(r: RiskLevel): nat {
    match r
    case Normal => 0
    case Sensitive => 1
    case Risky => 2
  }

  /** `q` asks for at least the operations of `r`, at no lower risk, under the same report. */
  predicate AsksMore(r: Request, q: Request) {
    && r.report == q.report && RiskRank(r.risk) <= RiskRank(q.risk)
    && forall o :: o in r.operations ==> o in q.operations
  }

  lemma RiskierAsksMore(r: Request, q: Request)
    requires AsksMore(r, q) && IsRisky(r)
    ensures IsRisky(q)
  {
    if r.operations != [] {
      assert r.operations[0] in r.operations;
    }
  }

  lemma ApprovalsGrow(r: Request, q: Request, policy: Policy)
    requires AsksMore(r, q)
    ensures forall a :: a in RequiredApprovals(r, policy) ==> a in RequiredApprovals(q, policy)
    ensures RequiredApprovals(r, policy) != [] ==> RequiredApprovals(q, policy) != []
  {
    if RequiredApprovals(r, policy) != [] {
      assert RequiredApprovals(r, policy)[0] in RequiredApprovals(r, policy);
    }
  }

  lemma DomainMissing(r: Request, policy: Policy, d: Domain)
    ensures d in MissingDomains(r, policy) <==> NeedsDomain(r, policy, d) && d !in CheckedDomains(r.report)
  {
    EveryDomainIsOrdered(d);
  }

  lemma MissingGrow(r: Request, q: Request, policy: Policy)
    requires AsksMore(r, q)
    ensures forall d :: d in MissingDomains(r, policy) ==> d in MissingDomains(q, policy)
    ensures MissingDomains(r, policy) != [] ==> MissingDomains(q, policy) != []
  {
    forall d | d in MissingDomains(r, policy)
      ensures d in MissingDomains(q, policy)
    {
      DomainMissing(r, policy, d);
      DomainMissing(q, policy, d);
      if IsRisky(r) {
        RiskierAsksMore(r, q);
      }
    }
    if MissingDomains(r, policy) != [] {
      assert MissingDomains(r, policy)[0] in MissingDomains(q, policy);
    }
  }

  lemma KindIsMonotone(
      report: Option<Report>, policy: Policy, risky: bool, missing: bool, approvals: bool, risky': bool, missing': bool,
      approvals': bool)
    requires (risky ==> risky') && (missing ==> missing') && (approvals ==> approvals')
    ensures Strictness(KindFor(report, risky, missing, approvals, policy))
            <= Strictness(KindFor(report, risky', missing', approvals', policy))
  {
  }

  /** Under any policy, asking for more operations or at a higher risk never makes the decision
      more permissive, and never drops a missing domain or a required approval. */
  lemma AskingMoreIsStricter(r: Request, q: Request, policy: Policy)
    requires AsksMore(r, q)
    ensures Strictness(Evaluate(r, policy).kind) <= Strictness(Evaluate(q, policy).kind)
    ensures forall a :: a in Evaluate(r, policy).requiredApprovals ==> a in Evaluate(q, policy).requiredApprovals
    ensures forall d :: d in Evaluate(r, policy).missingDomains ==> d in Evaluate(q, policy).missingDomains
  {
    hide RequiredApprovals, MissingDomains, Evaluate, Strictness, KindFor, CheckedDomains;
    ApprovalsGrow(r, q, policy);
    MissingGrow(r, q, policy);
    if IsRisky(r) {
      RiskierAsksMore(r, q);
    }
    EvaluateFacts(r, policy);
    EvaluateFacts(q, policy);
    KindIsMonotone(r.report, policy, IsRisky(r), MissingDomains(r, policy) != [], RequiredApprovals(r, policy) != [],
                   IsRisky(q), MissingDomains(q, policy) != [], RequiredApprovals(q, policy) != []);
  }

  // ------------------------------------------------------------------- told by the lists it is given

  predicate CalledFor(r: Request, policy: Policy, d: Domain) {
    || (d.OperatorSafety? && (r.risk != Normal || r.operations != []))
    || exists q, o ::
         q in policy.safetyRequirements && o in r.operations && q.operation == o && d in q.requiredDomains
  }

  /** Nothing in the report covers `d`; every report covers operator safety. */
  predicate Uncovered(report: Option<Report>, d: Domain) {
    report.None? || (!d.OperatorSafety? && d !in report.value.includedGuardians)
  }

  lemma MissingMembers(r: Request, policy: Policy, d: Domain)
    ensures d in MissingDomains(r, policy) <==> CalledFor(r, policy, d) && Uncovered(r.report, d)
  {
    EveryDomainIsOrdered(d);
    DomainMissing(r, policy, d);
  }

  /** A domain is missing exactly when the risk or a requirement for an operation asked for calls for
      it and the report does not cover it. */
  lemma MissingExactly(r: Request, policy: Policy, d: Domain)
    ensures d in Evaluate(r, policy).missingDomains <==> CalledFor(r, policy, d) && Uncovered(r.report, d)
  {
    MissingMembers(r, policy, d);
    hide RequiredApprovals, Choose, MissingDomains, CalledFor, Uncovered;
  }

  /** And covered exactly when the report, if there is one, includes it or it is operator safety. */
  lemma CheckedExactly(r: Request, policy: Policy, d: Domain)
    ensures d in Evaluate(r, policy).checkedDomains <==> !Uncovered(r.report, d)
  {
    hide RequiredApprovals, MissingDomains, Choose;
    EveryDomainIsOrdered(d);
  }

  /** An approval is required exactly when the policy lists it for an operation asked for. */
  lemma ApprovalsExactly(r: Request, policy: Policy, a: Approval)
    ensures a in Evaluate(r, policy).requiredApprovals <==> a in policy.requiredApprovals && a.operation in r.operations
  {
    hide MissingDomains, CheckedDomains, Choose;
  }

  function PlaceOf(d: Domain): nat {
    match d
    case OperatorSafety => 0
    case CostDomain => 1
    case SecurityDomain => 2
    case BackupDomain => 3
    case IncidentDomain => 4
    case QualityDomain => 5
  }

  predicate Ascending(domains: seq<Domain>) {
    forall i, j :: 0 <= i < j < |domains| ==> PlaceOf(domains[i]) < PlaceOf(domains[j])
  }

  lemma {:induction false} FilterAscends(domains: seq<Domain>, p: Domain -> bool)
    requires Ascending(domains)
    ensures Ascending(Filter(domains, p))
  {
    if domains != [] {
      var rest := domains[1..];
      assert forall i :: 0 <= i < |rest| ==> rest[i] == domains[i + 1];
      FilterAscends(rest, p);
      forall d | d in Filter(rest, p)
        ensures PlaceOf(domains[0]) < PlaceOf(d)
      {
        var k :| 0 <= k < |rest| && rest[k] == d;
        assert domains[k + 1] == d;
      }
    }
  }

  /** Whatever order policy and report list them in, both lists of domains come out in the fixed order,
      each domain once. */
  lemma DomainsAreSorted(r: Request, policy: Policy)
    ensures Ascending(Evaluate(r, policy).checkedDomains) && Ascending(Evaluate(r, policy).missingDomains)
  {
    hide Choose, RequiredApprovals, PlaceOf, Filter;
    OrderAscends();
    var checked := CheckedDomains(r.report);
    if r.report.Some? {
      FilterAscends(SAFETY_DOMAIN_ORDER, (d: Domain) => d.OperatorSafety? || d in r.report.value.includedGuardians);
    }
    FilterAscends(SAFETY_DOMAIN_ORDER, (d: Domain) => NeedsDomain(r, policy, d));
    FilterAscends(RequiredDomains(r, policy), (d: Domain) => d !in checked);
  }

  lemma OrderAscends()
    ensures Ascending(SAFETY_DOMAIN_ORDER)
  {
  }

  predicate IsCritical(report: Report) {
    report.autonomy.DoNotIncreaseAutonomy? || report.status.Critical?
  }

  /** The report leaves the state of some domain the request needs open. */
  predicate IsDoubtful(r: Request, policy: Policy)
    requires r.report.Some?
  {
    || r.report.value.autonomy.UnknownAutonomy? || r.report.value.status.UnknownStatus?
    || exists d :: CalledFor(r, policy, d) && Uncovered(r.report, d)
  }

  predicate NeedsApproval(r: Request, policy: Policy) {
    exists a :: a in policy.requiredApprovals && a.operation in r.operations
  }

  /** The request is more than normal conversation, and the policy stops such under this report. */
  predicate IsStopped(r: Request, policy: Policy) {
    && (r.risk != Normal || r.operations != [])
    && if r.report.None? then policy.blockRiskyWhenSafetyMissing
       else if IsCritical(r.report.value) then policy.blockCriticalEscalation
       else IsDoubtful(r, policy) && policy.blockRiskyWhenSafetyUnknown
  }

  /** It is not stopped, but Fabio is asked: the report is missing, leaves something open, or asks for
      attention that the policy wants acknowledged. */
  predicate IsAsked(r: Request, policy: Policy) {
    && !IsStopped(r, policy)
    && (r.report.Some? ==>
          && !IsCritical(r.report.value)
          && (|| IsDoubtful(r, policy)
              || (&& r.report.value.status.AttentionRequired? && policy.attentionRequiresAcknowledgement
                  && (r.risk != Normal || r.operations != []))))
  }

  /** What decides each kind of decision, told by the request, the policy and the report alone. */
  lemma DecidedExactly(r: Request, policy: Policy)
    ensures
      var d := Evaluate(r, policy);
      && (d.kind.Blocked? <==> IsStopped(r, policy))
      && (d.kind.RequiresOperatorConfirmation? <==> IsAsked(r, policy))
      && (d.kind.RequiresApproval? <==>
            && !IsStopped(r, policy) && !IsAsked(r, policy) && !IsCritical(r.report.value) && NeedsApproval(r, policy))
      && (d.kind.MayContinue? <==>
            && r.report.Some? && r.report.value.status.Healthy? && !IsCritical(r.report.value)
            && !IsDoubtful(r, policy) && !NeedsApproval(r, policy))
      && (d.acknowledgementRequired <==>
            IsAsked(r, policy) || (!IsStopped(r, policy) && r.report.Some? && IsCritical(r.report.value)))
      && (d.approvalRequired <==> NeedsApproval(r, policy))
      && d.status == (if r.report.Some? then Some(r.report.value.status) else None)
      && d.autonomy == (if r.report.Some? then Some(r.report.value.autonomy) else None)
  {
    SomethingMissing(r, policy);
    SomethingApproved(r, policy);
    hide RequiredApprovals, MissingDomains, CheckedDomains, Each, CalledFor, Uncovered, NeedsApproval;
  }

  lemma SomethingMissing(r: Request, policy: Policy)
    ensures MissingDomains(r, policy) != [] <==> exists d :: CalledFor(r, policy, d) && Uncovered(r.report, d)
  {
    hide CalledFor, Uncovered, RequiredApprovals, Choose, MissingDomains;
    HasMember(MissingDomains(r, policy));
    forall d
      ensures d in MissingDomains(r, policy) <==> CalledFor(r, policy, d) && Uncovered(r.report, d)
    {
      MissingMembers(r, policy, d);
    }
  }

  lemma SomethingApproved(r: Request, policy: Policy)
    ensures RequiredApprovals(r, policy) != [] <==> NeedsApproval(r, policy)
  {
    HasMember(RequiredApprovals(r, policy));
  }

  /** A domain the policy requires for an operation asked for, and which the report does not include,
      stops the request: under a report that is neither critical nor unknown it is blocked, or waits for
      Fabio where the policy does not block. */
  lemma UncoveredDomainStops(r: Request, policy: Policy, q: SafetyRequirement, d: Domain)
    requires r.report.Some? && !IsCritical(r.report.value)
    requires q in policy.safetyRequirements && q.operation in r.operations && d in q.requiredDomains
    requires !d.OperatorSafety? && d !in r.report.value.includedGuardians
    ensures d in Evaluate(r, policy).missingDomains
    ensures Evaluate(r, policy).kind == if policy.blockRiskyWhenSafetyUnknown then Blocked
                                        else RequiresOperatorConfirmation
  {
    assert CalledFor(r, policy, d) && Uncovered(r.report, d);
    MissingExactly(r, policy, d);
    DecidedExactly(r, policy);
    hide Evaluate;
  }

  /** What a blocked decision says: that there is no report, or each critical domain of the report, or
      each domain missing. */
  lemma BlockersExactly(r: Request, policy: Policy, b: Blocker)
    ensures
      b in Evaluate(r, policy).blockers <==>
        && IsStopped(r, policy)
        && if r.report.None? then b == ReportRequired
           else if IsCritical(r.report.value) then
             b == CriticalSafety || (b.CriticalDomain? && b.domain in r.report.value.criticalDomains)
           else
             || b == SafetyUnknown
             || (b.MissingDomain? && CalledFor(r, policy, b.domain) && Uncovered(r.report, b.domain))
  {
    BlockersAre(r, policy);
    hide *;
    if IsStopped(r, policy) && r.report.Some? {
      if IsCritical(r.report.value) {
        EachOf(r.report.value.criticalDomains, true, b);
      } else {
        EachOf(MissingDomains(r, policy), false, b);
        if b.MissingDomain? {
          MissingMembers(r, policy, b.domain);
        }
      }
    }
  }

  lemma BlockersAre(r: Request, policy: Policy)
    ensures Evaluate(r, policy).blockers
            == if !IsStopped(r, policy) then []
               else if r.report.None? then [ReportRequired]
               else if IsCritical(r.report.value) then [CriticalSafety] + Each(r.report.value.criticalDomains, true)
               else [SafetyUnknown] + Each(MissingDomains(r, policy), false)
  {
    SomethingMissing(r, policy);
    hide RequiredApprovals, MissingDomains, CheckedDomains, Each, CalledFor, Uncovered;
  }

  lemma EachOf(domains: seq<Domain>, critical: bool, b: Blocker)
    ensures b in Each(domains, critical) <==>
              if critical then b.CriticalDomain? && b.domain in domains else b.MissingDomain? && b.domain in domains
  {
    var each := Each(domains, critical);
    if b in each {
      var i :| 0 <= i < |each| && each[i] == b;
      assert domains[i] in domains;
    }
    if (if critical then b.CriticalDomain? else b.MissingDomain?) && b.domain in domains {
      var i :| 0 <= i < |domains| && domains[i] == b.domain;
      assert each[i] == b;
    }
  }
}
