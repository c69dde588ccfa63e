/** src/assistants/guardian-consultation-validator.ts, and the report clauses of
    src/guardians/operator-safety-report-validator.ts that bear on it: which policies, requests and
    decisions the consultation accepts.  The evaluator's own sentences pass as they stand. */
module GuardianAcceptance {
  import opened Collections
  import opened GuardianConsultation
  import opened Redaction

  predicate BlockerAccepted(b: Blocker) {
    b.Said? ==> GuardianText(b.text)
  }

  predicate AdviceAccepted(a: Advice) {
    a.Advised? ==> GuardianText(a.text)
  }

  predicate ApprovalsAccepted(approvals: seq<Approval>) {
    NoRepeats(approvals) && forall a :: a in approvals ==> GuardianId(a.approvalId)
  }

  /** `GuardianConsultationPolicyValidator`. */
  predicate PolicyAccepted(p: Policy) {
    && ApprovalsAccepted(p.requiredApprovals)
    && (forall q :: q in p.safetyRequirements ==> q.requiredDomains != [] && NoRepeats(q.requiredDomains))
    && (forall i, j :: 0 <= i < j < |p.safetyRequirements| ==>
          p.safetyRequirements[i].operation != p.safetyRequirements[j].operation)
  }

  predicate ReportAccepted(r: Report) {
    && NoRepeats(r.includedGuardians) && NoRepeats(r.criticalDomains)
    && OperatorSafety !in r.includedGuardians && OperatorSafety !in r.criticalDomains
  }

  /** `GuardianConsultationRequestValidator`. */
  predicate RequestAccepted(r: Request) {
    NoRepeats(r.operations) && (r.report.Some? ==> ReportAccepted(r.report.value))
  }

  /** `GuardianConsultationDecisionValidator`. */
  predicate DecisionAccepted(d: Decision) {
    && NoRepeats(d.checkedDomains) && NoRepeats(d.missingDomains) && ApprovalsAccepted(d.requiredApprovals)
    && NoRepeats(d.blockers) && (forall b :: b in d.blockers ==> BlockerAccepted(b))
    && NoRepeats(d.advice) && (forall a :: a in d.advice ==> AdviceAccepted(a))
    && d.approvalRequired == (d.requiredApprovals != [])
  }

  lemma {:induction false} FilterRepeatsNothing<T(!new)>(s: seq<T>, p: T -> bool)
    requires NoRepeats(s)
    ensures NoRepeats(Filter(s, p))
  {
    if s != [] {
      var rest := s[1..];
      assert forall i :: 0 <= i < |rest| ==> rest[i] == s[i + 1];
      FilterRepeatsNothing(rest, p);
      assert s[0] !in rest;
    }
  }

  lemma DomainsAreOrdered(r: Request, policy: Policy)
    ensures NoRepeats(CheckedDomains(r.report)) && NoRepeats(MissingDomains(r, policy))
  {
    var order := SAFETY_DOMAIN_ORDER;
    assert NoRepeats(order);
    if r.report.Some? {
      var included := r.report.value.includedGuardians;
      FilterRepeatsNothing(order, (d: Domain) => d.OperatorSafety? || d in included);
    }
    FilterRepeatsNothing(order, (d: Domain) => NeedsDomain(r, policy, d));
    var checked := CheckedDomains(r.report);
    FilterRepeatsNothing(RequiredDomains(r, policy), (d: Domain) => d !in checked);
  }

  lemma EachIsDistinct(first: Blocker, domains: seq<Domain>, critical: bool)
    requires NoRepeats(domains) && (first.CriticalSafety? || first.SafetyUnknown?)
    ensures NoRepeats([first] + Each(domains, critical))
    ensures forall b :: b in [first] + Each(domains, critical) ==> BlockerAccepted(b)
  {
  }

  lemma ChoiceBlockers(r: Request, policy: Policy)
    ensures
      var c := Choose(r, policy);
      && !c.advice.Advised?
      && (|| c.blockers == [] || c.blockers == [ReportRequired]
          || (r.report.Some? && c.blockers == [CriticalSafety] + Each(r.report.value.criticalDomains, true))
          || c.blockers == [SafetyUnknown] + Each(MissingDomains(r, policy), false))
  {
    hide MissingDomains, Each, RequiredApprovals, IsRisky;
  }

  lemma ChoiceIsAccepted(r: Request, policy: Policy)
    requires r.report.Some? ==> ReportAccepted(r.report.value)
    ensures
      var c := Choose(r, policy);
      && NoRepeats(c.blockers) && (forall b :: b in c.blockers ==> BlockerAccepted(b)) && !c.advice.Advised?
  {
    ChoiceBlockers(r, policy);
    DomainsAreOrdered(r, policy);
    hide Choose, MissingDomains, Each, GuardianText, CheckedDomains;
    if r.report.Some? {
      EachIsDistinct(CriticalSafety, r.report.value.criticalDomains, true);
    }
    EachIsDistinct(SafetyUnknown, MissingDomains(r, policy), false);
    ShortIsDistinct([ReportRequired]);
    hide NoRepeats;
  }

  lemma ShortIsDistinct<T>(s: seq<T>)
    requires |s| <= 1
    ensures NoRepeats(s)
  {
  }

  lemma ApprovalsAreAccepted(r: Request, policy: Policy)
    requires PolicyAccepted(policy)
    ensures ApprovalsAccepted(RequiredApprovals(r, policy))
  {
    FilterRepeatsNothing(policy.requiredApprovals, (a: Approval) => a.operation in r.operations);
  }

  /** A consultation is never refused by its own validator: under an accepted policy, every accepted
      request gets a decision that is accepted in turn. */
  lemma EvaluatedIsAccepted(r: Request, policy: Policy)
    requires PolicyAccepted(policy) && RequestAccepted(r)
    ensures DecisionAccepted(Evaluate(r, policy))
  {
    DomainsAreOrdered(r, policy);
    ChoiceIsAccepted(r, policy);
    ApprovalsAreAccepted(r, policy);
    ShortIsDistinct([Choose(r, policy).advice]);
    hide Choose, CheckedDomains, MissingDomains, RequiredApprovals, NoRepeats, ApprovalsAccepted, BlockerAccepted;
  }
}
