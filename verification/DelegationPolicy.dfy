/** src/assistants/deterministic-main-assistant-delegation-policy.ts, fed by the guardian
    consultation of the same operations. */
module DelegationPolicy {
  import opened Collections
  import opened GuardianConsultation
  import opened Redaction

  datatype Category =
    | BusinessCategory
    | ContentDirection
    | ExternalCommunication
    | Implementation
    | Publishing
    | ResearchCategory
    | SalesOutreach
    | ToolAgent

  datatype TargetRisk = LowRisk | MediumRisk | HighRisk | CriticalRisk

  datatype Target = Target(
    agentId: string,
    category: Category,
    risk: TargetRisk,
    requiredApprovalIds: seq<string>,
    requiredGuardianDomains: seq<Domain>,
    requiredOperations: seq<Operation>)

  datatype Profile = Profile(
    allowedTargets: seq<Target>,
    forbiddenCategories: seq<Category>,
    maxDelegationDepth: int,
    noCircularDelegation: bool,
    requiresGuardianConsultation: bool,
    requiresOperatorSafetyReport: bool)

  datatype Delegation = Delegation(
    targetAgentId: string,
    category: Category,
    operations: seq<Operation>,
    path: seq<string>,
    depth: int,
    grants: seq<string>,
    guardian: Option<Decision>,
    policy: Profile)

  datatype Verdict = Allowed | NeedsConfirmation | NeedsApproval | Denied

  datatype ReasonCode =
    | TargetNotAllowed
    | CategoryForbidden
    | CategoryMismatch
    | CircularDelegation
    | MaxDepthExceeded
    | MissingGuardianConsultation
    | GuardianBlocked
    | MissingOperatorSafetyReport
    | MissingGuardianDomain
    | ApprovalRequired
    | GuardianConfirmationRequired
    | GuardianWarning
    | DelegationAllowed

  /** A blocked reason: a sentence of the evaluator's own, or a blocker of the consultation. */
  datatype Cause = OwnCause | Quoted(blocker: Blocker)

  /** A delegation decision.  `advice` is what it repeats of the consultation's recommended actions. */
  datatype Ruling = Ruling(
    verdict: Verdict,
    code: ReasonCode,
    causes: seq<Cause>,
    advice: seq<Advice>,
    requiredApprovalIds: set<string>,
    missingApprovalIds: set<string>,
    missingDomains: seq<Domain>)

  function FindTarget(d: Delegation): Option<Target> {
    Find(d.policy.allowedTargets, (t: Target) => t.agentId == d.targetAgentId)
  }

  function Except(domains: seq<Domain>, checked: seq<Domain>): seq<Domain> {
    Filter(domains, (x: Domain) => x !in checked)
  }

  function UncheckedDomains(t: Target, guardian: Option<Decision>): seq<Domain> {
    if guardian.None? then t.requiredGuardianDomains
    else Except(t.requiredGuardianDomains, guardian.value.checkedDomains)
  }

  /** `requiredApprovals`. */
  function ApprovalIds(d: Delegation, t: Target): set<string> {
    (set a | a in t.requiredApprovalIds)
    + (if d.guardian.None? then {}
       else
         set a | a in d.guardian.value.requiredApprovals
                 && (a.operation in d.operations || a.operation in t.requiredOperations)
           :: a.approvalId)
    + (if t.category.Publishing? then {EXTERNAL_SIDE_EFFECTS} else {})
  }

  /** The first half of `buildDecision`: the refusals that need no look at the target's own
      requirements. */
  function Refusal(d: Delegation): (r: Option<ReasonCode>)
    ensures r.None? ==> FindTarget(d).Some?
  {
    var found := FindTarget(d);
    if found.None? then Some(TargetNotAllowed)
    else if d.category in d.policy.forbiddenCategories then Some(CategoryForbidden)
    else if found.value.category != d.category then Some(CategoryMismatch)
    else if d.policy.noCircularDelegation && d.targetAgentId in d.path then Some(CircularDelegation)
    else if d.depth >= d.policy.maxDelegationDepth then Some(MaxDepthExceeded)
    else if d.policy.requiresGuardianConsultation && d.guardian.None? then Some(MissingGuardianConsultation)
    else if d.guardian.Some? && d.guardian.value.kind.Blocked? then Some(GuardianBlocked)
    else if
      && d.policy.requiresOperatorSafetyReport
      && (d.guardian.None? || d.guardian.value.status.None? || d.guardian.value.autonomy.None?)
    then Some(MissingOperatorSafetyReport)
    else None
  }

  function Quotes(blockers: seq<Blocker>): seq<Cause> {
    seq(|blockers|, i requires 0 <= i < |blockers| => Quoted(blockers[i]))
  }

  /** `buildDecision`. */
  function Rule(d: Delegation): Ruling {
    var refusal := Refusal(d);
    if refusal.None? then RuleOnTarget(d, FindTarget(d).value)
    else if refusal.value.GuardianBlocked? then
      Ruling(Denied, GuardianBlocked, Quotes(d.guardian.value.blockers), d.guardian.value.advice, {}, {}, [])
    else Ruling(Denied, refusal.value, [OwnCause], [], {}, {}, [])
  }

  function Lacking(d: Delegation, t: Target): set<string> {
    set a | a in ApprovalIds(d, t) && a !in d.grants
  }

  /** The second half: domains, approvals, then the guardian's own reservations. */
  function RuleOnTarget(d: Delegation, t: Target): Ruling {
    var missing := UncheckedDomains(t, d.guardian);
    if missing != [] then
      Ruling(Denied, MissingGuardianDomain, seq(|missing|, _ => OwnCause), [], {}, {}, missing)
    else
      var ids, lacking := ApprovalIds(d, t), Lacking(d, t);
      if lacking != {} then Ruling(NeedsApproval, ApprovalRequired, [], [], ids, lacking, [])
      else if d.guardian.Some? && d.guardian.value.kind.RequiresOperatorConfirmation? then
        Ruling(NeedsConfirmation, GuardianConfirmationRequired, [], d.guardian.value.advice, ids, {}, [])
      else if d.guardian.Some? && d.guardian.value.kind.ContinueWithWarning? then
        Ruling(NeedsConfirmation, GuardianWarning, [], [], ids, {}, [])
      else Ruling(Allowed, DelegationAllowed, [], [], ids, {}, [])
  }

  /** `validateDecisionConsistency` of main-assistant-delegation-policy-validator.ts. */
  predicate Consistent(r: Ruling) {
    && (r.verdict.Allowed? ==> r.causes == [] && r.missingApprovalIds == {} && r.missingDomains == [])
    && (r.verdict.Denied? ==> r.causes != [])
    && (r.verdict.NeedsApproval? ==> r.missingApprovalIds != {})
    && (r.verdict.NeedsConfirmation? ==> r.causes == [])
  }

  /** A delegation that consults the guardian about exactly its own operations. */
  function Consulted(d: Delegation, risk: RiskLevel, report: Option<Report>, policy: Policy): Delegation {
    d.(guardian := Some(Evaluate(Request(d.operations, risk, report), policy)))
  }

  /** With a consultation of its own, every ruling meets the consistency clauses. */
  lemma RulingsAreConsistent(d: Delegation, risk: RiskLevel, report: Option<Report>, policy: Policy)
    ensures Consistent(Rule(Consulted(d, risk, report, policy)))
  {
    hide Evaluate, Rule, Consistent, KindOf, RequiredApprovals, MissingDomains, CheckedDomains;
    EvaluateFacts(Request(d.operations, risk, report), policy);
    InconsistentExactly(Consulted(d, risk, report, policy));
  }

  /** A delegation that passes every check before the guardian is asked. */
  predicate ReachesGuardian(d: Delegation) {
    var t := FindTarget(d);
    && t.Some? && t.value.category == d.category && d.category !in d.policy.forbiddenCategories
    && (d.policy.noCircularDelegation ==> d.targetAgentId !in d.path)
    && d.depth < d.policy.maxDelegationDepth
  }

  /** It comes with a consultation that blocks and gives no reason. */
  predicate BlockedWithoutReason(d: Delegation) {
    ReachesGuardian(d) && d.guardian.Some? && d.guardian.value.kind.Blocked? && d.guardian.value.blockers == []
  }

  /** With any consultation a ruling is consistent, except exactly when the delegation passes the
      checks before it and the consultation blocks without a reason: the blockers become the
      blocked reasons, and a denial needs some. */
  lemma InconsistentExactly(d: Delegation)
    ensures Consistent(Rule(d)) <==> !BlockedWithoutReason(d)
  {
    hide ApprovalIds, UncheckedDomains, FindTarget;
  }

  // ------------------------------------------------------------------- monotonicity

  function Severity(v: Verdict): nat {
    match v
    case Allowed => 0
    case NeedsConfirmation => 1
    case NeedsApproval => 2
    case Denied => 3
  }

  predicate Subset(small: seq<Operation>, large: seq<Operation>) {
    forall o :: o in small ==> o in large
  }

  /** The guardian's reservation that a grant of approvals does not lift. */
  predicate Reserved(k: Kind) {
    k.ContinueWithWarning? || k.RequiresOperatorConfirmation?
  }

  /** `e` asks for a part of what `d` asks for, with a consultation that is no stricter about
      blocking and missing reports, and requires no approval `d`'s does not. */
  ghost predicate Milder(d: Delegation, e: Delegation) {
    && e == d.(operations := e.operations, guardian := e.guardian)
    && Subset(e.operations, d.operations) && d.guardian.Some? && e.guardian.Some?
    && e.guardian.value.checkedDomains == d.guardian.value.checkedDomains
    && (e.guardian.value.status.None? <==> d.guardian.value.status.None?)
    && (e.guardian.value.autonomy.None? <==> d.guardian.value.autonomy.None?)
    && (e.guardian.value.kind.Blocked? ==> d.guardian.value.kind.Blocked?)
    && (forall a :: a in e.guardian.value.requiredApprovals ==> a in d.guardian.value.requiredApprovals)
  }

  lemma RefusedNoMore(d: Delegation, e: Delegation)
    requires Milder(d, e) && Refusal(d).None?
    ensures Refusal(e).None? && FindTarget(e) == FindTarget(d) && FindTarget(d).Some?
  {
    assert FindTarget(e) == FindTarget(d);
    hide FindTarget;
  }

  lemma AsksApprovalNoMore(d: Delegation, e: Delegation, t: Target)
    requires Milder(d, e)
    ensures ApprovalIds(e, t) <= ApprovalIds(d, t) && UncheckedDomains(t, e.guardian) == UncheckedDomains(t, d.guardian)
  {
    forall id | id in ApprovalIds(e, t)
      ensures id in ApprovalIds(d, t)
    {
      if a :| a in e.guardian.value.requiredApprovals && a.approvalId == id
              && (a.operation in e.operations || a.operation in t.requiredOperations) {
        assert a in d.guardian.value.requiredApprovals;
      }
    }
  }

  /** What each verdict on the target means. */
  lemma TargetVerdict(d: Delegation, t: Target)
    requires d.guardian.Some?
    ensures RuleOnTarget(d, t).verdict.Denied? <==> UncheckedDomains(t, d.guardian) != []
    ensures RuleOnTarget(d, t).verdict.NeedsApproval? <==> UncheckedDomains(t, d.guardian) == [] && Lacking(d, t) != {}
    ensures RuleOnTarget(d, t).verdict.NeedsConfirmation? <==>
              UncheckedDomains(t, d.guardian) == [] && Lacking(d, t) == {} && Reserved(d.guardian.value.kind)
  {
    hide Lacking, UncheckedDomains;
  }

  lemma SmallerIsMilder(d: Delegation, e: Delegation)
    requires Milder(d, e) && (Reserved(e.guardian.value.kind) ==> Reserved(d.guardian.value.kind))
    ensures Severity(Rule(e).verdict) <= Severity(Rule(d).verdict)
  {
    if Refusal(d).None? {
      RefusedNoMore(d, e);
      var t := FindTarget(d).value;
      AsksApprovalNoMore(d, e, t);
      TargetVerdict(d, t);
      TargetVerdict(e, t);
      hide Refusal, FindTarget, ApprovalIds, UncheckedDomains, RuleOnTarget;
    }
  }

  lemma ConsultedIsMilder(
      d: Delegation, small: seq<Operation>, risk: RiskLevel, report: Option<Report>, policy: Policy)
    requires Subset(small, d.operations)
    ensures Milder(Consulted(d, risk, report, policy), Consulted(d.(operations := small), risk, report, policy))
  {
    var r, q := Request(small, risk, report), Request(d.operations, risk, report);
    hide Evaluate, KindOf, RequiredApprovals, MissingDomains, CheckedDomains;
    EvaluateFacts(r, policy);
    EvaluateFacts(q, policy);
    AskingMoreIsStricter(r, q, policy);
    var a, b := Evaluate(r, policy), Evaluate(q, policy);
    assert a.kind.Blocked? ==> b.kind.Blocked?;
    hide Strictness, AsksMore;
  }

  lemma ApprovalsNeedOperations(r: Request, policy: Policy)
    requires RequiredApprovals(r, policy) != []
    ensures r.operations != [] && IsRisky(r)
  {
    assert RequiredApprovals(r, policy)[0] in RequiredApprovals(r, policy);
  }

  /** Asking for less, when the whole is neither blocked nor reserved, is reserved exactly when
      the report asks for attention and nothing in the part needs an approval. */
  lemma ReservedSubset(small: Request, large: Request, policy: Policy)
    requires AsksMore(small, large)
    requires !Reserved(Evaluate(large, policy).kind) && !Evaluate(large, policy).kind.Blocked?
    ensures large.report.Some?
    ensures Reserved(Evaluate(small, policy).kind) <==>
              large.report.value.status.AttentionRequired? && RequiredApprovals(small, policy) == []
    ensures Reserved(Evaluate(small, policy).kind) ==> !policy.attentionRequiresAcknowledgement
  {
    hide RequiredApprovals, MissingDomains, IsRisky, Evaluate;
    EvaluateFacts(small, policy);
    EvaluateFacts(large, policy);
    MissingGrow(small, large, policy);
    ApprovalsGrow(small, large, policy);
    if IsRisky(small) {
      RiskierAsksMore(small, large);
    }
    if RequiredApprovals(large, policy) != [] {
      ApprovalsNeedOperations(large, policy);
    }
    hide AsksMore;
  }

  /** With the acknowledgement flag set, no verdict gets more severe when operations are taken
      away; in particular a delegation allowed for some operations is allowed for every subset. */
  lemma DelegationIsDownwardClosed(
      d: Delegation, small: seq<Operation>, risk: RiskLevel, report: Option<Report>, policy: Policy)
    requires Subset(small, d.operations) && policy.attentionRequiresAcknowledgement
    ensures
      var whole, part := Consulted(d, risk, report, policy), Consulted(d.(operations := small), risk, report, policy);
      && Severity(Rule(part).verdict) <= Severity(Rule(whole).verdict)
      && (Rule(whole).verdict.Allowed? ==> Rule(part).verdict.Allowed?)
  {
    hide Evaluate, ApprovalIds, UncheckedDomains, RuleOnTarget, FindTarget, Milder;
    var r, q := Request(small, risk, report), Request(d.operations, risk, report);
    ConsultedIsMilder(d, small, risk, report, policy);
    if !Reserved(Evaluate(q, policy).kind) && !Evaluate(q, policy).kind.Blocked? {
      ReservedSubset(r, q, policy);
    }
    if !Evaluate(q, policy).kind.Blocked? {
      hide Rule, Refusal;
      SmallerIsMilder(Consulted(d, risk, report, policy), Consulted(d.(operations := small), risk, report, policy));
    } else {
      BlockedIsDenied(Consulted(d, risk, report, policy));
    }
  }

  lemma BlockedIsDenied(d: Delegation)
    requires d.guardian.Some? && d.guardian.value.kind.Blocked?
    ensures Rule(d).verdict.Denied?
  {
    hide RuleOnTarget, FindTarget;
  }

  /** Without the flag it can fail, and exactly so: of operations for which the delegation is
      allowed, a subset is not allowed exactly when the report asks for attention and no
      approval of the guardian's policy covers the subset. */
  lemma SubsetRefusedExactly(
      d: Delegation, small: seq<Operation>, risk: RiskLevel, report: Option<Report>, policy: Policy)
    requires Subset(small, d.operations) && Rule(Consulted(d, risk, report, policy)).verdict.Allowed?
    ensures report.Some?
    ensures !Rule(Consulted(d.(operations := small), risk, report, policy)).verdict.Allowed?
            <==> report.value.status.AttentionRequired? && RequiredApprovals(Request(small, risk, report), policy) == []
  {
    hide Evaluate, ApprovalIds, UncheckedDomains, RuleOnTarget, FindTarget, Refusal, RequiredApprovals;
    var c, s := Consulted(d, risk, report, policy), Consulted(d.(operations := small), risk, report, policy);
    ConsultedIsMilder(d, small, risk, report, policy);
    AllowedMeans(c);
    RefusedNoMore(c, s);
    AsksApprovalNoMore(c, s, FindTarget(c).value);
    TargetVerdict(s, FindTarget(c).value);
    ReservedSubset(Request(small, risk, report), Request(d.operations, risk, report), policy);
    hide Milder;
  }

  lemma AllowedMeans(d: Delegation)
    requires d.guardian.Some? && Rule(d).verdict.Allowed?
    ensures Refusal(d).None? && FindTarget(d).Some? && !Reserved(d.guardian.value.kind)
    ensures !d.guardian.value.kind.Blocked?
    ensures UncheckedDomains(FindTarget(d).value, d.guardian) == []
    ensures forall a :: a in ApprovalIds(d, FindTarget(d).value) ==> a in d.grants
  {
    hide RuleOnTarget, ApprovalIds, UncheckedDomains, FindTarget;
    if Refusal(d).None? {
      var t := FindTarget(d).value;
      TargetVerdict(d, t);
      assert Lacking(d, t) == {};
      forall a | a in ApprovalIds(d, t)
        ensures a in d.grants
      {
        assert a !in Lacking(d, t);
      }
    }
  }

  // ------------------------------------------------------------------- told by its lists

  /** Identifier `id` is an approval that delegating to `t` takes: the target names it, a guardian
      approval for an operation asked for or always needed by the target carries it, or the target
      publishes. */
  predicate IsCalledFor(d: Delegation, t: Target, id: string) {
    || id in t.requiredApprovalIds
    || (t.category.Publishing? && id == "approve-external-side-effects")
    || (d.guardian.Some? && exists a ::
          && a in d.guardian.value.requiredApprovals && a.approvalId == id
          && (a.operation in d.operations || a.operation in t.requiredOperations))
  }

  /** Everything a delegation to `t` must meet before approvals and reservations are looked at. */
  predicate Eligible(d: Delegation, t: Target) {
    && t in d.policy.allowedTargets && t.agentId == d.targetAgentId
    && t.category == d.category && d.category !in d.policy.forbiddenCategories
    && (d.policy.noCircularDelegation ==> d.targetAgentId !in d.path)
    && d.depth < d.policy.maxDelegationDepth
    && (d.policy.requiresGuardianConsultation ==> d.guardian.Some?)
    && (d.policy.requiresOperatorSafetyReport ==>
          d.guardian.Some? && d.guardian.value.status.Some? && d.guardian.value.autonomy.Some?)
    && (d.guardian.Some? ==> !d.guardian.value.kind.Blocked?)
    && (forall x :: x in t.requiredGuardianDomains ==> d.guardian.Some? && x in d.guardian.value.checkedDomains)
  }

  /** Every approval it takes is granted. */
  predicate IsApproved(d: Delegation, t: Target) {
    && (forall id :: id in t.requiredApprovalIds ==> id in d.grants)
    && (t.category.Publishing? ==> "approve-external-side-effects" in d.grants)
    && (d.guardian.Some? ==>
          forall a :: a in d.guardian.value.requiredApprovals
                      && (a.operation in d.operations || a.operation in t.requiredOperations) ==>
            a.approvalId in d.grants)
  }

  predicate OneTargetPerAgent(d: Delegation) {
    forall t, u :: t in d.policy.allowedTargets && u in d.policy.allowedTargets && t.agentId == u.agentId ==> t == u
  }

  /** With one target per agent: a delegation is allowed, needs approval or needs confirmation exactly
      when some declared target makes it eligible, with every approval it takes granted and the
      guardian unreserved, with one lacking, or with all granted and the guardian reserved; it is denied
      exactly when none does. */
  lemma VerdictExactly(d: Delegation)
    requires OneTargetPerAgent(d)
    ensures
      var v, reserved := Rule(d).verdict, d.guardian.Some? && Reserved(d.guardian.value.kind);
      && (v.Allowed? <==> exists t :: Eligible(d, t) && IsApproved(d, t) && !reserved)
      && (v.NeedsApproval? <==> exists t :: Eligible(d, t) && !IsApproved(d, t))
      && (v.NeedsConfirmation? <==> exists t :: Eligible(d, t) && IsApproved(d, t) && reserved)
      && (v.Denied? <==> forall t :: !Eligible(d, t))
  {
    var found := FindTarget(d);
    EligibleIsFound(d);
    if found.Some? {
      NothingUnchecked(found.value, d.guardian);
      NothingLacking(d, found.value);
    }
    hide ApprovalIds, UncheckedDomains, IsApproved, Lacking, FindTarget, OneTargetPerAgent;
  }

  lemma EligibleIsFound(d: Delegation)
    requires OneTargetPerAgent(d)
    ensures forall t :: Eligible(d, t) ==> FindTarget(d) == Some(t)
    ensures FindTarget(d).Some? ==>
              FindTarget(d).value in d.policy.allowedTargets && FindTarget(d).value.agentId == d.targetAgentId
  {
  }

  predicate IsDeclared(d: Delegation, t: Target) {
    t in d.policy.allowedTargets && t.agentId == d.targetAgentId
  }

  /** Declared, and nothing about its category refuses the delegation. */
  predicate Fits(d: Delegation, t: Target) {
    IsDeclared(d, t) && t.category == d.category && d.category !in d.policy.forbiddenCategories
  }

  predicate IsCircular(d: Delegation) {
    d.policy.noCircularDelegation && d.targetAgentId in d.path
  }

  /** The reason names the first check that fails, in this order. */
  lemma ReasonExactly(d: Delegation)
    requires OneTargetPerAgent(d)
    ensures
      var code, reached := Rule(d).code, ReachesGuardian(d);
      && (code.TargetNotAllowed? <==> forall t :: !IsDeclared(d, t))
      && (code.CategoryForbidden? <==> (exists t :: IsDeclared(d, t)) && d.category in d.policy.forbiddenCategories)
      && (code.CategoryMismatch? <==>
            && d.category !in d.policy.forbiddenCategories
            && exists t :: IsDeclared(d, t) && t.category != d.category)
      && (code.CircularDelegation? <==> (exists t :: Fits(d, t)) && IsCircular(d))
      && (code.MaxDepthExceeded? <==>
            (exists t :: Fits(d, t)) && !IsCircular(d) && d.depth >= d.policy.maxDelegationDepth)
      && (code.MissingGuardianConsultation? <==>
            reached && d.policy.requiresGuardianConsultation && d.guardian.None?)
      && (code.GuardianBlocked? <==> reached && d.guardian.Some? && d.guardian.value.kind.Blocked?)
      && (code.MissingOperatorSafetyReport? <==>
            && reached && d.policy.requiresOperatorSafetyReport
            && if d.guardian.None? then !d.policy.requiresGuardianConsultation
               else
                 && !d.guardian.value.kind.Blocked?
                 && (d.guardian.value.status.None? || d.guardian.value.autonomy.None?))
      && (code.MissingGuardianDomain? <==> Rule(d).missingDomains != [])
  {
    DeclaredIsFound(d);
    var found := FindTarget(d);
    if found.Some? && found.value.category == d.category && d.category !in d.policy.forbiddenCategories {
      assert Fits(d, found.value);
    }
    hide ApprovalIds, UncheckedDomains, Lacking, FindTarget, OneTargetPerAgent, IsDeclared;
  }

  /** What a ruling repeats of the consultation: each blocker as a reason when that blocks, and its
      recommended actions when it blocks or waits for Fabio. */
  lemma RepeatsExactly(d: Delegation)
    ensures
      var r := Rule(d);
      && (r.code.GuardianBlocked? ==>
            && d.guardian.Some? && |r.causes| == |d.guardian.value.blockers|
            && forall i :: 0 <= i < |r.causes| ==> r.causes[i] == Quoted(d.guardian.value.blockers[i]))
      && (!r.code.GuardianBlocked? ==> forall c :: c in r.causes ==> c.OwnCause?)
      && (r.code.GuardianBlocked? || r.code.GuardianConfirmationRequired? ==>
            d.guardian.Some? && r.advice == d.guardian.value.advice)
      && (!r.code.GuardianBlocked? && !r.code.GuardianConfirmationRequired? ==> r.advice == [])
  {
    hide ApprovalIds, UncheckedDomains, Lacking, FindTarget;
  }

  lemma DeclaredIsFound(d: Delegation)
    requires OneTargetPerAgent(d)
    ensures forall t :: IsDeclared(d, t) <==> FindTarget(d) == Some(t)
  {
  }

  /** A ruling that asks for approvals lists as missing exactly those the target takes that were not
      granted; one that does not deny lists as required exactly those it takes. */
  lemma ApprovalsListedExactly(d: Delegation, t: Target, id: string)
    requires OneTargetPerAgent(d) && Eligible(d, t)
    ensures id in Rule(d).missingApprovalIds <==> IsCalledFor(d, t, id) && id !in d.grants
    ensures id in Rule(d).requiredApprovalIds <==> IsCalledFor(d, t, id)
  {
    EligibleIsFound(d);
    NothingUnchecked(t, d.guardian);
    CalledForIsListed(d, t, id);
    hide ApprovalIds, UncheckedDomains, IsCalledFor, FindTarget, OneTargetPerAgent;
    assert id in Lacking(d, t) <==> id in ApprovalIds(d, t) && id !in d.grants;
  }

  lemma CalledForIsListed(d: Delegation, t: Target, id: string)
    ensures id in ApprovalIds(d, t) <==> IsCalledFor(d, t, id)
  {
  }

  /** A denial for guardian coverage names exactly the domains the target takes that the consultation
      did not check. */
  lemma MissingDomainsExactly(d: Delegation, x: Domain)
    ensures x in Rule(d).missingDomains <==>
              && Refusal(d).None?
              && x in FindTarget(d).value.requiredGuardianDomains
              && (d.guardian.None? || x !in d.guardian.value.checkedDomains)
  {
    hide ApprovalIds, FindTarget, Lacking;
  }

  lemma NothingUnchecked(t: Target, guardian: Option<Decision>)
    ensures UncheckedDomains(t, guardian) == [] <==>
              forall x :: x in t.requiredGuardianDomains ==> guardian.Some? && x in guardian.value.checkedDomains
  {
    HasMember(UncheckedDomains(t, guardian));
  }

  lemma NothingLacking(d: Delegation, t: Target)
    ensures Lacking(d, t) == {} <==> IsApproved(d, t)
  {
    forall id
      ensures id in Lacking(d, t) <==> IsCalledFor(d, t, id) && id !in d.grants
    {
      CalledForIsListed(d, t, id);
    }
    hide Lacking, ApprovalIds;
    if IsApproved(d, t) {
      assert forall id :: IsCalledFor(d, t, id) ==> id in d.grants;
    }
    if Lacking(d, t) == {} {
      forall id | IsCalledFor(d, t, id)
        ensures id in d.grants
      {
        assert id !in Lacking(d, t);
      }
      forall a | d.guardian.Some? && a in d.guardian.value.requiredApprovals
                 && (a.operation in d.operations || a.operation in t.requiredOperations)
        ensures a.approvalId in d.grants
      {
        assert IsCalledFor(d, t, a.approvalId);
      }
      assert forall id :: id in t.requiredApprovalIds ==> IsCalledFor(d, t, id);
      assert t.category.Publishing? ==> IsCalledFor(d, t, "approve-external-side-effects");
    }
  }
}
