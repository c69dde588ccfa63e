/** src/assistants/main-assistant-delegation-policy-validator.ts around the evaluator: which requests
    it accepts, which of its own decisions it then refuses, and inputs for what can go wrong.  The
    evaluator's own sentences pass as they stand. */
module DelegationAcceptance {
  import opened Collections
  import opened GuardianConsultation
  import opened DelegationPolicy
  import opened Redaction
  import G = GuardianAcceptance

  // ------------------------------------------------------------------- requests

  /** `readTarget` and `validateTargets`; a target's role, which equals its category, is one of five. */
  predicate TargetAccepted(t: Target, forbidden: seq<Category>) {
    && DelegationId(t.agentId) && SpecificationId(t.agentId)
    && !t.category.ExternalCommunication? && !t.category.SalesOutreach? && !t.category.ToolAgent?
    && t.category !in forbidden
    && Identifiers(t.requiredApprovalIds)
    && NoRepeats(t.requiredGuardianDomains) && NoRepeats(t.requiredOperations)
    && OperatorSafety in t.requiredGuardianDomains
    && (t.category.BusinessCategory? ==> CostDomain in t.requiredGuardianDomains)
    && (t.category.Implementation? ==>
          SecurityDomain in t.requiredGuardianDomains && BackupDomain in t.requiredGuardianDomains)
    && (t.category.Publishing? ==> QualityDomain in t.requiredGuardianDomains)
    && (t.category.Publishing? || t.risk.HighRisk? || t.risk.CriticalRisk? ==> t.requiredApprovalIds != [])
  }

  /** `MainAssistantDelegationPolicyProfileValidator`. */
  predicate ProfileAccepted(p: Profile) {
    && p.allowedTargets != []
    && (forall t :: t in p.allowedTargets ==> TargetAccepted(t, p.forbiddenCategories))
    && (forall i, j :: 0 <= i < j < |p.allowedTargets| ==> p.allowedTargets[i].agentId != p.allowedTargets[j].agentId)
    && NoRepeats(p.forbiddenCategories) && ExternalCommunication in p.forbiddenCategories
    && SalesOutreach in p.forbiddenCategories && ToolAgent in p.forbiddenCategories
    && p.maxDelegationDepth >= 1
    && p.noCircularDelegation && p.requiresGuardianConsultation && p.requiresOperatorSafetyReport
  }

  /** `MainAssistantDelegationEvaluationRequestValidator`. */
  predicate RequestAccepted(d: Delegation) {
    && DelegationId(d.targetAgentId) && SpecificationId(d.targetAgentId)
    && NoRepeats(d.operations) && d.depth >= 0
    && Identifiers(d.path) && Identifiers(d.grants)
    && ProfileAccepted(d.policy)
    && (d.guardian.Some? ==> G.DecisionAccepted(d.guardian.value))
  }

  // ------------------------------------------------------------------- decisions

  predicate CauseAccepted(c: Cause) {
    c.Quoted? && c.blocker.Said? ==> DelegationText(c.blocker.text)
  }

  predicate AdviceAccepted(a: Advice) {
    a.Advised? ==> DelegationText(a.text)
  }

  /** `MainAssistantDelegationDecisionValidator`. */
  predicate RulingAccepted(r: Ruling) {
    && Consistent(r) && NoRepeats(r.missingDomains)
    && (forall id :: id in r.requiredApprovalIds + r.missingApprovalIds ==> DelegationId(id))
    && (forall c :: c in r.causes ==> CauseAccepted(c))
    && (forall a :: a in r.advice ==> AdviceAccepted(a))
  }

  datatype Answer = RequestRefused | RulingRefused | Answered(ruling: Ruling)

  /** `evaluate`. */
  function EvaluateDelegation(d: Delegation): Answer {
    if !RequestAccepted(d) then RequestRefused
    else if !RulingAccepted(Rule(d)) then RulingRefused
    else Answered(Rule(d))
  }

  // ------------------------------------------------------------------- what the answer repeats

  /** The one word the consultation's validator lets through and the delegation's does not. */
  predicate BlockerMarked(b: Blocker) {
    b.Said? && HasWord(b.text, "transportInternals")
  }

  predicate AdviceMarked(a: Advice) {
    a.Advised? && HasWord(a.text, "transportInternals")
  }

  /** An approval the consultation requires for what is asked or for what the target does. */
  predicate Relevant(d: Delegation, t: Target, a: Approval) {
    a.operation in d.operations || a.operation in t.requiredOperations
  }

  /** Past the guardian: it does not block, has its report, and checked the target's domains. */
  predicate PassesGuardian(d: Delegation) {
    && ReachesGuardian(d) && d.guardian.Some? && !d.guardian.value.kind.Blocked?
    && d.guardian.value.status.Some? && d.guardian.value.autonomy.Some?
    && forall x :: x in FindTarget(d).value.requiredGuardianDomains ==> x in d.guardian.value.checkedDomains
  }

  /** Some required approval carries a marker word. */
  predicate ApprovalMarked(d: Delegation) {
    && PassesGuardian(d)
    && exists a :: a in d.guardian.value.requiredApprovals && Relevant(d, FindTarget(d).value, a)
                   && !DelegationSafe(a.approvalId)
  }

  /** A text that is to be repeated says the word: of a consultation that blocks, or of one that
      wants confirmation once every approval is granted. */
  predicate TextMarked(d: Delegation) {
    && ReachesGuardian(d) && d.guardian.Some?
    && if d.guardian.value.kind.Blocked? then
         || (exists b :: b in d.guardian.value.blockers && BlockerMarked(b))
         || (exists a :: a in d.guardian.value.advice && AdviceMarked(a))
       else
         && PassesGuardian(d) && d.guardian.value.kind.RequiresOperatorConfirmation?
         && (forall id :: id in ApprovalIds(d, FindTarget(d).value) ==> id in d.grants)
         && exists a :: a in d.guardian.value.advice && AdviceMarked(a)
  }

  lemma TargetIsAccepted(d: Delegation)
    requires ProfileAccepted(d.policy) && FindTarget(d).Some?
    ensures TargetAccepted(FindTarget(d).value, d.policy.forbiddenCategories)
  {
    hide TargetAccepted;
  }

  /** The identifiers a decision lists are accepted exactly when the consultation's are safe. */
  lemma ApprovalIdsAccepted(d: Delegation, t: Target)
    requires Identifiers(t.requiredApprovalIds)
    requires d.guardian.Some? ==> G.ApprovalsAccepted(d.guardian.value.requiredApprovals)
    ensures (forall id :: id in ApprovalIds(d, t) ==> DelegationId(id))
            <==> d.guardian.Some? ==>
                   forall a :: a in d.guardian.value.requiredApprovals && Relevant(d, t, a) ==>
                     DelegationSafe(a.approvalId)
  {
    hide DelegationSafe;
    ConstantIsIdentifier();
    if d.guardian.Some? {
      forall a | a in d.guardian.value.requiredApprovals && Relevant(d, t, a)
        ensures a.approvalId in ApprovalIds(d, t) && GuardianId(a.approvalId)
      {
      }
    }
    hide GuardianId;
  }

  lemma QuotesAccepted(blockers: seq<Blocker>)
    requires forall b :: b in blockers ==> G.BlockerAccepted(b)
    ensures (forall c :: c in Quotes(blockers) ==> CauseAccepted(c))
            <==> !exists b :: b in blockers && BlockerMarked(b)
  {
    hide HasWord, GuardianSafe, Printable;
    forall i | 0 <= i < |blockers|
      ensures CauseAccepted(Quotes(blockers)[i]) <==> !BlockerMarked(blockers[i])
    {
      assert G.BlockerAccepted(blockers[i]);
    }
    if b :| b in blockers && BlockerMarked(b) {
      var i :| 0 <= i < |blockers| && blockers[i] == b;
      assert Quotes(blockers)[i] in Quotes(blockers);
    }
  }

  lemma AdviceRepeated(advice: seq<Advice>)
    requires forall a :: a in advice ==> G.AdviceAccepted(a)
    ensures (forall a :: a in advice ==> AdviceAccepted(a)) <==> !exists a :: a in advice && AdviceMarked(a)
  {
    hide HasWord, GuardianSafe, Printable;
    forall a | a in advice
      ensures AdviceAccepted(a) <==> !AdviceMarked(a)
    {
      assert G.AdviceAccepted(a);
    }
  }

  /** Everything the decision validator asks beyond consistency. */
  predicate PartsAccepted(r: Ruling) {
    && NoRepeats(r.missingDomains)
    && (forall id :: id in r.requiredApprovalIds + r.missingApprovalIds ==> DelegationId(id))
    && (forall c :: c in r.causes ==> CauseAccepted(c))
    && (forall a :: a in r.advice ==> AdviceAccepted(a))
  }

  lemma BlockedParts(d: Delegation)
    requires d.guardian.Some? && G.DecisionAccepted(d.guardian.value) && Refusal(d) == Some(GuardianBlocked)
    ensures PartsAccepted(Rule(d)) <==> !ApprovalMarked(d) && !TextMarked(d)
  {
    hide CauseAccepted, AdviceAccepted, BlockerMarked, AdviceMarked, Quotes, FindTarget, G.BlockerAccepted,
         G.AdviceAccepted, DelegationId, DelegationSafe, ApprovalIds;
    QuotesAccepted(d.guardian.value.blockers);
    AdviceRepeated(d.guardian.value.advice);
  }

  lemma RefusedParts(d: Delegation)
    requires RequestAccepted(d) && Refusal(d).Some? && Refusal(d) != Some(GuardianBlocked)
    ensures PartsAccepted(Rule(d)) && !ApprovalMarked(d) && !TextMarked(d)
  {
    hide FindTarget, DelegationId, DelegationSafe, ApprovalIds, Relevant, BlockerMarked, AdviceMarked, TargetAccepted,
         Identifiers, G.DecisionAccepted;
  }

  lemma MissingParts(d: Delegation, t: Target)
    requires d.guardian.Some? && NoRepeats(t.requiredGuardianDomains) && UncheckedDomains(t, d.guardian) != []
    ensures PartsAccepted(RuleOnTarget(d, t))
    ensures !forall x :: x in t.requiredGuardianDomains ==> x in d.guardian.value.checkedDomains
  {
    var checked := d.guardian.value.checkedDomains;
    G.FilterRepeatsNothing(t.requiredGuardianDomains, (x: Domain) => x !in checked);
    NothingUnchecked(t, d.guardian);
    hide DelegationId, AdviceAccepted, ApprovalIds;
  }

  lemma ListedParts(d: Delegation, t: Target)
    requires d.guardian.Some? && UncheckedDomains(t, d.guardian) == []
    ensures PartsAccepted(RuleOnTarget(d, t))
            <==> (forall id :: id in ApprovalIds(d, t) ==> DelegationId(id))
                 && (d.guardian.value.kind.RequiresOperatorConfirmation?
                     && (forall id :: id in ApprovalIds(d, t) ==> id in d.grants) ==>
                       forall a :: a in d.guardian.value.advice ==> AdviceAccepted(a))
  {
    hide ApprovalIds, DelegationId, AdviceAccepted, UncheckedDomains;
    assert Lacking(d, t) <= ApprovalIds(d, t);
    assert forall id :: id in Lacking(d, t) <==> id in ApprovalIds(d, t) && id !in d.grants;
    if forall id :: id in ApprovalIds(d, t) ==> id in d.grants {
      assert Lacking(d, t) == {};
    }
    hide Lacking;
  }

  lemma PassedParts(d: Delegation, t: Target)
    requires RequestAccepted(d) && PassesGuardian(d) && FindTarget(d) == Some(t)
    ensures UncheckedDomains(t, d.guardian) == []
    ensures PartsAccepted(RuleOnTarget(d, t)) <==> !ApprovalMarked(d) && !TextMarked(d)
  {
    NothingUnchecked(t, d.guardian);
    TargetIsAccepted(d);
    ListedParts(d, t);
    ApprovalIdsAccepted(d, t);
    AdviceRepeated(d.guardian.value.advice);
    hide FindTarget, DelegationId, DelegationSafe, ApprovalIds, Relevant, AdviceMarked, AdviceAccepted,
         Identifiers, UncheckedDomains, ReachesGuardian, ProfileAccepted, PartsAccepted, RuleOnTarget;
  }

  lemma PassesRefusals(d: Delegation)
    requires RequestAccepted(d) && Refusal(d).None?
    ensures ReachesGuardian(d) && d.guardian.Some? && !d.guardian.value.kind.Blocked?
    ensures d.guardian.value.status.Some? && d.guardian.value.autonomy.Some? && FindTarget(d).Some?
    ensures Rule(d) == RuleOnTarget(d, FindTarget(d).value)
  {
    hide FindTarget, RuleOnTarget, TargetAccepted, DelegationId, Identifiers, G.DecisionAccepted;
  }

  lemma UnpassedMarksNothing(d: Delegation)
    requires !PassesGuardian(d) && d.guardian.Some? && !d.guardian.value.kind.Blocked?
    ensures !ApprovalMarked(d) && !TextMarked(d)
  {
    hide PassesGuardian, Relevant, DelegationSafe, AdviceMarked;
  }

  lemma PartsExactly(d: Delegation)
    requires RequestAccepted(d)
    ensures PartsAccepted(Rule(d)) <==> !ApprovalMarked(d) && !TextMarked(d)
  {
    if Refusal(d) == Some(GuardianBlocked) {
      BlockedParts(d);
    } else if Refusal(d).Some? {
      RefusedParts(d);
    } else {
      var t := FindTarget(d).value;
      TargetIsAccepted(d);
      PassesRefusals(d);
      hide RequestAccepted, FindTarget, ApprovalMarked, TextMarked, PartsAccepted, RuleOnTarget, TargetAccepted,
           Refusal;
      if UncheckedDomains(t, d.guardian) != [] {
        MissingParts(d, t);
        UnpassedMarksNothing(d);
      } else {
        NothingUnchecked(t, d.guardian);
        PassedParts(d, t);
      }
    }
  }

  /** An accepted request is answered, except exactly when a consultation that blocks says nothing
      about why, or when something the decision repeats of the consultation carries a marker word
      that only the delegation's validator looks for. */
  lemma AnsweredExactly(d: Delegation)
    requires RequestAccepted(d)
    ensures EvaluateDelegation(d).Answered?
            <==> !BlockedWithoutReason(d) && !ApprovalMarked(d) && !TextMarked(d)
  {
    PartsExactly(d);
    InconsistentExactly(d);
    hide Rule, Consistent, RequestAccepted, BlockedWithoutReason, ApprovalMarked, TextMarked, NoRepeats, DelegationId,
         CauseAccepted, AdviceAccepted;
  }

  // ------------------------------------------------------------------- what an allowed answer stands for

  /** What the product promises of an agent that gets work handed to: it is declared, is no tool and
      neither sells nor writes to outsiders; a guardian's consultation of an operator safety report does
      not reserve anything and looked at operator safety and at what the agent's category takes; whatever
      approval it takes is granted, and it takes one if it publishes or its risk is high; and it
      does not pass on to itself. */
  predicate Cleared(d: Delegation, t: Target) {
    && t in d.policy.allowedTargets && t.agentId == d.targetAgentId && t.category == d.category
    && !t.category.ExternalCommunication? && !t.category.SalesOutreach? && !t.category.ToolAgent?
    && d.targetAgentId !in d.path && d.depth < d.policy.maxDelegationDepth
    && d.guardian.Some? && d.guardian.value.status.Some? && d.guardian.value.autonomy.Some?
    && (d.guardian.value.kind.MayContinue? || d.guardian.value.kind.RequiresApproval?)
    && OperatorSafety in d.guardian.value.checkedDomains
    && (t.category.BusinessCategory? ==> CostDomain in d.guardian.value.checkedDomains)
    && (t.category.Implementation? ==>
          SecurityDomain in d.guardian.value.checkedDomains && BackupDomain in d.guardian.value.checkedDomains)
    && (t.category.Publishing? ==>
          QualityDomain in d.guardian.value.checkedDomains && "approve-external-side-effects" in d.grants)
    && (t.category.Publishing? || t.risk.HighRisk? || t.risk.CriticalRisk? ==>
          exists id :: id in t.requiredApprovalIds && id in d.grants)
    && IsApproved(d, t)
  }

  /** Whatever request is answered with an allowed delegation, its target is cleared. */
  lemma AllowedMeansCleared(d: Delegation)
    requires EvaluateDelegation(d).Answered? && EvaluateDelegation(d).ruling.verdict.Allowed?
    ensures exists t :: Cleared(d, t)
  {
    assert OneTargetPerAgent(d) by {
      hide DelegationId, SpecificationId, Identifiers, G.DecisionAccepted, TargetAccepted;
      TargetsAreDistinct(d.policy.allowedTargets);
    }
    VerdictExactly(d);
    hide Rule, RulingAccepted, IsApproved, DelegationId, SpecificationId, Identifiers, G.DecisionAccepted, Cleared,
         OneTargetPerAgent;
    var t :| Eligible(d, t) && IsApproved(d, t) && !Reserved(d.guardian.value.kind);
    EligibleIsCleared(d, t);
  }

  lemma EligibleIsCleared(d: Delegation, t: Target)
    requires RequestAccepted(d) && Eligible(d, t) && IsApproved(d, t)
    requires d.guardian.Some? ==> !Reserved(d.guardian.value.kind)
    ensures Cleared(d, t)
  {
    hide DelegationId, SpecificationId, Identifiers, G.DecisionAccepted;
    assert TargetAccepted(t, d.policy.forbiddenCategories);
    assert forall id :: id in t.requiredApprovalIds ==> id in d.grants;
    if t.requiredApprovalIds != [] {
      assert t.requiredApprovalIds[0] in t.requiredApprovalIds;
    }
  }

  lemma TargetsAreDistinct(targets: seq<Target>)
    requires forall i, j :: 0 <= i < j < |targets| ==> targets[i].agentId != targets[j].agentId
    ensures forall t, u :: t in targets && u in targets && t.agentId == u.agentId ==> t == u
  {
  }

  // ------------------------------------------------------------------- its own consultation

  /** A request that brings no consultation is accepted exactly when it is with the one that the
      consultation's evaluator gives it. */
  lemma ConsultedIsAccepted(d: Delegation, risk: RiskLevel, report: Option<Report>, policy: Policy)
    requires RequestAccepted(d.(guardian := None)) && G.PolicyAccepted(policy)
    requires report.Some? ==> G.ReportAccepted(report.value)
    ensures RequestAccepted(Consulted(d, risk, report, policy))
  {
    G.EvaluatedIsAccepted(Request(d.operations, risk, report), policy);
    hide Evaluate, ProfileAccepted, Identifiers, DelegationId, SpecificationId, G.DecisionAccepted, G.PolicyAccepted,
         G.ReportAccepted;
  }

  lemma OwnWordsAreUnmarked(r: Request, policy: Policy)
    ensures forall b :: b in Evaluate(r, policy).blockers ==> !b.Said?
    ensures forall a :: a in Evaluate(r, policy).advice ==> !a.Advised?
  {
    G.ChoiceBlockers(r, policy);
    hide Choose, RequiredApprovals, MissingDomains, CheckedDomains;
  }

  lemma OwnTextsAreUnmarked(d: Delegation)
    requires d.guardian.Some?
    requires forall b :: b in d.guardian.value.blockers ==> !b.Said?
    requires forall a :: a in d.guardian.value.advice ==> !a.Advised?
    ensures !TextMarked(d)
  {
    hide ReachesGuardian, PassesGuardian, ApprovalIds, FindTarget, HasWord;
  }

  /** The policy requires an approval for an operation asked for whose identifier carries a marker. */
  predicate PolicyMarked(operations: seq<Operation>, policy: Policy) {
    exists a :: a in policy.requiredApprovals && a.operation in operations && !DelegationSafe(a.approvalId)
  }

  lemma OwnApprovalsMarked(d: Delegation, policy: Policy)
    requires d.guardian.Some?
    requires forall a :: a in d.guardian.value.requiredApprovals <==>
                         a in policy.requiredApprovals && a.operation in d.operations
    ensures ApprovalMarked(d) <==> PassesGuardian(d) && PolicyMarked(d.operations, policy)
  {
    hide PassesGuardian, DelegationSafe, FindTarget;
    if PassesGuardian(d) {
      var t := FoundTarget(d);
      forall a | a in d.guardian.value.requiredApprovals
        ensures Relevant(d, t, a)
      {
      }
    }
  }

  function FoundTarget(d: Delegation): (t: Target)
    requires PassesGuardian(d)
    ensures FindTarget(d) == Some(t)
  {
    FindTarget(d).value
  }

  /** With the consultation of the same operations, only a marked approval of the consultation's
      policy is left: for an operation asked for, once the request is past the guardian. */
  lemma OwnConsultationAnsweredExactly(d: Delegation, risk: RiskLevel, report: Option<Report>, policy: Policy)
    requires RequestAccepted(d.(guardian := None)) && G.PolicyAccepted(policy)
    requires report.Some? ==> G.ReportAccepted(report.value)
    ensures
      var c := Consulted(d, risk, report, policy);
      EvaluateDelegation(c).Answered? <==> !(PassesGuardian(c) && PolicyMarked(d.operations, policy))
  {
    var c, r := Consulted(d, risk, report, policy), Request(d.operations, risk, report);
    ConsultedIsAccepted(d, risk, report, policy);
    AnsweredExactly(c);
    EvaluateFacts(r, policy);
    OwnWordsAreUnmarked(r, policy);
    hide Evaluate, KindOf, EvaluateDelegation, RequestAccepted, PassesGuardian, ReachesGuardian, PolicyMarked,
         TextMarked, ApprovalMarked, MissingDomains, CheckedDomains, G.PolicyAccepted, G.ReportAccepted;
    OwnTextsAreUnmarked(c);
    OwnApprovalsMarked(c, policy);
  }

  // ------------------------------------------------------------------- inputs

  // A developer to be delegated one tool execution, for which the approval was granted.
  const DEVELOPER := Target("dev", Implementation, LowRisk, [], [OperatorSafety, SecurityDomain, BackupDomain], [])
  const PROFILE := Profile([DEVELOPER], [ExternalCommunication, SalesOutreach, ToolAgent], 1, true, true, true)
  const TOOL_RUN: Delegation := Delegation("dev", Implementation, [ToolExecution], [], 0, ["run"], None, PROFILE)
  const ATTENTION := Report(AttentionRequired, ContinueWithAttention, [SecurityDomain, BackupDomain], [])
  const UNFLAGGED: Policy := Policy(false, true, true, true, [Approval("run", ToolExecution)], [])

  lemma DeveloperIsAccepted()
    ensures TargetAccepted(DEVELOPER, PROFILE.forbiddenCategories)
  {
    NamesAreAccepted();
    hide DelegationId, SpecificationId;
    var domains := DEVELOPER.requiredGuardianDomains;
    assert domains[0] == OperatorSafety && domains[1] == SecurityDomain && domains[2] == BackupDomain;
    assert NoRepeats(domains);
  }

  lemma ProfileIsAccepted()
    ensures ProfileAccepted(PROFILE)
  {
    hide TargetAccepted;
    DeveloperIsAccepted();
    var forbidden := PROFILE.forbiddenCategories;
    assert forbidden[0] == ExternalCommunication && forbidden[1] == SalesOutreach && forbidden[2] == ToolAgent;
    assert NoRepeats(forbidden);
  }

  /** The program accepts it, with any consultation its validator accepts, and the operations left out. */
  lemma ToolRunIsAccepted(guardian: Option<Decision>)
    requires guardian.Some? ==> G.DecisionAccepted(guardian.value)
    ensures RequestAccepted(TOOL_RUN.(guardian := guardian))
    ensures RequestAccepted(TOOL_RUN.(guardian := guardian, operations := []))
    ensures FindTarget(TOOL_RUN) == Some(DEVELOPER)
  {
    ProfileIsAccepted();
    NamesAreAccepted();
    hide DelegationId, SpecificationId, Identifiers, ProfileAccepted, G.DecisionAccepted;
    assert NoRepeats([ToolExecution]) && NoRepeats<Operation>([]);
    assert TOOL_RUN.grants == ["run"] && TOOL_RUN.operations == [ToolExecution];
    assert FindTarget(TOOL_RUN) == Some(DEVELOPER);
    hide NoRepeats, FindTarget;
  }

  lemma NamesAreAccepted()
    ensures DelegationId("dev") && SpecificationId("dev") && Identifiers(["run"]) && Identifiers([])
  {
    ShortIsSafe("dev");
    ShortIsSafe("run");
    hide DelegationSafe;
    PlainLetters("dev");
    PlainLetters("run");
    OneIdentifier("run");
  }

  lemma OneIdentifier(s: string)
    requires DelegationId(s)
    ensures Identifiers([s])
  {
    hide DelegationId;
  }

  lemma PlainLetters(s: string)
    requires 1 <= |s| <= 160 && forall i :: 0 <= i < |s| ==> 'a' <= s[i] <= 'z'
    ensures GuardianId(s) && SpecificationId(s)
  {
    forall i | 0 <= i < |s|
      ensures !IsSpace(s[i]) && LowerOrDigit(s[i])
    {
      assert 'a' <= s[i] <= 'z';
    }
    hide IsSpace, LowerOrDigit;
  }

  const SILENT: Decision :=
    Decision(Blocked, false, false, [], [], [], [], Some(Healthy), Some(SafeToContinue), [])

  /** An accepted request whose supplied consultation says no more than that it blocks. */
  lemma ReasonlessBlockIsRefused()
    ensures
      var d := TOOL_RUN.(guardian := Some(SILENT));
      RequestAccepted(d) && !Consistent(Rule(d)) && EvaluateDelegation(d) == RulingRefused
  {
    var d := TOOL_RUN.(guardian := Some(SILENT));
    assert G.DecisionAccepted(SILENT);
    ToolRunIsAccepted(Some(SILENT));
    assert FindTarget(d) == FindTarget(TOOL_RUN);
    AnsweredExactly(d);
    InconsistentExactly(d);
    hide RequestAccepted, Rule, Consistent, RulingAccepted, FindTarget;
  }

  lemma NothingMissing(r: Request, policy: Policy)
    requires r.report.Some? && policy.safetyRequirements == []
    ensures MissingDomains(r, policy) == []
  {
    var missing := MissingDomains(r, policy);
    HasMember(missing);
    forall d
      ensures d !in missing
    {
      DomainMissing(r, policy, d);
      EveryDomainIsOrdered(d);
    }
  }

  lemma DomainsAreChecked()
    ensures forall x :: x in DEVELOPER.requiredGuardianDomains ==> x in CheckedDomains(Some(ATTENTION))
  {
    EveryDomainIsOrdered(OperatorSafety);
    EveryDomainIsOrdered(SecurityDomain);
    EveryDomainIsOrdered(BackupDomain);
    assert ATTENTION.includedGuardians[0] == SecurityDomain && ATTENTION.includedGuardians[1] == BackupDomain;
  }

  /** One approval, for executing tools. */
  predicate OneApproval(policy: Policy, id: string) {
    policy == UNFLAGGED.(requiredApprovals := [Approval(id, ToolExecution)])
  }

  lemma ToolRunApprovals(policy: Policy, id: string)
    requires OneApproval(policy, id)
    ensures forall a :: a in RequiredApprovals(Request([ToolExecution], Risky, Some(ATTENTION)), policy) <==>
                        a == Approval(id, ToolExecution)
    ensures RequiredApprovals(Request([ToolExecution], Risky, Some(ATTENTION)), policy) != []
    ensures RequiredApprovals(Request([], Risky, Some(ATTENTION)), policy) == []
  {
    var q := Request([ToolExecution], Risky, Some(ATTENTION));
    assert policy.requiredApprovals[0] in policy.requiredApprovals;
    assert policy.requiredApprovals[0] in RequiredApprovals(q, policy);
  }

  /** With the report, the run is past the guardian, who wants that one approval. */
  lemma ToolRunPasses(policy: Policy, id: string)
    requires OneApproval(policy, id)
    ensures
      var c := Consulted(TOOL_RUN, Risky, Some(ATTENTION), policy);
      && PassesGuardian(c) && FindTarget(c) == Some(DEVELOPER) && c.guardian.value.kind.RequiresApproval?
      && (forall a :: a in c.guardian.value.requiredApprovals <==> a == Approval(id, ToolExecution))
    ensures RequiredApprovals(Request([], Risky, Some(ATTENTION)), policy) == []
  {
    var q := Request([ToolExecution], Risky, Some(ATTENTION));
    DomainsAreChecked();
    hide Evaluate, MissingDomains, CheckedDomains, RequiredApprovals;
    NothingMissing(q, policy);
    ToolRunApprovals(policy, id);
    EvaluateFacts(q, policy);
    assert FindTarget(Consulted(TOOL_RUN, Risky, Some(ATTENTION), policy)) == Some(DEVELOPER);
    hide FindTarget;
  }

  lemma InputsAreAccepted(policy: Policy, id: string)
    requires OneApproval(policy, id) && GuardianId(id)
    ensures G.PolicyAccepted(policy) && G.ReportAccepted(ATTENTION)
    ensures RequestAccepted(TOOL_RUN) && RequestAccepted(TOOL_RUN.(operations := []))
  {
    ToolRunIsAccepted(None);
    hide RequestAccepted, GuardianId;
  }

  lemma HasSecret()
    ensures GuardianId("rotate-secret") && HasWord("rotate-secret", "secret")
  {
    var s := "rotate-secret";
    assert s[6] == '-' && |s| == 13;
    assert s[7..13] == "secret";
    assert WordAt(s, "secret", 7);
  }

  /** A policy of the consultation that its validator accepts, with an approval named after a secret:
      the consultation is answered, the delegation that repeats the name is not. */
  lemma MarkedApprovalIsRefused()
    ensures
      var policy := UNFLAGGED.(requiredApprovals := [Approval("rotate-secret", ToolExecution)]);
      var c := Consulted(TOOL_RUN, Risky, Some(ATTENTION), policy);
      && G.PolicyAccepted(policy) && G.ReportAccepted(ATTENTION) && RequestAccepted(c)
      && Consistent(Rule(c)) && EvaluateDelegation(c) == RulingRefused
  {
    var policy := UNFLAGGED.(requiredApprovals := [Approval("rotate-secret", ToolExecution)]);
    HasSecret();
    MarkedIsUnsafe("rotate-secret");
    hide HasWord, RequestAccepted, Rule, Consistent, Evaluate, PassesGuardian, G.PolicyAccepted, G.ReportAccepted,
         RulingAccepted, DelegationSafe, GuardianId;
    InputsAreAccepted(policy, "rotate-secret");
    ToolRunPasses(policy, "rotate-secret");
    assert policy.requiredApprovals[0] == Approval("rotate-secret", ToolExecution);
    assert TOOL_RUN.operations[0] == ToolExecution && TOOL_RUN.(guardian := None) == TOOL_RUN;
    assert PolicyMarked(TOOL_RUN.operations, policy);
    ConsultedIsAccepted(TOOL_RUN, Risky, Some(ATTENTION), policy);
    OwnConsultationAnsweredExactly(TOOL_RUN, Risky, Some(ATTENTION), policy);
    RulingsAreConsistent(TOOL_RUN, Risky, Some(ATTENTION), policy);
  }

  lemma MarkedIsUnsafe(s: string)
    requires HasWord(s, "secret")
    ensures !DelegationSafe(s)
  {
    hide HasWord, HasKey;
  }

  lemma IsTransportInternals()
    ensures GuardianText("transportInternals") && HasWord("transportInternals", "transportInternals")
  {
    var s := "transportInternals";
    assert s[0..|s|] == s;
    assert WordAt(s, s, 0);
    assert !IsSpace(s[0]);
    OtherwiseUnmarked();
    hide GuardianSafe;
  }

  lemma OtherwiseUnmarked()
    ensures GuardianSafe("transportInternals")
  {
    var s := "transportInternals";
    hide HasWord, HasKey;
    assert forall i: nat :: i < |s| ==> s[i] !in "cPwk";
    LetterMissing(s, "secret", 2);
    LetterMissing(s, "secretRef", 2);
    LetterMissing(s, "secretReference", 2);
    LetterMissing(s, "secretValue", 2);
    LetterMissing(s, "providerPayload", 8);
    LetterMissing(s, "rawKnowledge", 2);
    LetterMissing(s, "rawMemory", 2);
    LetterMissing(s, "rawTranscript", 2);
    NoKey(s);
  }

  const TELLING: Decision := SILENT.(blockers := [Said("transportInternals")])

  /** A supplied consultation, which its own validator accepts, whose one blocker says the word. */
  lemma MarkedBlockerIsRefused()
    ensures
      var d := TOOL_RUN.(guardian := Some(TELLING));
      RequestAccepted(d) && Consistent(Rule(d)) && EvaluateDelegation(d) == RulingRefused
  {
    var d := TOOL_RUN.(guardian := Some(TELLING));
    IsTransportInternals();
    hide HasWord, GuardianText;
    assert TELLING.blockers[0] == Said("transportInternals");
    assert G.DecisionAccepted(TELLING);
    ToolRunIsAccepted(Some(TELLING));
    assert FindTarget(d) == FindTarget(TOOL_RUN);
    assert BlockerMarked(TELLING.blockers[0]) && TextMarked(d);
    AnsweredExactly(d);
    InconsistentExactly(d);
    hide RequestAccepted, Rule, Consistent, RulingAccepted, FindTarget;
  }

  /** Asking for less can lose a delegation: without operations no approval is required, so the
      warning that the approval had superseded comes back.  Both requests are accepted and answered. */
  lemma LessCanBeRefused()
    ensures
      var whole := Consulted(TOOL_RUN, Risky, Some(ATTENTION), UNFLAGGED);
      var part := Consulted(TOOL_RUN.(operations := []), Risky, Some(ATTENTION), UNFLAGGED);
      && G.PolicyAccepted(UNFLAGGED) && G.ReportAccepted(ATTENTION)
      && EvaluateDelegation(whole) == Answered(Rule(whole)) && Rule(whole).verdict.Allowed?
      && EvaluateDelegation(part) == Answered(Rule(part)) && !Rule(part).verdict.Allowed?
  {
    ToolRunIsAllowed();
    ToolRunIsAnswered();
    hide Rule, Evaluate, RequestAccepted, RulingAccepted, RequiredApprovals, G.PolicyAccepted, G.ReportAccepted;
    ToolRunPasses(UNFLAGGED, "run");
    SubsetRefusedExactly(TOOL_RUN, [], Risky, Some(ATTENTION), UNFLAGGED);
  }

  lemma AllowedOnceGranted(d: Delegation, t: Target, id: string)
    requires PassesGuardian(d) && FindTarget(d) == Some(t) && d.guardian.value.kind.RequiresApproval?
    requires t.requiredApprovalIds == [] && !t.category.Publishing? && id in d.grants
    requires forall a :: a in d.guardian.value.requiredApprovals ==> a.approvalId == id
    ensures Rule(d).verdict.Allowed?
  {
    assert forall x :: x in ApprovalIds(d, t) ==> x == id;
    NothingUnchecked(t, d.guardian);
    TargetVerdict(d, t);
    assert Refusal(d).None?;
    hide FindTarget, ApprovalIds, UncheckedDomains, Refusal;
  }

  lemma ToolRunIsAllowed()
    ensures Rule(Consulted(TOOL_RUN, Risky, Some(ATTENTION), UNFLAGGED)).verdict.Allowed?
  {
    ToolRunPasses(UNFLAGGED, "run");
    hide Evaluate, RequiredApprovals, Rule, PassesGuardian, FindTarget;
    assert TOOL_RUN.grants[0] == "run";
    AllowedOnceGranted(Consulted(TOOL_RUN, Risky, Some(ATTENTION), UNFLAGGED), DEVELOPER, "run");
  }

  lemma ToolRunIsAnswered()
    ensures G.PolicyAccepted(UNFLAGGED) && G.ReportAccepted(ATTENTION)
    ensures EvaluateDelegation(Consulted(TOOL_RUN, Risky, Some(ATTENTION), UNFLAGGED)).Answered?
    ensures EvaluateDelegation(Consulted(TOOL_RUN.(operations := []), Risky, Some(ATTENTION), UNFLAGGED)).Answered?
  {
    ShortIsSafe("run");
    InputsAreAccepted(UNFLAGGED, "run");
    assert TOOL_RUN.(guardian := None) == TOOL_RUN;
    hide DelegationSafe, RequestAccepted, Evaluate, EvaluateDelegation, G.PolicyAccepted, G.ReportAccepted,
         PassesGuardian;
    assert forall a :: a in UNFLAGGED.requiredApprovals ==> a == Approval("run", ToolExecution);
    OwnConsultationAnsweredExactly(TOOL_RUN, Risky, Some(ATTENTION), UNFLAGGED);
    OwnConsultationAnsweredExactly(TOOL_RUN.(operations := []), Risky, Some(ATTENTION), UNFLAGGED);
  }
}
