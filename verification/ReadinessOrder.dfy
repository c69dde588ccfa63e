/** How src/assistants/agent-company-readiness-review-service.ts orders its findings, and how
    agent-company-readiness-review-validator.ts checks that order on joined keys. */
module ReadinessOrder {
  import opened Collation

  datatype Category =
    | ApprovalControl
    | ArtifactValidation
    | CapabilityCoverage
    | CapabilityOwnership
    | ControlPlaneCoverage
    | ExecutionSafety
    | GuardianControl
    | HandoffAlignment
    | HandoffCoverage
    | IdentifierConsistency
    | PermissionBoundary
    | PermissionCoverage
    | RedactionSafety
    | ResponsibilityCoverage
    | ResponsibilityOwnership
    | RoleCoverage
    | SpecificationCoverage

  function Name(c: Category): string {
    match c
    case ApprovalControl => "approval_control"
    case ArtifactValidation => "artifact_validation"
    case CapabilityCoverage => "capability_coverage"
    case CapabilityOwnership => "capability_ownership"
    case ControlPlaneCoverage => "control_plane_coverage"
    case ExecutionSafety => "execution_safety"
    case GuardianControl => "guardian_control"
    case HandoffAlignment => "handoff_alignment"
    case HandoffCoverage => "handoff_coverage"
    case IdentifierConsistency => "identifier_consistency"
    case PermissionBoundary => "permission_boundary"
    case PermissionCoverage => "permission_coverage"
    case RedactionSafety => "redaction_safety"
    case ResponsibilityCoverage => "responsibility_coverage"
    case ResponsibilityOwnership => "responsibility_ownership"
    case RoleCoverage => "role_coverage"
    case SpecificationCoverage => "specification_coverage"
  }

  datatype Severity = Critical | Warning | Info

  datatype Finding = Finding(category: Category, severity: Severity, findingId: string)

  // ------------------------------------------------------------------- no name begins another

  /** The first three characters of a name. */
  function Beginning(c: Category): (char, char, char) {
    match c
    case ApprovalControl => ('a', 'p', 'p')
    case ArtifactValidation => ('a', 'r', 't')
    case CapabilityCoverage => ('c', 'a', 'p')
    case CapabilityOwnership => ('c', 'a', 'p')
    case ControlPlaneCoverage => ('c', 'o', 'n')
    case ExecutionSafety => ('e', 'x', 'e')
    case GuardianControl => ('g', 'u', 'a')
    case HandoffAlignment => ('h', 'a', 'n')
    case HandoffCoverage => ('h', 'a', 'n')
    case IdentifierConsistency => ('i', 'd', 'e')
    case PermissionBoundary => ('p', 'e', 'r')
    case PermissionCoverage => ('p', 'e', 'r')
    case RedactionSafety => ('r', 'e', 'd')
    case ResponsibilityCoverage => ('r', 'e', 's')
    case ResponsibilityOwnership => ('r', 'e', 's')
    case RoleCoverage => ('r', 'o', 'l')
    case SpecificationCoverage => ('s', 'p', 'e')
  }

  lemma NameBegins(c: Category)
    ensures |Name(c)| >= 13 && Beginning(c) == (Name(c)[0], Name(c)[1], Name(c)[2])
  {
  }

  /** A position at which the names of two categories differ. */
  function Apart(a: Category, b: Category): nat {
    if Beginning(a).0 != Beginning(b).0 then 0
    else if Beginning(a).1 != Beginning(b).1 then 1
    else if Beginning(a).2 != Beginning(b).2 then 2
    else if a.HandoffAlignment? || a.HandoffCoverage? then 8
    else if a.ResponsibilityCoverage? || a.ResponsibilityOwnership? then 15
    else 11
  }

  /** No category's name begins another's. */
  lemma NamesArePrefixFree(a: Category, b: Category)
    requires a != b
    ensures Apart(a, b) < |Name(a)| && Apart(a, b) < |Name(b)| && Name(a)[Apart(a, b)] != Name(b)[Apart(a, b)]
  {
    hide Name, Beginning;
    NameBegins(a);
    NameBegins(b);
    if Beginning(a) == Beginning(b) {
      SameBeginning(a, b);
    }
  }

  lemma SameBeginning(a: Category, b: Category)
    requires a != b && Beginning(a) == Beginning(b)
    ensures Apart(a, b) < |Name(a)| && Apart(a, b) < |Name(b)| && Name(a)[Apart(a, b)] != Name(b)[Apart(a, b)]
  {
    match a {
      case CapabilityCoverage => assert b == CapabilityOwnership;
      case CapabilityOwnership => assert b == CapabilityCoverage;
      case HandoffAlignment => assert b == HandoffCoverage;
      case HandoffCoverage => assert b == HandoffAlignment;
      case PermissionBoundary => assert b == PermissionCoverage;
      case PermissionCoverage => assert b == PermissionBoundary;
      case ResponsibilityCoverage => assert b == ResponsibilityOwnership;
      case ResponsibilityOwnership => assert b == ResponsibilityCoverage;
      case _ =>
    }
  }

  // ------------------------------------------------------------------- comparing

  /** A collation that keeps the severity digits in order. */
  ghost predicate OrdersDigits(w: Weight) {
    Collates(w) && w('0') < w('1') < w('2')
  }

  function Rank(s: Severity): int {
    match s
    case Critical => 0
    case Warning => 1
    case Info => 2
  }

  function Digit(s: Severity): string {
    match s
    case Critical => "0"
    case Warning => "1"
    case Info => "2"
  }

  /** `compareFindings`. */
  function CompareFindings(w: Weight, l: Finding, r: Finding): int {
    if l.severity != r.severity then Rank(l.severity) - Rank(r.severity)
    else if CompareText(w, Name(l.category), Name(r.category)) != 0 then
      CompareText(w, Name(l.category), Name(r.category))
    else CompareText(w, l.findingId, r.findingId)
  }

  /** `findingSortKey`. */
  function Key(f: Finding): string {
    Digit(f.severity) + ":" + Name(f.category) + ":" + f.findingId
  }

  /** Because no category's name begins another's, comparing findings field by field and
      comparing their joined keys always agree. */
  lemma KeyOrderAgrees(w: Weight, l: Finding, r: Finding)
    requires OrdersDigits(w)
    ensures Sign(CompareFindings(w, l, r)) == CompareText(w, Key(l), Key(r))
  {
    var restL, restR := ":" + Name(l.category) + ":" + l.findingId, ":" + Name(r.category) + ":" + r.findingId;
    assert Key(l) == Digit(l.severity) + restL && Key(r) == Digit(r.severity) + restR;
    if l.severity != r.severity {
      CompareExtended(w, Digit(l.severity), Digit(r.severity), 0, restL, restR);
    } else {
      CompareSamePrefix(w, Digit(l.severity), restL, restR);
      WithinSeverity(w, l, r);
    }
  }

  lemma WithinSeverity(w: Weight, l: Finding, r: Finding)
    requires OrdersDigits(w) && l.severity == r.severity
    ensures Sign(CompareFindings(w, l, r))
            == CompareText(w, ":" + Name(l.category) + ":" + l.findingId, ":" + Name(r.category) + ":" + r.findingId)
  {
    hide Name;
    var a, b := Name(l.category), Name(r.category);
    var x, y := ":" + l.findingId, ":" + r.findingId;
    assert ":" + a + ":" + l.findingId == ":" + (a + x) && ":" + b + ":" + r.findingId == ":" + (b + y);
    CompareSamePrefix(w, ":", a + x, b + y);
    if l.category == r.category {
      CompareZero(w, a, b);
      CompareSamePrefix(w, a, x, y);
      CompareSamePrefix(w, ":", l.findingId, r.findingId);
    } else {
      NamesArePrefixFree(l.category, r.category);
      CompareZero(w, a, b);
      CompareExtended(w, a, b, Apart(l.category, r.category), x, y);
    }
  }

  /** A name that began another's would break the agreement: with a collation that puts `_`
      before `:`, `a` sorts before `a_b` but the key of `a` after that of `a_b`. */
  lemma PrefixesWouldDisagree(w: Weight)
    requires w('_') < w(':')
    ensures CompareText(w, "a", "a_b") < 0 < CompareText(w, "a" + ":x", "a_b" + ":x")
  {
    var s, t := "a" + ":x", "a_b" + ":x";
    assert s[1..] == ":x" && t[1..] == "_b:x";
    assert "a"[1..] == "" && "a_b"[1..] == "_b";
  }
}
