/** The readiness report: findings collected in a map, ordered, counted and scored
    (src/assistants/agent-company-readiness-review-service.ts), then checked by its validator
    (src/assistants/agent-company-readiness-review-validator.ts). */
module ReadinessReport {
  import opened Collections
  import opened Collation
  import opened StableSort
  import opened ReadinessOrder

  // ------------------------------------------------------------------- the two orders

  function ByFields(w: Weight): (Finding, Finding) -> int {
    (l: Finding, r: Finding) => CompareFindings(w, l, r)
  }

  function ByKey(w: Weight): (string, string) -> int {
    (a: string, b: string) => CompareText(w, a, b)
  }

  lemma FieldsArePreordered(w: Weight)
    requires OrdersDigits(w)
    ensures Preorder(ByFields(w))
  {
    forall a, b
      ensures ByFields(w)(a, b) <= 0 || ByFields(w)(b, a) <= 0
    {
      KeyOrderAgrees(w, a, b);
      KeyOrderAgrees(w, b, a);
      CompareReversed(w, Key(a), Key(b));
    }
    forall a, b, c | ByFields(w)(a, b) <= 0 && ByFields(w)(b, c) <= 0
      ensures ByFields(w)(a, c) <= 0
    {
      KeyOrderAgrees(w, a, b);
      KeyOrderAgrees(w, b, c);
      KeyOrderAgrees(w, a, c);
      CompareTransitive(w, Key(a), Key(b), Key(c));
    }
  }

  // ------------------------------------------------------------------- collecting findings

  function IdOf(f: Finding): string { f.findingId }

  /** `Map.set`: a known key keeps its place and takes the new value. */
  function Put(fs: seq<Finding>, f: Finding): seq<Finding> {
    if exists g :: g in fs && g.findingId == f.findingId then
      seq(|fs|, i requires 0 <= i < |fs| => if fs[i].findingId == f.findingId then f else fs[i])
    else fs + [f]
  }

  function Collected(added: seq<Finding>): seq<Finding> {
    if added == [] then [] else Put(Collected(added[..|added| - 1]), added[|added| - 1])
  }

  lemma {:induction false} CollectedIsUnique(added: seq<Finding>)
    ensures UniqueBy(Collected(added), IdOf)
  {
    if added != [] {
      CollectedIsUnique(added[..|added| - 1]);
    }
  }

  /** `g` was added, and nothing after it under its identifier. */
  predicate IsLast(added: seq<Finding>, g: Finding, i: nat) {
    i < |added| && added[i] == g && forall j :: i < j < |added| ==> added[j].findingId != g.findingId
  }

  /** Of the findings added under one identifier exactly the last one is collected. */
  lemma {:induction false} LastAddedStands(added: seq<Finding>, g: Finding)
    ensures g in Collected(added) <==> exists i :: IsLast(added, g, i)
  {
    if added != [] {
      var n := |added| - 1;
      var before, f := added[..n], added[n];
      LastAddedStands(before, g);
      PutMembers(Collected(before), f, g);
      if g == f {
        assert IsLast(added, g, n);
      } else {
        forall i: nat
          ensures IsLast(added, g, i) <==> IsLast(before, g, i) && g.findingId != f.findingId
        {
          assert i < n ==> before[i] == added[i];
          assert forall j :: i < j < n ==> before[j] == added[j];
        }
      }
    }
  }

  lemma PutMembers(fs: seq<Finding>, f: Finding, g: Finding)
    ensures g in Put(fs, f) <==> g == f || (g in fs && g.findingId != f.findingId)
  {
    var after := Put(fs, f);
    if (exists x :: x in fs && x.findingId == f.findingId) && (g == f || (g in fs && g.findingId != f.findingId)) {
      var x :| x in fs && x.findingId == f.findingId;
      var i :| 0 <= i < |fs| && fs[i] == if g == f then x else g;
      assert after[i] == g;
    }
  }

  // ------------------------------------------------------------------- the report

  datatype Status = NotReady | ReadyWithWarnings | Ready

  datatype Summary = Summary(
    critical: nat, warnings: nat, informational: nat, total: nat, artifacts: nat, score: int, status: Status)

  datatype Report = Report(findings: seq<Finding>, artifacts: nat, summary: Summary)

  const EVALUATED_ARTIFACTS: nat := 6

  function Count(fs: seq<Finding>, s: Severity): (n: nat)
    ensures n <= |fs|
  {
    if fs == [] then 0 else Count(fs[1..], s) + if fs[0].severity == s then 1 else 0
  }

  function StatusFor(critical: nat, warnings: nat): Status {
    if critical > 0 then NotReady else if warnings > 0 then ReadyWithWarnings else Ready
  }

  function Score(critical: nat, warnings: nat): int {
    var n := 100 - critical * 20 - warnings * 5;
    if n < 0 then 0 else n
  }

  function ReportOf(w: Weight, collected: seq<Finding>): Report {
    var fs := Sort(collected, ByFields(w));
    var critical, warnings := Count(fs, Critical), Count(fs, Warning);
    Report(fs, EVALUATED_ARTIFACTS,
           Summary(critical, warnings, Count(fs, Info), |fs|, EVALUATED_ARTIFACTS, Score(critical, warnings),
                   StatusFor(critical, warnings)))
  }

  function Keys(fs: seq<Finding>): seq<string> {
    seq(|fs|, i requires 0 <= i < |fs| => Key(fs[i]))
  }

  /** The findings of one severity, as the validator selects them. */
  function OfSeverity(fs: seq<Finding>, s: Severity): seq<Finding> {
    Filter(fs, (f: Finding) => f.severity == s)
  }

  lemma {:induction false} CountSelects(fs: seq<Finding>, s: Severity)
    ensures Count(fs, s) == |OfSeverity(fs, s)|
  {
    if fs != [] {
      CountSelects(fs[1..], s);
    }
  }

  /** What the validator asks of a report: order on joined keys, distinct identifiers, and a summary
      that agrees with the findings it selects by severity. */
  ghost predicate Accepted(w: Weight, r: Report) {
    var critical, warnings := |OfSeverity(r.findings, Critical)|, |OfSeverity(r.findings, Warning)|;
    && Keys(r.findings) == Sort(Keys(r.findings), ByKey(w))
    && UniqueBy(r.findings, IdOf)
    && r.summary.critical == critical && r.summary.warnings == warnings
    && r.summary.informational == |OfSeverity(r.findings, Info)|
    && r.summary.total == |r.findings| == critical + warnings + r.summary.informational
    && r.summary.artifacts == r.artifacts
    && 0 <= r.summary.score <= 100
    && (r.summary.score == 100 - 20 * critical - 5 * warnings
        || (r.summary.score == 0 && 20 * critical + 5 * warnings > 100))
    && (r.summary.status.NotReady? <==> critical > 0)
    && (r.summary.status.Ready? <==> critical == 0 && warnings == 0)
  }

  /** Every finding has one of the three severities. */
  lemma {:induction false} CountsAddUp(fs: seq<Finding>)
    ensures Count(fs, Critical) + Count(fs, Warning) + Count(fs, Info) == |fs|
  {
    if fs != [] {
      CountsAddUp(fs[1..]);
    }
  }

  lemma SummaryIsCoherent(fs: seq<Finding>)
    ensures Count(fs, Critical) == |OfSeverity(fs, Critical)| && Count(fs, Warning) == |OfSeverity(fs, Warning)|
    ensures Count(fs, Info) == |OfSeverity(fs, Info)|
    ensures Count(fs, Critical) + Count(fs, Warning) + Count(fs, Info) == |fs|
  {
    CountSelects(fs, Critical);
    CountSelects(fs, Warning);
    CountSelects(fs, Info);
    CountsAddUp(fs);
  }

  lemma KeysAreOrdered(w: Weight, fs: seq<Finding>)
    requires OrdersDigits(w) && Ordered(fs, ByFields(w))
    ensures Ordered(Keys(fs), ByKey(w))
  {
    hide Key, CompareFindings, CompareText;
    var keys := Keys(fs);
    forall i, j | 0 <= i < j < |keys|
      ensures ByKey(w)(keys[i], keys[j]) <= 0
    {
      KeyOrderAgrees(w, fs[i], fs[j]);
      assert ByFields(w)(fs[i], fs[j]) <= 0;
    }
  }

  /** Whatever findings the evaluation added, in whatever order and however often, the report meets
      these clauses of its own validator. */
  lemma ReportIsAccepted(w: Weight, added: seq<Finding>)
    requires OrdersDigits(w)
    ensures Accepted(w, ReportOf(w, Collected(added)))
  {
    hide Collected, UniqueBy, Ordered, Sort, ByFields, ByKey, Keys, Count, OrdersDigits, Preorder;
    var fs := Sort(Collected(added), ByFields(w));
    CollectedIsUnique(added);
    SortKeepsUnique(Collected(added), ByFields(w), IdOf);
    FieldsArePreordered(w);
    SortOrders(Collected(added), ByFields(w));
    KeysAreOrdered(w, fs);
    SortedStays(Keys(fs), ByKey(w));
    SummaryIsCoherent(fs);
    hide OfSeverity;
  }

  // ------------------------------------------------------------------- one report per set of findings

  /** Findings with distinct identifiers never tie. */
  lemma SortedIsStrict(w: Weight, fs: seq<Finding>)
    requires OrdersDigits(w) && UniqueBy(fs, IdOf)
    ensures StrictlyOrdered(Sort(fs, ByFields(w)), ByFields(w))
  {
    var sorted := Sort(fs, ByFields(w));
    FieldsArePreordered(w);
    SortOrders(fs, ByFields(w));
    SortKeepsUnique(fs, ByFields(w), IdOf);
    hide Sort, Key, CompareFindings;
    forall i, j | 0 <= i < j < |sorted|
      ensures ByFields(w)(sorted[i], sorted[j]) < 0
    {
      assert ByFields(w)(sorted[i], sorted[j]) <= 0 && IdOf(sorted[i]) != IdOf(sorted[j]);
      TiesShareIdentity(w, sorted[i], sorted[j]);
    }
  }

  lemma TiesShareIdentity(w: Weight, l: Finding, r: Finding)
    requires OrdersDigits(w)
    ensures CompareFindings(w, l, r) == 0 ==> l.findingId == r.findingId
  {
    CompareZero(w, l.findingId, r.findingId);
  }

  lemma FieldsAreAsymmetric(w: Weight)
    requires OrdersDigits(w)
    ensures Asymmetric(ByFields(w))
  {
    forall a, b | ByFields(w)(a, b) < 0
      ensures !(ByFields(w)(b, a) < 0) && a != b
    {
      KeyOrderAgrees(w, a, b);
      KeyOrderAgrees(w, b, a);
      CompareReversed(w, Key(a), Key(b));
    }
  }

  /** The report depends only on which findings there are, not on the order in which the
      evaluation came across them. */
  lemma ReportIsCanonical(w: Weight, a: seq<Finding>, b: seq<Finding>)
    requires OrdersDigits(w) && UniqueBy(a, IdOf) && UniqueBy(b, IdOf) && SameMembers(a, b)
    ensures ReportOf(w, a) == ReportOf(w, b)
  {
    hide OrdersDigits, UniqueBy, StrictlyOrdered, Asymmetric, SameMembers, ByFields, Count;
    SortedIsStrict(w, a);
    SortedIsStrict(w, b);
    FieldsAreAsymmetric(w);
    SortIsCanonical(a, b, ByFields(w));
  }

  // ------------------------------------------------------------------- the loops

  /** The evaluation's last part, fed with the findings its rules add one after the other. */
  method Evaluate(w: Weight, added: seq<Finding>) returns (report: Report)
    requires OrdersDigits(w)
    ensures report == ReportOf(w, Collected(added))
    ensures Accepted(w, report)
  {
    var findings: seq<Finding> := [];
    for i := 0 to |added|
      invariant findings == Collected(added[..i])
    {
      assert added[..i + 1][..i] == added[..i];
      findings := Put(findings, added[i]);
    }
    assert added[..|added|] == added;
    ReportIsAccepted(w, added);
    report := ReportOf(w, findings);
  }

  predicate Repeated(values: seq<string>, v: string) {
    exists i, j :: 0 <= i < j < |values| && values[i] == v && values[j] == v
  }

  /** `reportDuplicates`: every value that occurs more than once is reported, and only once. */
  method ReportDuplicates(values: seq<string>) returns (reported: seq<string>)
    ensures forall v :: v in reported <==> Repeated(values, v)
    ensures forall i, j :: 0 <= i < j < |reported| ==> reported[i] != reported[j]
  {
    reported := [];
    var seen: set<string> := {};
    for i := 0 to |values|
      invariant forall v :: v in seen <==> v in values[..i]
      invariant forall v :: v in reported <==> Repeated(values[..i], v)
      invariant forall i, j :: 0 <= i < j < |reported| ==> reported[i] != reported[j]
    {
      OneMoreValue(values[..i], values[i]);
      assert values[..i + 1] == values[..i] + [values[i]];
      if values[i] in seen && values[i] !in reported {
        reported := reported + [values[i]];
      }
      seen := seen + {values[i]};
    }
    assert values[..|values|] == values;
  }

  lemma OneMoreValue(values: seq<string>, x: string)
    ensures forall v :: Repeated(values + [x], v) <==> Repeated(values, v) || (v == x && x in values)
  {
    forall v
      ensures Repeated(values + [x], v) <==> Repeated(values, v) || (v == x && x in values)
    {
      var all, n := values + [x], |values|;
      if Repeated(values, v) {
        var i, j :| 0 <= i < j < n && values[i] == v && values[j] == v;
        assert all[i] == v && all[j] == v;
      }
      if v == x && x in values {
        var i :| 0 <= i < n && values[i] == x;
        assert all[i] == v && all[n] == v;
      }
      if Repeated(all, v) {
        var i, j :| 0 <= i < j < |all| && all[i] == v && all[j] == v;
        assert values[i] == v;
        if j < n {
          assert values[j] == v;
        }
      }
    }
  }

  // ------------------------------------------------------------------- identifiers

  predicate IdChar(c: char) {
    'a' <= c <= 'z' || '0' <= c <= '9' || c == '-'
  }

  function Lower(c: char): char {
    if 'A' <= c <= 'Z' then (c as int + 32) as char else c
  }

  /** Lower case, with each run of other characters turned into one `-`. */
  function Dashed(s: string, inRun: bool): string {
    if s == "" then ""
    else if IdChar(Lower(s[0])) then [Lower(s[0])] + Dashed(s[1..], false)
    else if inRun then Dashed(s[1..], true)
    else "-" + Dashed(s[1..], true)
  }

  function TrimLeft(s: string): string {
    if s != "" && s[0] == '-' then TrimLeft(s[1..]) else s
  }

  function TrimRight(s: string): string {
    if s != "" && s[|s| - 1] == '-' then TrimRight(s[..|s| - 1]) else s
  }

  function SafeId(code: string): string {
    var s := TrimRight(TrimLeft(Dashed(code, false)));
    var cut := if |s| <= 80 then s else s[..80];
    if cut == "" then "unknown" else cut
  }

  /** `addFinding`: the identifier names the category, then the code. */
  function FindingFor(category: Category, code: string): Finding {
    Finding(category, Critical, Name(category) + ":" + SafeId(code))
  }

  predicate AllIdChars(s: string) {
    forall i :: 0 <= i < |s| ==> IdChar(s[i])
  }

  lemma {:induction false} DashedIsSafe(s: string, inRun: bool)
    ensures AllIdChars(Dashed(s, inRun))
  {
    if s != "" {
      DashedIsSafe(s[1..], false);
      DashedIsSafe(s[1..], true);
    }
  }

  lemma {:induction false} TrimLeftIsSafe(s: string)
    requires AllIdChars(s)
    ensures AllIdChars(TrimLeft(s)) && (TrimLeft(s) != "" ==> TrimLeft(s)[0] != '-')
  {
    if s != "" && s[0] == '-' {
      TrimLeftIsSafe(s[1..]);
    }
  }

  lemma {:induction false} TrimRightIsSafe(s: string)
    requires AllIdChars(s)
    ensures AllIdChars(TrimRight(s)) && TrimRight(s) <= s
  {
    if s != "" && s[|s| - 1] == '-' {
      TrimRightIsSafe(s[..|s| - 1]);
    }
  }

  lemma SafeIdIsSafe(code: string)
    ensures 1 <= |SafeId(code)| <= 80 && AllIdChars(SafeId(code)) && SafeId(code)[0] != '-'
  {
    DashedIsSafe(code, false);
    TrimLeftIsSafe(Dashed(code, false));
    TrimRightIsSafe(TrimLeft(Dashed(code, false)));
    hide Dashed, TrimLeft, TrimRight;
  }

  /** A code that is an identifier already stays as it is. */
  lemma SafeIdKeeps(code: string)
    requires AllIdChars(code) && 1 <= |code| <= 80 && code[0] != '-' && code[|code| - 1] != '-'
    ensures SafeId(code) == code
  {
    DashedKeeps(code, false);
  }

  lemma {:induction false} DashedKeeps(s: string, inRun: bool)
    requires AllIdChars(s)
    ensures Dashed(s, inRun) == s
  {
    if s != "" {
      assert s == [s[0]] + s[1..];
      DashedKeeps(s[1..], false);
    }
  }

  /** Letters and digits, by their codes. */
  predicate IsWord(s: string) {
    && s != ""
    && forall i :: 0 <= i < |s| ==> 48 <= s[i] as int <= 57 || 65 <= s[i] as int <= 90 || 97 <= s[i] as int <= 122
  }

  /** No character of an identifier, in either case. */
  predicate IsGap(s: string) {
    && s != ""
    && forall i :: 0 <= i < |s| ==>
         && !(48 <= s[i] as int <= 57) && !(65 <= s[i] as int <= 90) && !(97 <= s[i] as int <= 122)
         && s[i] as int != 45
  }

  /** `s` in lower case. */
  predicate InLowerCase(s: string, low: string) {
    && |low| == |s|
    && forall i :: 0 <= i < |s| ==>
         low[i] as int == if 65 <= s[i] as int <= 90 then s[i] as int + 32 else s[i] as int
  }

  lemma {:induction false} DashedWord(a: string, rest: string, inRun: bool) returns (low: string)
    requires IsWord(a)
    ensures InLowerCase(a, low) && Dashed(a + rest, inRun) == low + Dashed(rest, false)
  {
    assert (a + rest)[1..] == a[1..] + rest;
    if |a| == 1 {
      low := [Lower(a[0])];
      assert a[1..] + rest == rest;
    } else {
      var tail := DashedWord(a[1..], rest, false);
      low := [Lower(a[0])] + tail;
      assert low + Dashed(rest, false) == [Lower(a[0])] + (tail + Dashed(rest, false));
    }
  }

  lemma {:induction false} DashedGap(gap: string, rest: string, inRun: bool)
    requires IsGap(gap)
    ensures Dashed(gap + rest, inRun) == (if inRun then "" else "-") + Dashed(rest, true)
  {
    assert (gap + rest)[1..] == gap[1..] + rest;
    if |gap| == 1 {
      assert gap[1..] + rest == rest;
    } else {
      DashedGap(gap[1..], rest, true);
    }
  }

  /** Two words with anything between them become one identifier: both in lower case, and one dash for
      the whole gap. */
  lemma SafeIdJoins(a: string, gap: string, b: string) returns (first: string, second: string)
    requires IsWord(a) && IsGap(gap) && IsWord(b) && |a| + 1 + |b| <= 80
    ensures InLowerCase(a, first) && InLowerCase(b, second) && SafeId(a + gap + b) == first + "-" + second
  {
    var code := a + gap + b;
    first := DashedWord(a, gap + b, false);
    DashedGap(gap, b, false);
    second := DashedWord(b, "", true);
    assert b + "" == b && code == a + (gap + b);
    assert Dashed("", false) == "" && second + "" == second;
    var joined := first + "-" + second;
    assert first + ("-" + second) == joined;
    assert joined[0] == first[0] && joined[|joined| - 1] == second[|second| - 1];
  }

  /** `IDENTIFIER_PATTERN` and the length check of the validator. */
  predicate FindingIdAccepted(id: string) {
    && 1 <= |id| <= 196 && IdChar(id[0]) && id[0] != '-'
    && forall i :: 0 <= i < |id| ==> IdChar(id[i]) || id[i] in "@._:"
  }

  /** Every finding gets an identifier that the validator's length and pattern checks take, and two
      findings of different categories never share one. */
  lemma IdentifiersAreAcceptable(c: Category, code: string, d: Category, other: string)
    ensures FindingIdAccepted(FindingFor(c, code).findingId)
    ensures c != d ==> FindingFor(c, code).findingId != FindingFor(d, other).findingId
  {
    hide Name, SafeId, AllIdChars, Apart;
    IdentifierIsAccepted(c, code);
    if c != d {
      NamesArePrefixFree(c, d);
      var k := Apart(c, d);
      assert FindingFor(c, code).findingId[k] == Name(c)[k] && FindingFor(d, other).findingId[k] == Name(d)[k];
    }
  }

  lemma IdentifierIsAccepted(c: Category, code: string)
    ensures FindingIdAccepted(FindingFor(c, code).findingId)
  {
    hide Name, SafeId;
    SafeIdIsSafe(code);
    NamesAreShort(c);
    var name, id, whole := Name(c), SafeId(code), FindingFor(c, code).findingId;
    forall i | 0 <= i < |whole|
      ensures IdChar(whole[i]) || whole[i] in "@._:"
    {
      if i < |name| {
        NameIsPlain(c, i);
        assert whole[i] == name[i];
      } else if i > |name| {
        assert whole[i] == id[i - |name| - 1];
      }
    }
  }

  lemma NamesAreShort(c: Category)
    ensures 1 <= |Name(c)| <= 24 && 'a' <= Name(c)[0] <= 'z'
  {
  }

  lemma NameIsPlain(c: Category, i: nat)
    requires i < |Name(c)|
    ensures IdChar(Name(c)[i]) || Name(c)[i] == '_'
  {
    hide Name;
    if c.ApprovalControl? || c.ArtifactValidation? || c.CapabilityCoverage? || c.CapabilityOwnership? {
      NamesToC(c, i);
    } else if c.ControlPlaneCoverage? || c.ExecutionSafety? || c.GuardianControl? || c.HandoffAlignment? {
      NamesToHandoff(c, i);
    } else if c.HandoffCoverage? || c.IdentifierConsistency? || c.PermissionBoundary? || c.PermissionCoverage? {
      NamesToPermission(c, i);
    } else {
      NamesToS(c, i);
    }
  }

  lemma NamesToC(c: Category, i: nat)
    requires i < |Name(c)|
    requires c.ApprovalControl? || c.ArtifactValidation? || c.CapabilityCoverage? || c.CapabilityOwnership?
    ensures IdChar(Name(c)[i]) || Name(c)[i] == '_'
  {
  }

  lemma NamesToHandoff(c: Category, i: nat)
    requires i < |Name(c)|
    requires c.ControlPlaneCoverage? || c.ExecutionSafety? || c.GuardianControl? || c.HandoffAlignment?
    ensures IdChar(Name(c)[i]) || Name(c)[i] == '_'
  {
  }

  lemma NamesToPermission(c: Category, i: nat)
    requires i < |Name(c)|
    requires c.HandoffCoverage? || c.IdentifierConsistency? || c.PermissionBoundary? || c.PermissionCoverage?
    ensures IdChar(Name(c)[i]) || Name(c)[i] == '_'
  {
  }

  lemma NamesToS(c: Category, i: nat)
    requires i < |Name(c)|
    requires c.RedactionSafety? || c.ResponsibilityCoverage? || c.ResponsibilityOwnership? || c.RoleCoverage?
             || c.SpecificationCoverage?
    ensures IdChar(Name(c)[i]) || Name(c)[i] == '_'
  {
  }
}
