/** The reference briefs of src/agent-company/operational-agent-company-service.ts: intersecting
    the briefs of all requested platforms, choosing which references are applied, and the check
    that an executor's output tells exactly that. */
module References {
  import opened Collections
  import opened Collation
  import opened StableSort

  datatype AssetRef = AssetRef(assetId: string, version: nat, fingerprint: string)

  /** A reference as bounded for an agent. */
  datatype Reference = Reference(
    referenceId: string, asset: AssetRef, objective: string, toLearn: seq<string>, notToCopy: seq<string>,
    roles: seq<string>)

  function IdOf(r: Reference): string { r.referenceId }

  // ------------------------------------------------------------------- intersecting briefs

  datatype Presence = Everywhere | Missing | ChangedAcrossReads

  /** Whether each further brief has this very reference, asked in order. */
  function PresentIn(r: Reference, others: seq<seq<Reference>>): Presence {
    if others == [] then Everywhere
    else
      var candidate := Find(others[0], (x: Reference) => x.referenceId == r.referenceId);
      if candidate.None? then Missing
      else if candidate.value != r then ChangedAcrossReads
      else PresentIn(r, others[1..])
  }

  datatype Intersection = Common(references: seq<Reference>) | Changed

  /** `intersectPlatformBriefAssets` over the assets of the first brief. */
  function Intersect(first: seq<Reference>, others: seq<seq<Reference>>): Intersection {
    if first == [] then Common([])
    else
      var rest := Intersect(first[1..], others);
      match PresentIn(first[0], others)
      case ChangedAcrossReads => Changed
      case Missing => rest
      case Everywhere => if rest.Changed? then Changed else Common([first[0]] + rest.references)
  }

  ghost predicate InAll(r: Reference, briefs: seq<seq<Reference>>) {
    forall b :: b in briefs ==> r in b
  }

  ghost predicate UniqueBriefs(briefs: seq<seq<Reference>>) {
    forall b :: b in briefs ==> UniqueBy(b, IdOf)
  }

  lemma {:induction false} EverywhereMeansInAll(r: Reference, others: seq<seq<Reference>>)
    requires UniqueBriefs(others)
    ensures PresentIn(r, others).Everywhere? <==> InAll(r, others)
  {
    if others != [] {
      var b := others[0];
      assert b in others && forall x :: x in others <==> x == b || x in others[1..];
      EverywhereMeansInAll(r, others[1..]);
      var candidate := Find(b, (x: Reference) => x.referenceId == r.referenceId);
      if candidate.Some? && r in b {
        UniqueMembers(b, IdOf, candidate.value, r);
      }
    }
  }

  /** What survives the intersection is exactly what every brief has, each once. */
  lemma {:induction false} IntersectionIsWhatAllHave(first: seq<Reference>, others: seq<seq<Reference>>, r: Reference)
    requires UniqueBy(first, IdOf) && UniqueBriefs(others) && Intersect(first, others).Common?
    ensures r in Intersect(first, others).references <==> r in first && InAll(r, others)
    ensures UniqueBy(Intersect(first, others).references, IdOf)
  {
    if first != [] {
      var rest := first[1..];
      assert forall i :: 0 <= i < |rest| ==> rest[i] == first[i + 1];
      IntersectionIsWhatAllHave(rest, others, r);
      EverywhereMeansInAll(first[0], others);
      assert forall x :: x in first <==> x == first[0] || x in rest;
      SurvivorsComeFrom(rest, others);
      forall x | x in Intersect(rest, others).references
        ensures IdOf(x) != IdOf(first[0])
      {
        var k :| 0 <= k < |rest| && rest[k] == x;
        assert IdOf(first[0]) != IdOf(first[k + 1]);
      }
    }
  }

  lemma {:induction false} SurvivorsComeFrom(first: seq<Reference>, others: seq<seq<Reference>>)
    requires Intersect(first, others).Common?
    ensures forall x :: x in Intersect(first, others).references ==> x in first
  {
    if first != [] {
      SurvivorsComeFrom(first[1..], others);
    }
  }

  /** One reference under two contents. */
  ghost predicate Conflict(a: seq<Reference>, b: seq<Reference>) {
    exists x, y :: x in a && y in b && x.referenceId == y.referenceId && x != y
  }

  lemma ConflictOneMore(a: seq<Reference>, b: seq<Reference>)
    requires a != []
    ensures Conflict(a, b) <==> Conflict(a[1..], b) || Conflict([a[0]], b)
  {
    assert forall x :: x in a <==> x == a[0] || x in a[1..];
    assert a[0] in [a[0]];
    if Conflict(a, b) {
      var x, y :| x in a && y in b && x.referenceId == y.referenceId && x != y;
      assert x in [a[0]] || x in a[1..];
    }
  }

  lemma ConflictOfOne(r: Reference, b: seq<Reference>)
    requires UniqueBy(b, IdOf)
    ensures PresentIn(r, [b]).ChangedAcrossReads? <==> Conflict([r], b)
  {
    var candidate := Find(b, (x: Reference) => x.referenceId == r.referenceId);
    assert [b][1..] == [];
    assert r in [r];
    if Conflict([r], b) {
      var x, y :| x in [r] && y in b && x.referenceId == y.referenceId && x != y;
      UniqueMembers(b, IdOf, candidate.value, y);
    }
  }

  /** With one or two platforms, all that a workday may request, the intersection fails exactly
      when the briefs disagree about a reference, whichever brief is read first. */
  lemma {:induction false} IntersectionFailsOnConflict(first: seq<Reference>, others: seq<seq<Reference>>)
    requires |others| <= 1 && UniqueBriefs(others)
    ensures Intersect(first, others).Changed? <==> |others| == 1 && Conflict(first, others[0])
  {
    if first != [] {
      IntersectionFailsOnConflict(first[1..], others);
      if |others| == 1 {
        assert others == [others[0]] && others[0] in others;
        ConflictOneMore(first, others[0]);
        ConflictOfOne(first[0], others[0]);
      }
      hide Conflict;
    }
  }

  // ------------------------------------------------------------------- applied references

  function ById(): Compare<Reference> {
    (l: Reference, r: Reference) => CompareText(CodeUnits(), l.referenceId, r.referenceId)
  }

  const MAX_APPLIED: nat := 3

  /** `selectAppliedReferences`. */
  function Applied(references: seq<Reference>): seq<Reference> {
    var sorted := Sort(references, ById());
    if |sorted| <= MAX_APPLIED then sorted else sorted[..MAX_APPLIED]
  }

  lemma CodeUnitsCollate()
    ensures Collates(CodeUnits())
  {
  }

  lemma IdsArePreordered()
    ensures Preorder(ById())
  {
    CodeUnitsCollate();
    forall a, b
      ensures ById()(a, b) <= 0 || ById()(b, a) <= 0
    {
      CompareReversed(CodeUnits(), a.referenceId, b.referenceId);
    }
    forall a, b, c | ById()(a, b) <= 0 && ById()(b, c) <= 0
      ensures ById()(a, c) <= 0
    {
      CompareTransitive(CodeUnits(), a.referenceId, b.referenceId, c.referenceId);
    }
  }

  lemma IdsAreAsymmetric()
    ensures Asymmetric(ById())
  {
    CodeUnitsCollate();
    forall a, b | ById()(a, b) < 0
      ensures !(ById()(b, a) < 0) && a != b
    {
      CompareReversed(CodeUnits(), a.referenceId, b.referenceId);
    }
  }

  lemma SortedByIdIsStrict(references: seq<Reference>)
    requires UniqueBy(references, IdOf)
    ensures StrictlyOrdered(Sort(references, ById()), ById())
  {
    var sorted := Sort(references, ById());
    IdsArePreordered();
    SortOrders(references, ById());
    SortKeepsUnique(references, ById(), IdOf);
    CodeUnitsCollate();
    hide Sort, Collates;
    forall i, j | 0 <= i < j < |sorted|
      ensures ById()(sorted[i], sorted[j]) < 0
    {
      assert ById()(sorted[i], sorted[j]) <= 0 && IdOf(sorted[i]) != IdOf(sorted[j]);
      CompareZero(CodeUnits(), sorted[i].referenceId, sorted[j].referenceId);
    }
  }

  /** The references whose identifier is smaller. */
  ghost function Smaller(references: seq<Reference>, r: Reference): set<Reference> {
    set x | x in references && ById()(x, r) < 0
  }

  lemma PositionCountsSmaller(s: seq<Reference>, k: nat)
    requires StrictlyOrdered(s, ById()) && Asymmetric(ById()) && k < |s|
    ensures |Smaller(s, s[k])| == k
  {
    StrictIsDistinct(s, ById());
    PrefixHasSize(s, k);
    forall x | x in s
      ensures x in Smaller(s, s[k]) <==> x in Prefix(s, k)
    {
      var i :| 0 <= i < |s| && s[i] == x;
      InPrefix(s, i, k);
      SmallerExactly(s, i, k);
    }
    assert Smaller(s, s[k]) == Prefix(s, k);
  }

  lemma SmallerExactly(s: seq<Reference>, i: nat, k: nat)
    requires StrictlyOrdered(s, ById()) && Asymmetric(ById()) && i < |s| && k < |s|
    ensures ById()(s[i], s[k]) < 0 <==> i < k
  {
    if k < i {
      assert ById()(s[k], s[i]) < 0;
    }
  }

  /** The applied references are the three smallest: those with fewer than three smaller ones. */
  lemma AppliedAreTheSmallest(references: seq<Reference>, r: Reference)
    requires UniqueBy(references, IdOf) && r in references
    ensures r in Applied(references) <==> |Smaller(references, r)| < MAX_APPLIED
  {
    var sorted := Sort(references, ById());
    SortedByIdIsStrict(references);
    IdsAreAsymmetric();
    SortMembers(references, ById(), r);
    forall x
      ensures x in Smaller(sorted, r) <==> x in Smaller(references, r)
    {
      SortMembers(references, ById(), x);
    }
    assert Smaller(sorted, r) == Smaller(references, r);
    hide Sort, StrictlyOrdered, Smaller, Asymmetric;
    var k :| 0 <= k < |sorted| && sorted[k] == r;
    PositionCountsSmaller(sorted, k);
    forall j | 0 <= j < |sorted| && sorted[j] == r
      ensures j == k
    {
      PositionCountsSmaller(sorted, j);
    }
  }

  /** They depend only on which references there are: not on the order of the assets, nor on
      which brief is read first. */
  lemma AppliedIgnoresOrder(
      first: seq<Reference>, others: seq<seq<Reference>>, first': seq<Reference>, others': seq<seq<Reference>>)
    requires UniqueBy(first, IdOf) && UniqueBriefs(others) && UniqueBy(first', IdOf) && UniqueBriefs(others')
    requires forall r :: r in first && InAll(r, others) <==> r in first' && InAll(r, others')
    requires Intersect(first, others).Common? && Intersect(first', others').Common?
    ensures Applied(Intersect(first, others).references) == Applied(Intersect(first', others').references)
  {
    var a, b := Intersect(first, others).references, Intersect(first', others').references;
    forall r
      ensures r in a <==> r in b
      ensures UniqueBy(a, IdOf) && UniqueBy(b, IdOf)
    {
      IntersectionIsWhatAllHave(first, others, r);
      IntersectionIsWhatAllHave(first', others', r);
    }
    hide Intersect, UniqueBriefs;
    var some := Reference("", AssetRef("", 0, ""), "", [], [], []);
    assert some in a <==> some in b;
    SortedByIdIsStrict(a);
    SortedByIdIsStrict(b);
    IdsAreAsymmetric();
    SortIsCanonical(a, b, ById());
  }

  // ------------------------------------------------------------------- provenance

  datatype Constraints = Constraints(
    objectives: seq<(string, string)>, constraints: seq<(string, string)>, patterns: seq<(string, string)>,
    purpose: string,
    roleSignals: seq<(string, seq<string>)>)

  /** The JSON values of an executor's output that the provenance check looks at. */
  datatype Json =
    | Text(text: string)
    | Ids(ids: seq<string>)
    | Assets(assets: seq<AssetRef>)
    | Guidance(purpose: string, items: seq<Reference>)
    | Domain(constraints: Constraints)
    | Other(value: nat)

  /** Names of output fields: those of the provenance, that of an agent's constraints, others. */
  datatype Name =
    | ReferenceAssetRefsAvailable
    | ReferenceAssetRefsUsed
    | ReferenceBriefFingerprint
    | ReferenceContextStatus
    | ReferenceDataTrust
    | ReferenceGuidance
    | ReferenceIdsAvailable
    | ReferenceIdsUsed
    | DomainField(agentField: string)
    | OwnField(own: string)

  datatype Specification = Specification(domainField: string, purpose: string)

  datatype Context = Context(references: seq<Reference>, briefFingerprint: string)

  const TRUST := "UNTRUSTED_REFERENCE_DATA"

  function StatusOf(c: Context): string {
    if c.references == [] then "NOT_AVAILABLE" else "AVAILABLE"
  }

  function IdsOf(rs: seq<Reference>): seq<string> {
    seq(|rs|, i requires 0 <= i < |rs| => rs[i].referenceId)
  }

  function AssetsOf(rs: seq<Reference>): seq<AssetRef> {
    seq(|rs|, i requires 0 <= i < |rs| => rs[i].asset)
  }

  function Tagged(rs: seq<Reference>, learn: bool): seq<(string, string)> {
    if rs == [] then []
    else
      var values := if learn then rs[0].toLearn else rs[0].notToCopy;
      seq(|values|, i requires 0 <= i < |values| => (rs[0].referenceId, values[i])) + Tagged(rs[1..], learn)
  }

  /** `referenceDomainConstraints`. */
  function DomainConstraints(rs: seq<Reference>, purpose: string): Constraints {
    Constraints(
      seq(|rs|, i requires 0 <= i < |rs| => (rs[i].referenceId, rs[i].objective)),
      Tagged(rs, false), Tagged(rs, true), purpose,
      seq(|rs|, i requires 0 <= i < |rs| => (rs[i].referenceId, rs[i].roles)))
  }

  datatype Application = Application(
    applied: seq<Reference>, constraints: Option<Constraints>, provenance: map<Name, Json>,
    specification: Specification)

  /** `prepareReferenceApplication`. */
  function Prepare(c: Context, spec: Specification): Application {
    var applied := Applied(c.references);
    Application(
      applied,
      if applied == [] then None else Some(DomainConstraints(applied, spec.purpose)),
      map[
        ReferenceAssetRefsAvailable := Assets(AssetsOf(c.references)),
        ReferenceAssetRefsUsed := Assets(AssetsOf(applied)),
        ReferenceBriefFingerprint := Text(c.briefFingerprint),
        ReferenceContextStatus := Text(StatusOf(c)),
        ReferenceDataTrust := Text(TRUST),
        ReferenceIdsAvailable := Ids(IdsOf(c.references)),
        ReferenceIdsUsed := Ids(IdsOf(applied))]
      + (if applied == [] then map[] else map[ReferenceGuidance := Guidance(spec.purpose, applied)]),
      spec)
  }

  /** What executors write: the provenance, the constraints under their domain field, and fields
      of their own. */
  function Spread(app: Application, own: map<Name, Json>): map<Name, Json> {
    app.provenance
    + (if app.constraints.None? then map[]
       else map[DomainField(app.specification.domainField) := Domain(app.constraints.value)])
    + own
  }

  function Field(output: map<Name, Json>, name: Name): Option<Json> {
    if name in output then Some(output[name]) else None
  }

  /** `assertReferenceProvenance`: false when it throws. */
  predicate ProvenanceHolds(c: Context, app: Application, output: map<Name, Json>) {
    var domain := DomainField(app.specification.domainField);
    && app.applied == Applied(c.references)
    && Field(output, ReferenceDataTrust) == Some(Text(TRUST))
    && Field(output, ReferenceBriefFingerprint) == Some(Text(c.briefFingerprint))
    && Field(output, ReferenceContextStatus) == Some(Text(StatusOf(c)))
    && Field(output, ReferenceIdsAvailable) == Some(Ids(IdsOf(c.references)))
    && Field(output, ReferenceIdsUsed) == Some(Ids(IdsOf(app.applied)))
    && Field(output, ReferenceAssetRefsAvailable) == Some(Assets(AssetsOf(c.references)))
    && Field(output, ReferenceAssetRefsUsed) == Some(Assets(AssetsOf(app.applied)))
    && if IdsOf(app.applied) == [] then
         app.constraints.None? && Field(output, ReferenceGuidance).None? && Field(output, domain).None?
       else
         && Field(output, ReferenceGuidance) == Some(Guidance(app.specification.purpose, app.applied))
         && app.constraints == Some(DomainConstraints(app.applied, app.specification.purpose))
         && Field(output, domain) == Some(Domain(app.constraints.value))
  }

  /** What the check reads in an output of the given fields beside the prepared ones. */
  lemma FieldOfSpread(c: Context, spec: Specification, own: map<Name, Json>, name: Name)
    ensures Field(Spread(Prepare(c, spec), own), name)
            == if name in own then Some(own[name]) else Field(Spread(Prepare(c, spec), map[]), name)
  {
    hide Prepare;
  }

  /** An output of nothing but the prepared fields passes. */
  lemma PreparedPasses(c: Context, spec: Specification)
    ensures ProvenanceHolds(c, Prepare(c, spec), Spread(Prepare(c, spec), map[]))
  {
    hide Applied, DomainConstraints, AssetsOf, StatusOf;
    assert |IdsOf(Applied(c.references))| == |Applied(c.references)|;
    hide IdsOf;
  }

  predicate Checked(name: Name, spec: Specification) {
    !name.OwnField? && (name.DomainField? ==> name.agentField == spec.domainField)
  }

  /** Fields of its own change nothing the check looks at: it reuses none of the checked names,
      or only for the very value that was prepared. */
  ghost predicate Truthful(c: Context, spec: Specification, own: map<Name, Json>) {
    forall name :: name in own && Checked(name, spec) ==>
      Field(Spread(Prepare(c, spec), map[]), name) == Some(own[name])
  }

  /** The check sees an output only through the checked names. */
  lemma SameFieldsSameCheck(c: Context, app: Application, a: map<Name, Json>, b: map<Name, Json>)
    requires forall name :: Checked(name, app.specification) ==> Field(a, name) == Field(b, name)
    ensures ProvenanceHolds(c, app, a) == ProvenanceHolds(c, app, b)
  {
    hide Applied, DomainConstraints, AssetsOf, StatusOf, IdsOf, Field;
  }

  /** Two outputs that both pass agree on every checked name. */
  lemma PassingDeterminesFields(c: Context, app: Application, a: map<Name, Json>, b: map<Name, Json>, name: Name)
    requires ProvenanceHolds(c, app, a) && ProvenanceHolds(c, app, b) && Checked(name, app.specification)
    ensures Field(a, name) == Field(b, name)
  {
    hide Applied, DomainConstraints, AssetsOf, StatusOf, IdsOf, Field;
  }

  /** An executor that spreads what was prepared passes the provenance check exactly when none of
      the fields it adds contradicts it. */
  lemma SpreadingPassesExactly(c: Context, spec: Specification, own: map<Name, Json>)
    ensures ProvenanceHolds(c, Prepare(c, spec), Spread(Prepare(c, spec), own)) <==> Truthful(c, spec, own)
  {
    var app := Prepare(c, spec);
    var plain, output := Spread(app, map[]), Spread(app, own);
    PreparedPasses(c, spec);
    assert app.specification == spec;
    hide Prepare, Spread, ProvenanceHolds, Field, Checked;
    forall name
      ensures Field(output, name) == if name in own then Some(own[name]) else Field(plain, name)
    {
      FieldOfSpread(c, spec, own, name);
    }
    if Truthful(c, spec, own) {
      SameFieldsSameCheck(c, app, plain, output);
    }
    if ProvenanceHolds(c, app, output) {
      forall name | name in own && Checked(name, spec)
        ensures Field(plain, name) == Some(own[name])
      {
        PassingDeterminesFields(c, app, plain, output, name);
      }
    }
  }

  lemma {:induction false} TaggedMembers(rs: seq<Reference>, learn: bool, id: string, value: string)
    ensures (id, value) in Tagged(rs, learn) <==>
              exists r :: r in rs && r.referenceId == id && value in (if learn then r.toLearn else r.notToCopy)
  {
    if rs != [] {
      TaggedMembers(rs[1..], learn, id, value);
      var values := if learn then rs[0].toLearn else rs[0].notToCopy;
      var first := seq(|values|, i requires 0 <= i < |values| => (rs[0].referenceId, values[i]));
      assert (id, value) in first <==> id == rs[0].referenceId && value in values by {
        if id == rs[0].referenceId && value in values {
          var i :| 0 <= i < |values| && values[i] == value;
          assert first[i] == (id, value);
        }
      }
      assert forall r :: r in rs <==> r == rs[0] || r in rs[1..];
    }
  }

  /** What an agent is handed: it is told that references are available exactly when there are some, and
      then gets, under each applied reference's identifier, what to learn as patterns and what not to
      copy as constraints. */
  lemma PreparedSays(c: Context, spec: Specification, id: string, value: string)
    ensures
      var app := Prepare(c, spec);
      && app.provenance[ReferenceContextStatus] == Text(if c.references != [] then "AVAILABLE" else "NOT_AVAILABLE")
      && (app.constraints.Some? <==> c.references != [])
      && (app.constraints.Some? ==>
            && app.constraints.value.purpose == spec.purpose
            && ((id, value) in app.constraints.value.patterns <==>
                  exists r :: r in Applied(c.references) && r.referenceId == id && value in r.toLearn)
            && ((id, value) in app.constraints.value.constraints <==>
                  exists r :: r in Applied(c.references) && r.referenceId == id && value in r.notToCopy))
  {
    TaggedMembers(Applied(c.references), true, id, value);
    TaggedMembers(Applied(c.references), false, id, value);
    SomethingApplied(c.references);
    hide Tagged, Applied, AssetsOf, IdsOf;
  }

  lemma SomethingApplied(references: seq<Reference>)
    ensures Applied(references) == [] <==> references == []
  {
  }
}
