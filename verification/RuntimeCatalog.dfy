/** src/agents/agent-runtime-resolution.ts: building the immutable catalogue of executors and
    resolving a request against it.  Registered specifications are those of
    src/agents/specification/immutable-agent-specification-registry.ts. */
module RuntimeCatalog {
  import opened Collections

  datatype Safety = Safety(
    browserUse: bool,
    deterministic: bool,
    externalSideEffects: bool,
    filesystemSideEffects: bool,
    localOnly: bool,
    modelUse: bool,
    networkUse: bool,
    providerUse: bool,
    replaySafe: bool,
    toolUse: bool)

  datatype Descriptor = Descriptor(
    executorId: string,
    executorVersion: string,
    runtimeAgentId: string,
    runtimeAgentVersion: string,
    specificationId: string,
    specificationVersion: string,
    roleId: string,
    supportedCapabilityIds: seq<string>,
    executionMode: string,
    safety: Safety,
    inputContractId: string,
    outputContractId: string)

  datatype Binding = Binding(descriptor: Descriptor, active: bool)

  /** A descriptor and the identity its implementation reports. */
  datatype Registration = Registration(descriptor: Descriptor, agentId: string, agentVersion: string)

  datatype Specification = Specification(agentId: string, version: string)

  datatype Catalog = Catalog(descriptors: map<string, Descriptor>, bindings: map<string, Binding>)

  datatype BuildError =
    | UnsafeDescriptor
    | ImplementationMismatch
    | DuplicateRegistration
    | UnknownSpecification
    | UnknownExecutor
    | BindingMismatch
    | AmbiguousBinding

  datatype Built = Ok(catalog: Catalog) | Err(error: BuildError)

  // ------------------------------------------------------------------- identifiers and keys

  predicate IdChar(c: char) {
    'a' <= c <= 'z' || 'A' <= c <= 'Z' || '0' <= c <= '9' || c in "@._:-"
  }

  predicate ValidId(s: string) {
    0 < |s| <= 128 && forall i :: 0 <= i < |s| ==> IdChar(s[i])
  }

  function ExecutorKey(id: string, version: string): string { id + "@" + version }
  function SpecKey(id: string, version: string): string { id + "#" + version }

  lemma NoHashWithin(a: string, v: string, b: string, w: string)
    requires ValidId(b) && SpecKey(a, v) == SpecKey(b, w)
    ensures |b| <= |a|
  {
    var key := SpecKey(a, v);
    forall i | 0 <= i < |b|
      ensures key[i] != '#'
    {
      assert key[i] == b[i] && IdChar(b[i]);
    }
    assert key[|a|] == '#';
  }

  /** Valid identifiers hold no `#`, so the specification key tells them apart. */
  lemma SpecKeyIsInjective(a: string, v: string, b: string, w: string)
    requires ValidId(a) && ValidId(b) && SpecKey(a, v) == SpecKey(b, w)
    ensures a == b && v == w
  {
    NoHashWithin(a, v, b, w);
    NoHashWithin(b, w, a, v);
    assert SpecKey(a, v)[..|a|] == a && SpecKey(b, w)[..|b|] == b;
    assert SpecKey(a, v)[|a| + 1..] == v && SpecKey(b, w)[|b| + 1..] == w;
  }

  /** They may hold `@`, so the executor key does not. */
  lemma ExecutorKeyIsNotInjective()
    ensures ValidId("a@b") && ValidId("c") && ValidId("a") && ValidId("b@c")
    ensures ExecutorKey("a@b", "c") == ExecutorKey("a", "b@c")
  {
    assert ExecutorKey("a@b", "c") == "a@b@c";
  }

  /** `s.lastIndexOf("@")`, -1 when there is none. */
  function LastAt(s: string): (i: int)
    ensures -1 <= i < |s|
    ensures i >= 0 ==> s[i] == '@'
    ensures forall k :: i < k < |s| ==> s[k] != '@'
  {
    if s == "" then -1 else if s[|s| - 1] == '@' then |s| - 1 else LastAt(s[..|s| - 1])
  }

  /** `s.slice(0, n)`: a negative `n` counts from the end. */
  function SliceTo(s: string, n: int): string {
    if n >= |s| then s else if n >= 0 then s[..n] else if |s| + n > 0 then s[..|s| + n] else ""
  }

  // ------------------------------------------------------------------- specifications

  /** What the specification registry guarantees: keyed by `agentId@version`, with semantic
      versions, which hold no `@`. */
  predicate RegistryOk(registry: map<string, Specification>) {
    forall k :: k in registry ==>
      k == ExecutorKey(registry[k].agentId, registry[k].version) && '@' !in registry[k].version
  }

  function GetSpecification(
      registry: map<string, Specification>, agentId: string, version: string): Option<Specification> {
    var key := ExecutorKey(agentId, version);
    if key in registry then Some(registry[key]) else None
  }

  // ------------------------------------------------------------------- descriptors

  predicate DescriptorOk(d: Descriptor) {
    && ValidId(d.executorId) && ValidId(d.executorVersion) && ValidId(d.runtimeAgentId)
    && ValidId(d.runtimeAgentVersion) && ValidId(d.specificationId) && ValidId(d.specificationVersion)
    && ValidId(d.roleId) && ValidId(d.inputContractId) && ValidId(d.outputContractId)
    && d.executionMode == "DETERMINISTIC_LOCAL"
    && (forall c :: c in d.supportedCapabilityIds ==> ValidId(c))
    && (forall i, j :: 0 <= i < j < |d.supportedCapabilityIds| ==>
          d.supportedCapabilityIds[i] != d.supportedCapabilityIds[j])
    && d.safety.deterministic && d.safety.replaySafe && d.safety.localOnly
    && !d.safety.modelUse && !d.safety.providerUse && !d.safety.toolUse && !d.safety.networkUse
    && !d.safety.browserUse && !d.safety.filesystemSideEffects && !d.safety.externalSideEffects
  }

  function KeyOf(d: Descriptor): string { ExecutorKey(d.executorId, d.executorVersion) }
  function SpecKeyOf(d: Descriptor): string { SpecKey(d.specificationId, d.specificationVersion) }

  predicate RegistrationOk(r: Registration) {
    && DescriptorOk(r.descriptor)
    && r.agentId == r.descriptor.runtimeAgentId && r.agentVersion == r.descriptor.runtimeAgentVersion
  }

  predicate BoundToSpecification(d: Descriptor, registry: map<string, Specification>) {
    var s := GetSpecification(registry, d.roleId, d.specificationVersion);
    && s.Some?
    && ExecutorKey(s.value.agentId, s.value.version) == d.specificationId
    && s.value.agentId == d.roleId && s.value.agentId == d.runtimeAgentId
    && s.value.version == d.runtimeAgentVersion
  }

  // ------------------------------------------------------------------- building

  predicate RegistrationsOk(registrations: seq<Registration>) {
    && (forall i :: 0 <= i < |registrations| ==> RegistrationOk(registrations[i]))
    && (forall i, j :: 0 <= i < j < |registrations| ==>
          KeyOf(registrations[i].descriptor) != KeyOf(registrations[j].descriptor))
  }

  predicate BindingOk(b: Binding, registrations: seq<Registration>, registry: map<string, Specification>) {
    && BoundToSpecification(b.descriptor, registry)
    && exists r :: r in registrations && r.descriptor == b.descriptor
  }

  /** Two active bindings that share a specification or an executor key. */
  predicate Clash(a: Binding, b: Binding) {
    && a.active && b.active
    && (SpecKeyOf(a.descriptor) == SpecKeyOf(b.descriptor) || KeyOf(a.descriptor) == KeyOf(b.descriptor))
  }

  predicate BindingsOk(bindings: seq<Binding>, registrations: seq<Registration>, registry: map<string, Specification>) {
    && (forall i :: 0 <= i < |bindings| ==> BindingOk(bindings[i], registrations, registry))
    && (forall i, j :: 0 <= i < j < |bindings| ==> !Clash(bindings[i], bindings[j]))
  }

  /** The descriptor table holds exactly the registrations. */
  ghost predicate Registers(descriptors: map<string, Descriptor>, registrations: seq<Registration>) {
    && (forall r :: r in registrations ==>
          KeyOf(r.descriptor) in descriptors && descriptors[KeyOf(r.descriptor)] == r.descriptor)
    && (forall k :: k in descriptors ==> exists r :: r in registrations && k == KeyOf(r.descriptor))
  }

  /** The binding table holds exactly the active bindings, and `taken` their executor keys. */
  ghost predicate Activates(table: map<string, Binding>, taken: set<string>, bindings: seq<Binding>) {
    && (forall b :: b in bindings && b.active ==>
          && SpecKeyOf(b.descriptor) in table && table[SpecKeyOf(b.descriptor)] == b && KeyOf(b.descriptor) in taken)
    && (forall k :: k in table ==> table[k] in bindings && table[k].active && k == SpecKeyOf(table[k].descriptor))
    && (forall e :: e in taken ==> exists b :: b in bindings && b.active && e == KeyOf(b.descriptor))
  }

  method RegisterAll(
      registrations: seq<Registration>) returns (error: Option<BuildError>, descriptors: map<string, Descriptor>)
    ensures error.None? <==> RegistrationsOk(registrations)
    ensures error.None? ==> Registers(descriptors, registrations)
  {
    descriptors := map[];
    for i := 0 to |registrations|
      invariant RegistrationsOk(registrations[..i]) && Registers(descriptors, registrations[..i])
    {
      var r := registrations[i];
      var key := KeyOf(r.descriptor);
      if !DescriptorOk(r.descriptor) {
        return Some(UnsafeDescriptor), descriptors;
      }
      if r.agentId != r.descriptor.runtimeAgentId || r.agentVersion != r.descriptor.runtimeAgentVersion {
        return Some(ImplementationMismatch), descriptors;
      }
      if key in descriptors {
        var j :| 0 <= j < i && KeyOf(registrations[j].descriptor) == key;
        return Some(DuplicateRegistration), descriptors;
      }
      OneMoreRegistration(registrations[..i], r, descriptors);
      assert registrations[..i + 1] == registrations[..i] + [r];
      descriptors := descriptors[key := r.descriptor];
    }
    assert registrations[..|registrations|] == registrations;
    error := None;
  }

  lemma OneMoreRegistration(done: seq<Registration>, r: Registration, descriptors: map<string, Descriptor>)
    requires RegistrationsOk(done) && Registers(descriptors, done) && RegistrationOk(r)
    requires KeyOf(r.descriptor) !in descriptors
    ensures RegistrationsOk(done + [r])
    ensures Registers(descriptors[KeyOf(r.descriptor) := r.descriptor], done + [r])
  {
    hide DescriptorOk;
    assert forall x :: x in done + [r] <==> x in done || x == r;
    forall i, j | 0 <= i < j < |done + [r]|
      ensures KeyOf((done + [r])[i].descriptor) != KeyOf((done + [r])[j].descriptor)
    {
      assert (done + [r])[i] == done[i] && done[i] in done;
    }
  }

  method ActivateAll(
      bindings: seq<Binding>, registrations: seq<Registration>, descriptors: map<string, Descriptor>,
      registry: map<string, Specification>)
      returns (error: Option<BuildError>, table: map<string, Binding>)
    requires RegistrationsOk(registrations) && Registers(descriptors, registrations)
    ensures error.None? <==> BindingsOk(bindings, registrations, registry)
    ensures error.None? ==> exists taken :: Activates(table, taken, bindings)
  {
    hide DescriptorOk, BoundToSpecification, KeyOf, SpecKeyOf;
    table := map[];
    var taken: set<string> := {};
    for i := 0 to |bindings|
      invariant BindingsOk(bindings[..i], registrations, registry) && Activates(table, taken, bindings[..i])
    {
      var b := bindings[i];
      var key := KeyOf(b.descriptor);
      if !BoundToSpecification(b.descriptor, registry) {
        return Some(UnknownSpecification), table;
      }
      FoundByKey(b, registrations, descriptors);
      if key !in descriptors {
        return Some(UnknownExecutor), table;
      }
      if b.descriptor != descriptors[key] {
        return Some(BindingMismatch), table;
      }
      if !DescriptorOk(b.descriptor) {
        assert false;
      }
      var specKey := SpecKeyOf(b.descriptor);
      if b.active && (specKey in table || key in taken) {
        ClashFound(bindings, i, table, taken);
        return Some(AmbiguousBinding), table;
      }
      OneMoreBinding(bindings[..i], b, table, taken, registrations, registry);
      assert bindings[..i + 1] == bindings[..i] + [b];
      if b.active {
        table := table[specKey := b];
        taken := taken + {key};
      }
    }
    assert bindings[..|bindings|] == bindings;
    error := None;
  }

  lemma FoundByKey(b: Binding, registrations: seq<Registration>, descriptors: map<string, Descriptor>)
    requires RegistrationsOk(registrations) && Registers(descriptors, registrations)
    ensures (exists r :: r in registrations && r.descriptor == b.descriptor)
            <==> KeyOf(b.descriptor) in descriptors && descriptors[KeyOf(b.descriptor)] == b.descriptor
    ensures KeyOf(b.descriptor) in descriptors && descriptors[KeyOf(b.descriptor)] == b.descriptor ==>
              DescriptorOk(b.descriptor)
  {
    hide DescriptorOk, KeyOf;
  }

  lemma ClashFound(bindings: seq<Binding>, i: nat, table: map<string, Binding>, taken: set<string>)
    requires i < |bindings| && Activates(table, taken, bindings[..i]) && bindings[i].active
    requires SpecKeyOf(bindings[i].descriptor) in table || KeyOf(bindings[i].descriptor) in taken
    ensures exists j :: 0 <= j < i && Clash(bindings[j], bindings[i])
  {
    hide KeyOf, SpecKeyOf;
    var b := bindings[i];
    if SpecKeyOf(b.descriptor) in table {
      var a := table[SpecKeyOf(b.descriptor)];
      var j :| 0 <= j < i && bindings[j] == a;
      assert Clash(bindings[j], b);
    } else {
      var a :| a in bindings[..i] && a.active && KeyOf(a.descriptor) == KeyOf(b.descriptor);
      var j :| 0 <= j < i && bindings[j] == a;
      assert Clash(bindings[j], b);
    }
  }

  lemma OneMoreBinding(
      done: seq<Binding>, b: Binding, table: map<string, Binding>, taken: set<string>, registrations: seq<Registration>,
      registry: map<string, Specification>)
    requires BindingsOk(done, registrations, registry) && Activates(table, taken, done)
    requires BindingOk(b, registrations, registry)
    requires b.active ==> SpecKeyOf(b.descriptor) !in table && KeyOf(b.descriptor) !in taken
    ensures BindingsOk(done + [b], registrations, registry)
    ensures
      var table', taken' := table[SpecKeyOf(b.descriptor) := b], taken + {KeyOf(b.descriptor)};
      if b.active then Activates(table', taken', done + [b]) else Activates(table, taken, done + [b])
  {
    hide KeyOf, SpecKeyOf, BindingOk;
    assert forall x :: x in done + [b] <==> x in done || x == b;
    forall i, j | 0 <= i < j < |done + [b]|
      ensures !Clash((done + [b])[i], (done + [b])[j])
    {
      assert (done + [b])[i] == done[i] && done[i] in done;
    }
  }

  method Build(registrations: seq<Registration>, bindings: seq<Binding>, registry: map<string, Specification>)
      returns (built: Built)
    ensures built.Ok? <==> RegistrationsOk(registrations) && BindingsOk(bindings, registrations, registry)
    ensures built.Ok? ==>
              && Registers(built.catalog.descriptors, registrations)
              && exists taken :: Activates(built.catalog.bindings, taken, bindings)
  {
    hide RegistrationsOk, BindingsOk, Registers, Activates;
    var failure, descriptors := RegisterAll(registrations);
    if failure.Some? {
      return Err(failure.value);
    }
    var refusal, table := ActivateAll(bindings, registrations, descriptors, registry);
    if refusal.Some? {
      return Err(refusal.value);
    }
    built := Ok(Catalog(descriptors, table));
  }

  // ------------------------------------------------------------------- what a built catalogue is

  /** An injective partial map from specifications to executors. */
  ghost predicate CatalogOk(c: Catalog, registry: map<string, Specification>) {
    && (forall k :: k in c.descriptors ==> DescriptorOk(c.descriptors[k]) && k == KeyOf(c.descriptors[k]))
    && (forall k :: k in c.bindings ==>
          && k == SpecKeyOf(c.bindings[k].descriptor) && BoundToSpecification(c.bindings[k].descriptor, registry)
          && KeyOf(c.bindings[k].descriptor) in c.descriptors
          && c.descriptors[KeyOf(c.bindings[k].descriptor)] == c.bindings[k].descriptor)
    && (forall k, l :: k in c.bindings && l in c.bindings && k != l ==>
          KeyOf(c.bindings[k].descriptor) != KeyOf(c.bindings[l].descriptor))
  }

  lemma BuiltIsCatalogOk(
      c: Catalog, registrations: seq<Registration>, bindings: seq<Binding>, registry: map<string, Specification>,
      taken: set<string>)
    requires RegistrationsOk(registrations) && BindingsOk(bindings, registrations, registry)
    requires Registers(c.descriptors, registrations) && Activates(c.bindings, taken, bindings)
    ensures CatalogOk(c, registry)
  {
    hide DescriptorOk, BoundToSpecification, KeyOf, SpecKeyOf;
    forall k | k in c.descriptors
      ensures DescriptorOk(c.descriptors[k]) && k == KeyOf(c.descriptors[k])
    {
      var r :| r in registrations && k == KeyOf(r.descriptor);
      assert RegistrationOk(r);
    }
    forall k | k in c.bindings
      ensures BoundToSpecification(c.bindings[k].descriptor, registry)
      ensures KeyOf(c.bindings[k].descriptor) in c.descriptors
      ensures c.descriptors[KeyOf(c.bindings[k].descriptor)] == c.bindings[k].descriptor
    {
      assert BindingOk(c.bindings[k], registrations, registry);
    }
    forall k, l | k in c.bindings && l in c.bindings && k != l
      ensures KeyOf(c.bindings[k].descriptor) != KeyOf(c.bindings[l].descriptor)
    {
      var i :| 0 <= i < |bindings| && bindings[i] == c.bindings[k];
      var j :| 0 <= j < |bindings| && bindings[j] == c.bindings[l];
      assert i < j ==> !Clash(bindings[i], bindings[j]);
      assert j < i ==> !Clash(bindings[j], bindings[i]);
    }
  }

  // ------------------------------------------------------------------- resolving

  datatype Request = Request(specificationId: string, specificationVersion: string, requiredCapabilityIds: seq<string>)

  datatype BlockerCode =
    | InvalidRequest
    | SpecificationNotFound
    | BindingNotFound
    | ExecutorNotFound
    | IdentityMismatch
    | CapabilityMismatch
    | UnsafeExecutor

  datatype Resolution = BlockedBy(code: BlockerCode) | Resolved(executor: Descriptor)

  predicate RequestOk(r: Request) {
    && ValidId(r.specificationId) && ValidId(r.specificationVersion)
    && forall c :: c in r.requiredCapabilityIds ==> ValidId(c)
  }

  predicate SpecificationFound(registry: map<string, Specification>, r: Request) {
    var s := GetSpecification(registry, SliceTo(r.specificationId, LastAt(r.specificationId)), r.specificationVersion);
    s.Some? && ExecutorKey(s.value.agentId, s.value.version) == r.specificationId
  }

  /** `DefaultDenyAgentRuntimeResolver.resolve`. */
  function Resolve(c: Catalog, registry: map<string, Specification>, r: Request): Resolution {
    if !RequestOk(r) then BlockedBy(InvalidRequest)
    else if !SpecificationFound(registry, r) then BlockedBy(SpecificationNotFound)
    else
      var key := SpecKey(r.specificationId, r.specificationVersion);
      if key !in c.bindings then BlockedBy(BindingNotFound)
      else
        var b := c.bindings[key].descriptor;
        if KeyOf(b) !in c.descriptors then BlockedBy(ExecutorNotFound)
        else
          var d := c.descriptors[KeyOf(b)];
          if b != d then BlockedBy(IdentityMismatch)
          else if exists id :: id in r.requiredCapabilityIds && id !in d.supportedCapabilityIds then
            BlockedBy(CapabilityMismatch)
          else if !DescriptorOk(d) then BlockedBy(UnsafeExecutor)
          else Resolved(d)
  }

  /** Against a catalogue that was built, whatever registry the resolver uses: three of the seven
      blockers never occur, and a resolved executor is for exactly the requested specification,
      safe, and supports all that was required. */
  lemma ResolveIsExact(c: Catalog, built: map<string, Specification>, registry: map<string, Specification>, r: Request)
    requires CatalogOk(c, built)
    ensures
      match Resolve(c, registry, r)
      case BlockedBy(code) => code != ExecutorNotFound && code != IdentityMismatch && code != UnsafeExecutor
      case Resolved(d) =>
        && d.specificationId == r.specificationId && d.specificationVersion == r.specificationVersion
        && DescriptorOk(d) && BoundToSpecification(d, built)
        && forall id :: id in r.requiredCapabilityIds ==> id in d.supportedCapabilityIds
  {
    var key := SpecKey(r.specificationId, r.specificationVersion);
    if RequestOk(r) && key in c.bindings {
      var b := c.bindings[key].descriptor;
      assert DescriptorOk(b);
      SpecKeyIsInjective(b.specificationId, b.specificationVersion, r.specificationId, r.specificationVersion);
    }
  }

  /** Distinct specifications resolve to executors with distinct identities. */
  lemma ResolveIsInjective(
      c: Catalog, built: map<string, Specification>, registry: map<string, Specification>, r: Request, q: Request)
    requires CatalogOk(c, built) && Resolve(c, registry, r).Resolved? && Resolve(c, registry, q).Resolved?
    requires
      var d, e := Resolve(c, registry, r).executor, Resolve(c, registry, q).executor;
      KeyOf(d) == KeyOf(e)
    ensures r.specificationId == q.specificationId && r.specificationVersion == q.specificationVersion
  {
    hide DescriptorOk, BoundToSpecification, KeyOf, SpecificationFound;
    SpecKeyIsInjective(r.specificationId, r.specificationVersion, q.specificationId, q.specificationVersion) by {
      assert SpecKey(r.specificationId, r.specificationVersion) == SpecKey(q.specificationId, q.specificationVersion);
    }
  }

  // ------------------------------------------------------------------- the last at-sign

  /** Cutting at the last `@` gives the agent back, because a version holds none. */
  lemma CutGivesAgent(agentId: string, version: string)
    requires '@' !in version
    ensures
      var id := ExecutorKey(agentId, version);
      LastAt(id) == |agentId| && SliceTo(id, LastAt(id)) == agentId && id[|agentId| + 1..] == version
  {
    var id := ExecutorKey(agentId, version);
    assert id[|agentId|] == '@';
    forall k | |agentId| < k < |id|
      ensures id[k] != '@'
    {
      assert id[k] == version[k - |agentId| - 1];
    }
  }

  /** The specification check succeeds exactly for a registered `agentId@version` asked for under
      that very version, even though the lookup key itself is ambiguous. */
  lemma SpecificationFoundExactly(registry: map<string, Specification>, r: Request)
    requires RegistryOk(registry)
    ensures SpecificationFound(registry, r)
            <==> r.specificationId in registry && registry[r.specificationId].version == r.specificationVersion
  {
    var id, v := r.specificationId, r.specificationVersion;
    if SpecificationFound(registry, r) {
      var cut := SliceTo(id, LastAt(id));
      var s := registry[ExecutorKey(cut, v)];
      assert ExecutorKey(s.agentId, s.version) == ExecutorKey(cut, v) == id;
      CutGivesAgent(s.agentId, s.version);
      assert cut == s.agentId;
      assert ExecutorKey(cut, v)[|cut| + 1..] == v;
    }
    if id in registry && registry[id].version == v {
      CutGivesAgent(registry[id].agentId, v);
    }
  }

  predicate Offers(b: Binding, r: Request) {
    && b.descriptor.specificationId == r.specificationId
    && b.descriptor.specificationVersion == r.specificationVersion
    && forall id :: id in r.requiredCapabilityIds ==> id in b.descriptor.supportedCapabilityIds
  }

  lemma OfferResolves(c: Catalog, registry: map<string, Specification>, r: Request, k: string)
    requires CatalogOk(c, registry) && RegistryOk(registry) && RequestOk(r) && k in c.bindings
    requires Offers(c.bindings[k], r)
    ensures Resolve(c, registry, r).Resolved?
  {
    hide RequestOk, ValidId, KeyOf, GetSpecification;
    BoundSpecificationIsRegistered(c.bindings[k].descriptor, registry);
    SpecificationFoundExactly(registry, r);
    hide SpecificationFound, RegistryOk;
    ResolveIsExact(c, registry, registry, r);
    hide DescriptorOk, BoundToSpecification;
    assert k == SpecKey(r.specificationId, r.specificationVersion);
  }

  /** With the registry it was built from, every active binding can be resolved: a well-formed
      request resolves exactly when an active binding names its specification and supports the
      capabilities it requires. */
  lemma ResolvesEveryBinding(c: Catalog, registry: map<string, Specification>, r: Request)
    requires CatalogOk(c, registry) && RegistryOk(registry) && RequestOk(r)
    ensures Resolve(c, registry, r).Resolved? <==> exists k :: k in c.bindings && Offers(c.bindings[k], r)
  {
    hide RequestOk, DescriptorOk, BoundToSpecification, RegistryOk, SpecificationFound;
    if Resolve(c, registry, r).Resolved? {
      ResolveIsExact(c, registry, registry, r);
      assert Offers(c.bindings[SpecKey(r.specificationId, r.specificationVersion)], r);
    }
    if k :| k in c.bindings && Offers(c.bindings[k], r) {
      OfferResolves(c, registry, r, k);
    }
  }

  lemma BoundSpecificationIsRegistered(d: Descriptor, registry: map<string, Specification>)
    requires RegistryOk(registry) && BoundToSpecification(d, registry)
    ensures d.specificationId in registry && registry[d.specificationId].version == d.specificationVersion
    ensures registry[d.specificationId] == Specification(d.runtimeAgentId, d.runtimeAgentVersion)
    ensures d.roleId == d.runtimeAgentId
  {
    var s := GetSpecification(registry, d.roleId, d.specificationVersion).value;
    assert ExecutorKey(s.agentId, s.version) == ExecutorKey(d.roleId, d.specificationVersion);
    assert ExecutorKey(s.agentId, s.version)[|s.agentId| + 1..] == s.version;
    assert ExecutorKey(d.roleId, d.specificationVersion)[|d.roleId| + 1..] == d.specificationVersion;
  }

  // ------------------------------------------------------------------- what a resolved executor is

  /** The one safety profile there is: deterministic, replayable and local, and nothing else. */
  const LOCAL: Safety := Safety(
    browserUse := false, deterministic := true, externalSideEffects := false, filesystemSideEffects := false,
    localOnly := true, modelUse := false, networkUse := false, providerUse := false, replaySafe := true,
    toolUse := false)

  /** One to 128 characters, all of them letters, digits or `@ . _ : -`, told by their codes. */
  predicate PlainId(s: string) {
    && 1 <= |s| <= 128
    && forall i :: 0 <= i < |s| ==> PlainCode(s[i] as int)
  }

  predicate PlainCode(n: int) {
    || 48 <= n <= 57 || 64 <= n <= 90 || 97 <= n <= 122
    || n == 45 || n == 46 || n == 58 || n == 95
  }

  lemma CodeExactly(c: char)
    ensures IdChar(c) <==> PlainCode(c as int)
  {
  }

  lemma ValidExactly(s: string)
    ensures ValidId(s) <==> PlainId(s)
  {
    forall i | 0 <= i < |s|
      ensures IdChar(s[i]) <==> PlainCode(s[i] as int)
    {
      CodeExactly(s[i]);
    }
    hide IdChar, PlainCode;
  }

  /** Whatever is resolved has no effects, names itself and its capabilities by plain identifiers without
      repeating one, and is the agent of exactly the registered specification asked for, under that
      version. */
  lemma ResolvedIsSafe(c: Catalog, built: map<string, Specification>, registry: map<string, Specification>, r: Request)
    requires CatalogOk(c, built) && RegistryOk(built) && Resolve(c, registry, r).Resolved?
    ensures
      var d := Resolve(c, registry, r).executor;
      && d.safety == LOCAL && d.executionMode == "DETERMINISTIC_LOCAL"
      && PlainId(d.executorId) && PlainId(d.executorVersion) && PlainId(d.inputContractId)
      && PlainId(d.outputContractId)
      && (forall id :: id in d.supportedCapabilityIds ==> PlainId(id))
      && (forall i, j :: 0 <= i < j < |d.supportedCapabilityIds| ==>
            d.supportedCapabilityIds[i] != d.supportedCapabilityIds[j])
      && d.specificationId == r.specificationId && d.specificationVersion == r.specificationVersion
      && d.specificationId in built
      && built[d.specificationId] == Specification(d.runtimeAgentId, d.runtimeAgentVersion)
      && d.roleId == d.runtimeAgentId && d.runtimeAgentVersion == d.specificationVersion
  {
    var d := Resolve(c, registry, r).executor;
    ResolveIsExact(c, built, registry, r);
    DescriptorIsSafe(d);
    BoundSpecificationIsRegistered(d, built);
    hide DescriptorOk, PlainId, Resolve, CatalogOk;
  }

  lemma DescriptorIsSafe(d: Descriptor)
    requires DescriptorOk(d)
    ensures d.safety == LOCAL && d.executionMode == "DETERMINISTIC_LOCAL"
    ensures PlainId(d.executorId) && PlainId(d.executorVersion) && PlainId(d.inputContractId)
    ensures PlainId(d.outputContractId) && forall id :: id in d.supportedCapabilityIds ==> PlainId(id)
    ensures forall i, j :: 0 <= i < j < |d.supportedCapabilityIds| ==>
              d.supportedCapabilityIds[i] != d.supportedCapabilityIds[j]
  {
    hide PlainId, ValidId;
    forall s
      ensures ValidId(s) <==> PlainId(s)
    {
      ValidExactly(s);
    }
  }

  /** Conversely such a descriptor is accepted. */
  lemma SafeIsAccepted(d: Descriptor)
    requires d.safety == LOCAL && d.executionMode == "DETERMINISTIC_LOCAL"
    requires PlainId(d.executorId) && PlainId(d.executorVersion) && PlainId(d.runtimeAgentId)
    requires PlainId(d.runtimeAgentVersion) && PlainId(d.specificationId) && PlainId(d.specificationVersion)
    requires PlainId(d.roleId) && PlainId(d.inputContractId) && PlainId(d.outputContractId)
    requires forall id :: id in d.supportedCapabilityIds ==> PlainId(id)
    requires forall i, j :: 0 <= i < j < |d.supportedCapabilityIds| ==>
               d.supportedCapabilityIds[i] != d.supportedCapabilityIds[j]
    ensures DescriptorOk(d)
  {
    hide PlainId, ValidId;
    forall s
      ensures ValidId(s) <==> PlainId(s)
    {
      ValidExactly(s);
    }
  }

  /** Against a catalogue built with the resolver's own registry: which of the four answers that occur
      is given, told by the request, the registered specifications and the active bindings. */
  lemma ResolveAnswersExactly(c: Catalog, registry: map<string, Specification>, r: Request)
    requires CatalogOk(c, registry) && RegistryOk(registry)
    ensures
      var answer := Resolve(c, registry, r);
      var plain := IsPlain(r);
      var known := r.specificationId in registry && registry[r.specificationId].version == r.specificationVersion;
      var bound := exists k :: k in c.bindings && IsFor(c.bindings[k], r);
      && (answer == BlockedBy(InvalidRequest) <==> !plain)
      && (answer == BlockedBy(SpecificationNotFound) <==> plain && !known)
      && (answer == BlockedBy(BindingNotFound) <==> plain && known && !bound)
      && (answer == BlockedBy(CapabilityMismatch) <==>
            plain && bound && forall k :: k in c.bindings ==> !Offers(c.bindings[k], r))
      && (answer.Resolved? <==> plain && exists k :: k in c.bindings && Offers(c.bindings[k], r))
  {
    RequestIsPlain(r);
    SpecificationFoundExactly(registry, r);
    ResolveIsExact(c, registry, registry, r);
    BoundIsKept(c, registry, r);
    if RequestOk(r) {
      ResolvesEveryBinding(c, registry, r);
    }
    hide RequestOk, DescriptorOk, BoundToSpecification, RegistryOk, SpecificationFound, CatalogOk, IsPlain, KeyOf;
  }

  predicate IsPlain(r: Request) {
    && PlainId(r.specificationId) && PlainId(r.specificationVersion)
    && forall id :: id in r.requiredCapabilityIds ==> PlainId(id)
  }

  predicate IsFor(b: Binding, r: Request) {
    b.descriptor.specificationId == r.specificationId && b.descriptor.specificationVersion == r.specificationVersion
  }

  lemma RequestIsPlain(r: Request)
    ensures RequestOk(r) <==> IsPlain(r)
  {
    hide PlainId, ValidId;
    forall s
      ensures ValidId(s) <==> PlainId(s)
    {
      ValidExactly(s);
    }
  }

  /** An active binding for the request stands under its key, and its specification is registered. */
  lemma BoundIsKept(c: Catalog, registry: map<string, Specification>, r: Request)
    requires CatalogOk(c, registry) && RegistryOk(registry)
    ensures (exists k :: k in c.bindings && IsFor(c.bindings[k], r)) ==>
              && SpecKey(r.specificationId, r.specificationVersion) in c.bindings
              && r.specificationId in registry && registry[r.specificationId].version == r.specificationVersion
    ensures RequestOk(r) && SpecKey(r.specificationId, r.specificationVersion) in c.bindings ==>
              IsFor(c.bindings[SpecKey(r.specificationId, r.specificationVersion)], r)
  {
    hide DescriptorOk, BoundToSpecification, KeyOf;
    if k :| k in c.bindings && IsFor(c.bindings[k], r) {
      BoundSpecificationIsRegistered(c.bindings[k].descriptor, registry);
    }
    var key := SpecKey(r.specificationId, r.specificationVersion);
    if RequestOk(r) && key in c.bindings {
      var b := c.bindings[key].descriptor;
      assert ValidId(b.specificationId) by { BoundIsValid(c, registry, key); }
      SpecKeyIsInjective(b.specificationId, b.specificationVersion, r.specificationId, r.specificationVersion);
    }
  }

  lemma BoundIsValid(c: Catalog, registry: map<string, Specification>, k: string)
    requires CatalogOk(c, registry) && k in c.bindings
    ensures ValidId(c.bindings[k].descriptor.specificationId)
  {
    assert DescriptorOk(c.bindings[k].descriptor);
  }
}
