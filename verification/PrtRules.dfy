/** The plugin registry as content and admission rules: what each mutation does to the
    content or why it is refused, what every reachable content satisfies, and what a
    bundle is in terms of its parts. */
module PrtRules {
  import opened Wrappers

  datatype Lifecycle = Proposed | Active | Deprecated | Retired

  function Rank(l: Lifecycle): nat {
    match l
    case Proposed => 0
    case Active => 1
    case Deprecated => 2
    case Retired => 3
  }

  type Constraints = map<string, string>

  datatype Capability = Capability(
    id: string, description: string, category: string, facets: seq<string>, lifecycle: Lifecycle, aliases: seq<string>,
    expectations: seq<string>, constraints: Constraints, entryVersion: nat, deprecationPointer: Option<string>)

  datatype Provider = Provider(id: string, version: string, constraints: Constraints, loadPolicy: Constraints, lifecycle: Lifecycle)

  datatype Binding = Binding(capabilityId: string, providerId: string, terms: Constraints)

  datatype RelationKind = Dependency | Composition | Alternative | Conflict
  datatype Relationship = Relationship(kind: RelationKind, src: string, dst: string)

  /** A binding is keyed by the canonical capability id and the provider id. */
  type BindingKey = (string, string)

  datatype Content = Content(
    capabilities: map<string, Capability>, providers: map<string, Provider>, bindings: map<BindingKey, Binding>,
    aliases: map<string, string>, relationships: seq<Relationship>)

  const EMPTY := Content(map[], map[], map[], map[], [])

  datatype Entity = CapabilityEntity | ProviderEntity | UnknownEntity

  /** One declaration's records, admitted together. */
  datatype Bundle = Bundle(capabilities: seq<Capability>, provider: Provider, bindings: seq<Binding>, relationships: seq<Relationship>)

  datatype Mutation =
    | AddCapability(capability: Capability)
    | UpdateCapability(capability: Capability)
    | AddProvider(provider: Provider)
    | AddBinding(binding: Binding)
    | RemoveBinding(capabilityId: string, providerId: string)
    | AddRelationship(relationship: Relationship)
    | Transition(entity: Entity, id: string, to: Option<Lifecycle>)
    | AdmitBundle(bundle: Bundle)
    | UnknownKind

  datatype Refusal =
    | UnknownMutation | TombstoneReuse | DuplicateId | AliasResolution | MetadataIncomplete | NotFound
    | LifecycleTransition | AliasTargetRetirement | BindingConsistency | RelationshipEndpoint

  // -- reading -------------------------------------------------------------------------

  /** The canonical id: an alias's target, or the id of an entry itself. */
  function Resolve(c: Content, id: string): Option<string> {
    if id in c.aliases then Some(c.aliases[id]) else if id in c.capabilities then Some(id) else None
  }

  /** Keys the two sides share agree. */
  predicate Compatible(a: Constraints, b: Constraints) {
    forall k :: k in a && k in b ==> a[k] == b[k]
  }

  predicate Matchable(l: Lifecycle) {
    l == Active || l == Deprecated
  }

  /** The providers bound to a capability, by canonical id. */
  function ProvidersFor(bindings: map<BindingKey, Binding>, canonical: string): set<string> {
    set k | k in bindings && k.0 == canonical :: k.1
  }

  /** All bindings of the capability an id resolves to. */
  function BindingsFor(c: Content, id: string): set<Binding> {
    var canonical := Resolve(c, id);
    if canonical.None? then {} else set k | k in c.bindings && k.0 == canonical.value :: c.bindings[k]
  }

  // -- the handlers --------------------------------------------------------------------

  predicate AliasesFree(c: Content, aliases: seq<string>) {
    forall a :: a in aliases ==> a !in c.capabilities && a !in c.aliases
  }

  function Pointed(m: map<string, string>, aliases: seq<string>, target: string): map<string, string> {
    map a | a in m.Keys + (set b | b in aliases) :: if a in aliases then target else m[a]
  }

  function AddedCapability(c: Content, record: Capability): Result<Content, Refusal> {
    if record.id in c.capabilities then
      Err(if c.capabilities[record.id].lifecycle == Retired then TombstoneReuse else DuplicateId)
    else if record.id in c.aliases then Err(AliasResolution)
    else if record.expectations == [] then Err(MetadataIncomplete)
    else if !AliasesFree(c, record.aliases) then Err(AliasResolution)
    else Ok(c.(capabilities := c.capabilities[record.id := record], aliases := Pointed(c.aliases, record.aliases, record.id)))
  }

  function UpdatedCapability(c: Content, record: Capability): Result<Content, Refusal> {
    if record.id !in c.capabilities then Err(NotFound)
    else
      var existing := c.capabilities[record.id];
      if existing.lifecycle == Retired then Err(TombstoneReuse)
      else if record.lifecycle != existing.lifecycle then Err(LifecycleTransition)
      else if record.category != existing.category || record.aliases != existing.aliases then Err(AliasResolution)
      else if record.expectations == [] then Err(MetadataIncomplete)
      else Ok(c.(capabilities := c.capabilities[record.id := record]))
  }

  function AddedProvider(c: Content, record: Provider): Result<Content, Refusal> {
    if record.id in c.providers then
      Err(if c.providers[record.id].lifecycle == Retired then TombstoneReuse else DuplicateId)
    else Ok(c.(providers := c.providers[record.id := record]))
  }

  /** The three conditions of the add-binding test, on a canonical capability id. */
  predicate Bindable(c: Content, capabilityId: string, providerId: string) {
    && capabilityId in c.capabilities && Matchable(c.capabilities[capabilityId].lifecycle)
    && providerId in c.providers
    && Compatible(c.capabilities[capabilityId].constraints, c.providers[providerId].constraints)
  }

  function AddedBinding(c: Content, record: Binding): Result<Content, Refusal> {
    var canonical := Resolve(c, record.capabilityId);
    if canonical.None? || !Bindable(c, canonical.value, record.providerId) then Err(BindingConsistency)
    else Ok(c.(bindings := c.bindings[(canonical.value, record.providerId) := record.(capabilityId := canonical.value)]))
  }

  function RemovedBinding(c: Content, capabilityId: string, providerId: string): Result<Content, Refusal> {
    var canonical := Resolve(c, capabilityId);
    if canonical.None? || (canonical.value, providerId) !in c.bindings then Err(NotFound)
    else Ok(c.(bindings := c.bindings - {(canonical.value, providerId)}))
  }

  function AddedRelationship(c: Content, r: Relationship): Result<Content, Refusal> {
    if Resolve(c, r.src).None? || Resolve(c, r.dst).None? then Err(RelationshipEndpoint)
    else Ok(c.(relationships := c.relationships + [r]))
  }

  predicate Forward(from: Lifecycle, to: Option<Lifecycle>) {
    to.Some? && Rank(from) < Rank(to.value)
  }

  function TransitionedCapability(c: Content, id: string, to: Option<Lifecycle>): Result<Content, Refusal> {
    if id !in c.capabilities then Err(NotFound)
    else if !Forward(c.capabilities[id].lifecycle, to) then Err(LifecycleTransition)
    else if to.value == Retired && id in c.aliases.Values then Err(AliasTargetRetirement)
    else Ok(c.(capabilities := c.capabilities[id := c.capabilities[id].(lifecycle := to.value)]))
  }

  /** The bindings of every other provider. */
  function WithoutProvider(bindings: map<BindingKey, Binding>, id: string): map<BindingKey, Binding> {
    map k | k in bindings && k.1 != id :: bindings[k]
  }

  function TransitionedProvider(c: Content, id: string, to: Option<Lifecycle>): Result<Content, Refusal> {
    if id !in c.providers then Err(NotFound)
    else if !Forward(c.providers[id].lifecycle, to) then Err(LifecycleTransition)
    else Ok(c.(providers := c.providers[id := c.providers[id].(lifecycle := to.value)],
               bindings := if to.value == Retired then WithoutProvider(c.bindings, id) else c.bindings))
  }

  function AddedCapabilities(c: Content, records: seq<Capability>): Result<Content, Refusal>
    decreases |records|
  {
    if records == [] then Ok(c)
    else
      var next :- AddedCapability(c, records[0]);
      AddedCapabilities(next, records[1..])
  }

  function AddedBindings(c: Content, records: seq<Binding>): Result<Content, Refusal>
    decreases |records|
  {
    if records == [] then Ok(c)
    else
      var next :- AddedBinding(c, records[0]);
      AddedBindings(next, records[1..])
  }

  function AddedRelationships(c: Content, records: seq<Relationship>): Result<Content, Refusal>
    decreases |records|
  {
    if records == [] then Ok(c)
    else
      var next :- AddedRelationship(c, records[0]);
      AddedRelationships(next, records[1..])
  }

  function AdmittedBundle(c: Content, b: Bundle): Result<Content, Refusal> {
    var withCapabilities :- AddedCapabilities(c, b.capabilities);
    var withProvider :- AddedProvider(withCapabilities, b.provider);
    var withBindings :- AddedBindings(withProvider, b.bindings);
    AddedRelationships(withBindings, b.relationships)
  }

  /** The next content, or the refusal. */
  function Admit(c: Content, m: Mutation): Result<Content, Refusal> {
    match m
    case AddCapability(record) => AddedCapability(c, record)
    case UpdateCapability(record) => UpdatedCapability(c, record)
    case AddProvider(record) => AddedProvider(c, record)
    case AddBinding(record) => AddedBinding(c, record)
    case RemoveBinding(capabilityId, providerId) => RemovedBinding(c, capabilityId, providerId)
    case AddRelationship(record) => AddedRelationship(c, record)
    case Transition(entity, id, to) =>
      (match entity
       case CapabilityEntity => TransitionedCapability(c, id, to)
       case ProviderEntity => TransitionedProvider(c, id, to)
       case UnknownEntity => Err(UnknownMutation))
    case AdmitBundle(bundle) => AdmittedBundle(c, bundle)
    case UnknownKind => Err(UnknownMutation)
  }

  // -- a bundle and its parts ------------------------------------------------------------

  /** Mutations applied one after the other, up to the first refusal. */
  function ApplyAll(c: Content, ms: seq<Mutation>): Result<Content, Refusal>
    decreases |ms|
  {
    if ms == [] then Ok(c)
    else
      var next :- Admit(c, ms[0]);
      ApplyAll(next, ms[1..])
  }

  function CapabilityParts(records: seq<Capability>): seq<Mutation> {
    if records == [] then [] else [AddCapability(records[0])] + CapabilityParts(records[1..])
  }

  function BindingParts(records: seq<Binding>): seq<Mutation> {
    if records == [] then [] else [AddBinding(records[0])] + BindingParts(records[1..])
  }

  function RelationshipParts(records: seq<Relationship>): seq<Mutation> {
    if records == [] then [] else [AddRelationship(records[0])] + RelationshipParts(records[1..])
  }

  function Parts(b: Bundle): seq<Mutation> {
    CapabilityParts(b.capabilities) + ([AddProvider(b.provider)] + (BindingParts(b.bindings) + RelationshipParts(b.relationships)))
  }

  lemma {:induction false} ApplyAppend(c: Content, a: seq<Mutation>, b: seq<Mutation>)
    ensures ApplyAll(c, a + b) == (var first := ApplyAll(c, a); if first.Err? then first else ApplyAll(first.value, b))
    decreases |a|
  {
    if a == [] {
      assert a + b == b;
    } else {
      assert (a + b)[1..] == a[1..] + b;
      var next := Admit(c, a[0]);
      if next.Ok? {
        ApplyAppend(next.value, a[1..], b);
      }
    }
  }

  lemma {:induction false} CapabilitiesAreParts(c: Content, records: seq<Capability>)
    ensures ApplyAll(c, CapabilityParts(records)) == AddedCapabilities(c, records)
    decreases |records|
  {
    if records != [] {
      assert CapabilityParts(records)[1..] == CapabilityParts(records[1..]);
      var next := AddedCapability(c, records[0]);
      if next.Ok? {
        CapabilitiesAreParts(next.value, records[1..]);
      }
    }
  }

  lemma {:induction false} BindingsAreParts(c: Content, records: seq<Binding>)
    ensures ApplyAll(c, BindingParts(records)) == AddedBindings(c, records)
    decreases |records|
  {
    if records != [] {
      assert BindingParts(records)[1..] == BindingParts(records[1..]);
      var next := AddedBinding(c, records[0]);
      if next.Ok? {
        BindingsAreParts(next.value, records[1..]);
      }
    }
  }

  lemma {:induction false} RelationshipsAreParts(c: Content, records: seq<Relationship>)
    ensures ApplyAll(c, RelationshipParts(records)) == AddedRelationships(c, records)
    decreases |records|
  {
    if records != [] {
      assert RelationshipParts(records)[1..] == RelationshipParts(records[1..]);
      var next := AddedRelationship(c, records[0]);
      if next.Ok? {
        RelationshipsAreParts(next.value, records[1..]);
      }
    }
  }

  /** Admitting a bundle is applying its parts one by one: it succeeds exactly when they
      all do and reaches the same content, and otherwise is refused for the same reason. */
  lemma BundleIsItsParts(c: Content, b: Bundle)
    ensures Admit(c, AdmitBundle(b)) == ApplyAll(c, Parts(b))
  {
    var rest := BindingParts(b.bindings) + RelationshipParts(b.relationships);
    ApplyAppend(c, CapabilityParts(b.capabilities), [AddProvider(b.provider)] + rest);
    CapabilitiesAreParts(c, b.capabilities);
    var one := AddedCapabilities(c, b.capabilities);
    if one.Ok? {
      assert ([AddProvider(b.provider)] + rest)[1..] == rest;
      var two := AddedProvider(one.value, b.provider);
      if two.Ok? {
        ApplyAppend(two.value, BindingParts(b.bindings), RelationshipParts(b.relationships));
        BindingsAreParts(two.value, b.bindings);
        var three := AddedBindings(two.value, b.bindings);
        if three.Ok? {
          RelationshipsAreParts(three.value, b.relationships);
        }
      }
    }
  }

  // -- what every reachable content satisfies ------------------------------------------------

  ghost predicate KeyedById(c: Content) {
    && (forall id :: id in c.capabilities ==> c.capabilities[id].id == id)
    && (forall id :: id in c.providers ==> c.providers[id].id == id)
    && (forall k :: k in c.bindings ==> c.bindings[k].capabilityId == k.0 && c.bindings[k].providerId == k.1)
  }

  ghost predicate Declares(c: Content, alias: string, target: string) {
    target in c.capabilities && alias in c.capabilities[target].aliases
  }

  /** The alias map is exactly what the records declare, and no entry is an alias of another. */
  ghost predicate AliasesDeclared(c: Content) {
    && (forall a, t :: Declares(c, a, t) <==> a in c.aliases && c.aliases[a] == t)
    && (forall a :: a in c.aliases && a in c.capabilities ==> c.aliases[a] == a)
  }

  ghost predicate BindingsNamed(c: Content) {
    forall k :: k in c.bindings ==>
      k.0 in c.capabilities && c.capabilities[k.0].lifecycle != Proposed && k.1 in c.providers
  }

  ghost predicate EndpointsResolve(c: Content) {
    forall r :: r in c.relationships ==> Resolve(c, r.src).Some? && Resolve(c, r.dst).Some?
  }

  ghost predicate Verifiable(c: Content) {
    forall id :: id in c.capabilities ==> c.capabilities[id].expectations != []
  }

  ghost predicate RegistryOk(c: Content) {
    KeyedById(c) && AliasesDeclared(c) && BindingsNamed(c) && EndpointsResolve(c) && Verifiable(c)
  }

  /** From one version to a later one: nothing vanishes, category and aliases are fixed,
      lifecycles only move forward, retired capabilities and all providers are otherwise
      unchanged. */
  ghost predicate Evolves(before: Content, after: Content) {
    && (forall id :: id in before.capabilities ==>
          id in after.capabilities && CapabilityEvolves(before.capabilities[id], after.capabilities[id]))
    && (forall id :: id in before.providers ==>
          id in after.providers && ProviderEvolves(before.providers[id], after.providers[id]))
  }

  ghost predicate CapabilityEvolves(a: Capability, b: Capability) {
    && a.category == b.category && a.aliases == b.aliases && Rank(a.lifecycle) <= Rank(b.lifecycle)
    && (a.lifecycle == Retired ==> a == b)
  }

  ghost predicate ProviderEvolves(a: Provider, b: Provider) {
    b == a.(lifecycle := b.lifecycle) && Rank(a.lifecycle) <= Rank(b.lifecycle)
  }

  lemma EvolvesTransitive(a: Content, b: Content, c: Content)
    requires Evolves(a, b) && Evolves(b, c)
    ensures Evolves(a, c)
  {
    forall id | id in a.capabilities ensures id in c.capabilities && CapabilityEvolves(a.capabilities[id], c.capabilities[id]) {
      assert CapabilityEvolves(a.capabilities[id], b.capabilities[id]);
    }
    forall id | id in a.providers ensures id in c.providers && ProviderEvolves(a.providers[id], c.providers[id]) {
      assert ProviderEvolves(a.providers[id], b.providers[id]);
    }
  }

  /** What an id resolves to never changes once it resolves. */
  lemma ResolveStable(before: Content, after: Content, id: string)
    requires RegistryOk(before) && RegistryOk(after) && Evolves(before, after)
    requires Resolve(before, id).Some?
    ensures Resolve(after, id) == Resolve(before, id)
    ensures Resolve(before, id).value in before.capabilities
  {
    if id in before.aliases {
      var t := before.aliases[id];
      assert Declares(before, id, t);
      assert CapabilityEvolves(before.capabilities[t], after.capabilities[t]);
      assert Declares(after, id, t);
    }
  }

  // -- every admitted mutation keeps the invariant ---------------------------------------------

  lemma AddedCapabilityKeeps(c: Content, record: Capability)
    requires RegistryOk(c) && AddedCapability(c, record).Ok?
    ensures RegistryOk(AddedCapability(c, record).value) && Evolves(c, AddedCapability(c, record).value)
  {
    var next := AddedCapability(c, record).value;
    forall a, t ensures Declares(next, a, t) <==> a in next.aliases && next.aliases[a] == t {
      assert Declares(c, a, t) <==> a in c.aliases && c.aliases[a] == t;
      if a in record.aliases {
        assert a !in c.aliases;
        assert next.aliases[a] == record.id;
      }
    }
    forall a | a in next.aliases && a in next.capabilities ensures next.aliases[a] == a {
      if a in c.aliases {
        assert c.aliases[a] == next.aliases[a];
        assert a !in record.aliases;
      }
    }
  }

  lemma CapabilityReplaced(c: Content, record: Capability)
    requires RegistryOk(c) && record.id in c.capabilities && c.capabilities[record.id].lifecycle != Retired
    requires CapabilityEvolves(c.capabilities[record.id], record) && record.expectations != []
    ensures var next := c.(capabilities := c.capabilities[record.id := record]); RegistryOk(next) && Evolves(c, next)
  {
    var next := c.(capabilities := c.capabilities[record.id := record]);
    forall a, t ensures Declares(next, a, t) <==> a in next.aliases && next.aliases[a] == t {
      assert Declares(next, a, t) <==> Declares(c, a, t);
    }
  }

  lemma AddedBindingKeeps(c: Content, record: Binding)
    requires RegistryOk(c) && AddedBinding(c, record).Ok?
    ensures RegistryOk(AddedBinding(c, record).value) && Evolves(c, AddedBinding(c, record).value)
  {
    SameEntries(c, AddedBinding(c, record).value);
  }

  /** Content that differs in bindings and relationships only. */
  lemma SameEntries(c: Content, next: Content)
    requires RegistryOk(c) && next.capabilities == c.capabilities && next.aliases == c.aliases && next.providers == c.providers
    ensures AliasesDeclared(next) && Verifiable(next) && Evolves(c, next)
    ensures forall id :: Resolve(next, id) == Resolve(c, id)
  {
    forall a, t ensures Declares(next, a, t) <==> a in next.aliases && next.aliases[a] == t {
      assert Declares(next, a, t) <==> Declares(c, a, t);
    }
  }

  /** Content that differs in providers and bindings only. */
  lemma ProviderTouched(c: Content, next: Content)
    requires RegistryOk(c) && next == c.(providers := next.providers, bindings := next.bindings)
    requires forall id :: id in c.providers ==> id in next.providers && ProviderEvolves(c.providers[id], next.providers[id])
    requires forall id :: id in next.providers ==> next.providers[id].id == id
    requires next.bindings.Keys <= c.bindings.Keys && forall k :: k in next.bindings ==> next.bindings[k] == c.bindings[k]
    ensures RegistryOk(next) && Evolves(c, next)
  {
    forall a, t ensures Declares(next, a, t) <==> a in next.aliases && next.aliases[a] == t {
      assert Declares(next, a, t) <==> Declares(c, a, t);
    }
    forall k | k in next.bindings
      ensures k.0 in next.capabilities && next.capabilities[k.0].lifecycle != Proposed && k.1 in next.providers
    {
      assert k in c.bindings;
    }
  }

  lemma AddedRelationshipKeeps(c: Content, r: Relationship)
    requires RegistryOk(c) && AddedRelationship(c, r).Ok?
    ensures RegistryOk(AddedRelationship(c, r).value) && Evolves(c, AddedRelationship(c, r).value)
  {
    SameEntries(c, AddedRelationship(c, r).value);
  }

  predicate Single(m: Mutation) {
    !m.AdmitBundle?
  }

  lemma SingleKeeps(c: Content, m: Mutation)
    requires RegistryOk(c) && Single(m) && Admit(c, m).Ok?
    ensures RegistryOk(Admit(c, m).value) && Evolves(c, Admit(c, m).value)
  {
    match m
    case AddCapability(record) => AddedCapabilityKeeps(c, record);
    case UpdateCapability(record) => CapabilityReplaced(c, record);
    case AddProvider(record) => ProviderTouched(c, Admit(c, m).value);
    case AddBinding(record) => AddedBindingKeeps(c, record);
    case RemoveBinding(capabilityId, providerId) => SameEntries(c, Admit(c, m).value);
    case AddRelationship(record) => AddedRelationshipKeeps(c, record);
    case Transition(entity, id, to) => {
      if entity.CapabilityEntity? {
        CapabilityReplaced(c, c.capabilities[id].(lifecycle := to.value));
      } else {
        ProviderTouched(c, Admit(c, m).value);
      }
    }
  }

  lemma {:induction false} ApplyAllKeeps(c: Content, ms: seq<Mutation>)
    requires RegistryOk(c) && ApplyAll(c, ms).Ok? && forall m :: m in ms ==> Single(m)
    ensures RegistryOk(ApplyAll(c, ms).value) && Evolves(c, ApplyAll(c, ms).value)
    decreases |ms|
  {
    if ms != [] {
      SingleKeeps(c, ms[0]);
      var next := Admit(c, ms[0]).value;
      ApplyAllKeeps(next, ms[1..]);
      EvolvesTransitive(c, next, ApplyAll(c, ms).value);
    }
  }

  lemma PartsAreSingle(b: Bundle)
    ensures forall m :: m in Parts(b) ==> Single(m)
  {
    CapabilityPartsSingle(b.capabilities);
    BindingPartsSingle(b.bindings);
    RelationshipPartsSingle(b.relationships);
  }

  lemma {:induction false} CapabilityPartsSingle(records: seq<Capability>)
    ensures forall m :: m in CapabilityParts(records) ==> Single(m)
  {
    if records != [] {
      CapabilityPartsSingle(records[1..]);
    }
  }

  lemma {:induction false} BindingPartsSingle(records: seq<Binding>)
    ensures forall m :: m in BindingParts(records) ==> Single(m)
  {
    if records != [] {
      BindingPartsSingle(records[1..]);
    }
  }

  lemma {:induction false} RelationshipPartsSingle(records: seq<Relationship>)
    ensures forall m :: m in RelationshipParts(records) ==> Single(m)
  {
    if records != [] {
      RelationshipPartsSingle(records[1..]);
    }
  }

  /** Whatever is admitted keeps the registry in order and only moves it forward. */
  lemma AdmitKeeps(c: Content, m: Mutation)
    requires RegistryOk(c) && Admit(c, m).Ok?
    ensures RegistryOk(Admit(c, m).value) && Evolves(c, Admit(c, m).value)
  {
    if m.AdmitBundle? {
      BundleIsItsParts(c, m.bundle);
      PartsAreSingle(m.bundle);
      ApplyAllKeeps(c, Parts(m.bundle));
    } else {
      SingleKeeps(c, m);
    }
  }

  lemma EmptyOk()
    ensures RegistryOk(EMPTY)
  {
  }

  /** A run of mutations; a refused one changes nothing. */
  function RunFrom(c: Content, ms: seq<Mutation>): Content
    decreases |ms|
  {
    if ms == [] then c
    else
      var next := Admit(c, ms[0]);
      RunFrom(if next.Ok? then next.value else c, ms[1..])
  }

  /** Over any run from the empty registry the invariant holds, and what resolved keeps resolving. */
  lemma {:induction false} RunKeeps(c: Content, ms: seq<Mutation>)
    requires RegistryOk(c)
    ensures RegistryOk(RunFrom(c, ms)) && Evolves(c, RunFrom(c, ms))
    decreases |ms|
  {
    if ms != [] {
      var next := Admit(c, ms[0]);
      if next.Ok? {
        AdmitKeeps(c, ms[0]);
        RunKeeps(next.value, ms[1..]);
        EvolvesTransitive(c, next.value, RunFrom(next.value, ms[1..]));
      } else {
        RunKeeps(c, ms[1..]);
      }
    }
  }
}
