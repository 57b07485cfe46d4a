/** Persisting a registry as sorted lists of records, and rebuilding one by replaying
    them through the admission rules. */
module PrtPersistence {
  import opened Orders
  import opened PrtRegistry
  import opened PrtRules
  import opened Wrappers

  /** The canonical snapshot, without its version number. */
  datatype Stored = Stored(capabilities: seq<Capability>, providers: seq<Provider>, bindings: seq<Binding>, relationships: seq<Relationship>)

  /** The alphabetical order of the kinds. */
  function KindRank(k: RelationKind): nat {
    match k
    case Alternative => 0
    case Composition => 1
    case Conflict => 2
    case Dependency => 3
  }

  predicate RelationshipLe(a: Relationship, b: Relationship) {
    if a.kind != b.kind then KindRank(a.kind) < KindRank(b.kind) else PairLe((a.src, a.dst), (b.src, b.dst))
  }

  lemma RelationshipOrder()
    ensures TotalOrder(RelationshipLe)
  {
    PairOrder();
    forall a, b ensures RelationshipLe(a, b) || RelationshipLe(b, a) {
      assert PairLe((a.src, a.dst), (b.src, b.dst)) || PairLe((b.src, b.dst), (a.src, a.dst));
    }
    forall a, b | RelationshipLe(a, b) && RelationshipLe(b, a) ensures a == b {
      assert (a.src, a.dst) == (b.src, b.dst);
    }
    forall a, b, c | RelationshipLe(a, b) && RelationshipLe(b, c) ensures RelationshipLe(a, c) {
    }
  }

  function ValuesOf<K, V>(m: map<K, V>, keys: seq<K>): seq<V>
    requires forall k :: k in keys ==> k in m
  {
    seq(|keys|, i requires 0 <= i < |keys| => m[keys[i]])
  }

  ghost function BindingKeys(c: Content): (l: seq<BindingKey>)
    ensures Distinct(l) && Elements(l) == c.bindings.Keys && forall k :: k in l <==> k in c.bindings
  {
    PairOrder();
    var l := ListingBy(c.bindings.Keys, PairLe);
    assert forall k :: k in l <==> k in Elements(l);
    l
  }

  ghost function Ids<V>(m: map<string, V>): (l: seq<string>)
    ensures Distinct(l) && Elements(l) == m.Keys && forall k :: k in l <==> k in m
  {
    var l := Listing(m.Keys);
    assert forall k :: k in l <==> k in Elements(l);
    l
  }

  /** Every record, sorted by its identity. */
  ghost function Canonical(c: Content): Stored {
    Stored(ValuesOf(c.capabilities, Ids(c.capabilities)), ValuesOf(c.providers, Ids(c.providers)),
           ValuesOf(c.bindings, BindingKeys(c)), Sort(c.relationships, RelationshipLe))
  }

  /** The snapshot depends on the content alone, relationships counted but not ordered:
      not on the mutations that built it. */
  lemma CanonicalDetermined(a: Content, b: Content)
    requires a.capabilities == b.capabilities && a.providers == b.providers && a.bindings == b.bindings
    requires multiset(a.relationships) == multiset(b.relationships)
    ensures Canonical(a) == Canonical(b)
  {
    RelationshipOrder();
    SortPermutation(a.relationships, b.relationships, RelationshipLe);
  }

  // -- replay ---------------------------------------------------------------------------

  function AddedProviders(c: Content, records: seq<Provider>): Result<Content, Refusal>
    decreases |records|
  {
    if records == [] then Ok(c)
    else
      var next :- AddedProvider(c, records[0]);
      AddedProviders(next, records[1..])
  }

  /** The content load_registry builds, or the refusal it stops at. */
  function Replayed(s: Stored): Result<Content, Refusal> {
    var one :- AddedCapabilities(EMPTY, s.capabilities);
    var two :- AddedProviders(one, s.providers);
    var three :- AddedBindings(two, s.bindings);
    AddedRelationships(three, s.relationships)
  }

  /** The capabilities of S, with the aliases they declare. */
  ghost function OnlyCapabilities(c: Content, ids: set<string>): Content {
    Content(map id | id in c.capabilities && id in ids :: c.capabilities[id], map[], map[],
            map a | a in c.aliases && c.aliases[a] in ids :: c.aliases[a], [])
  }

  lemma OneMoreCapability(c: Content, ids: set<string>, id: string)
    requires RegistryOk(c) && id in c.capabilities && id !in ids
    ensures AddedCapability(OnlyCapabilities(c, ids), c.capabilities[id]) == Ok(OnlyCapabilities(c, ids + {id}))
  {
    var part, record := OnlyCapabilities(c, ids), c.capabilities[id];
    forall a | a in record.aliases ensures a in c.aliases && c.aliases[a] == id {
      assert Declares(c, a, id);
    }
    assert AliasesFree(part, record.aliases);
    var next := OnlyCapabilities(c, ids + {id});
    assert part.capabilities[id := record] == next.capabilities;
    forall a ensures a in Pointed(part.aliases, record.aliases, id) <==> a in next.aliases {
      if a in c.aliases && c.aliases[a] == id {
        assert Declares(c, a, id);
      }
    }
    assert Pointed(part.aliases, record.aliases, id) == next.aliases;
  }

  lemma {:induction false} CapabilitiesReplay(c: Content, ids: seq<string>, n: nat)
    requires RegistryOk(c) && Distinct(ids) && n <= |ids| && forall id :: id in ids ==> id in c.capabilities
    ensures AddedCapabilities(OnlyCapabilities(c, Elements(ids[..n])), ValuesOf(c.capabilities, ids)[n..])
            == Ok(OnlyCapabilities(c, Elements(ids)))
    decreases |ids| - n
  {
    var records := ValuesOf(c.capabilities, ids);
    if n == |ids| {
      assert ids[..n] == ids;
    } else {
      OneMoreKey(ids, n);
      OneMoreCapability(c, Elements(ids[..n]), ids[n]);
      assert records[n..][0] == c.capabilities[ids[n]] && records[n..][1..] == records[n + 1..];
      CapabilitiesReplay(c, ids, n + 1);
    }
  }

  /** All capabilities, and the providers of S. */
  ghost function WithProviders(c: Content, ids: set<string>): Content {
    Content(c.capabilities, map id | id in c.providers && id in ids :: c.providers[id], map[], c.aliases, [])
  }

  lemma OneMoreProvider(c: Content, ids: set<string>, id: string)
    requires RegistryOk(c) && id in c.providers && id !in ids
    ensures AddedProvider(WithProviders(c, ids), c.providers[id]) == Ok(WithProviders(c, ids + {id}))
  {
    assert WithProviders(c, ids).providers[id := c.providers[id]] == WithProviders(c, ids + {id}).providers;
  }

  lemma {:induction false} ProvidersReplay(c: Content, ids: seq<string>, n: nat)
    requires RegistryOk(c) && Distinct(ids) && n <= |ids| && forall id :: id in ids ==> id in c.providers
    ensures AddedProviders(WithProviders(c, Elements(ids[..n])), ValuesOf(c.providers, ids)[n..]) == Ok(WithProviders(c, Elements(ids)))
    decreases |ids| - n
  {
    var records := ValuesOf(c.providers, ids);
    if n == |ids| {
      assert ids[..n] == ids;
    } else {
      OneMoreKey(ids, n);
      OneMoreProvider(c, Elements(ids[..n]), ids[n]);
      assert records[n..][0] == c.providers[ids[n]] && records[n..][1..] == records[n + 1..];
      ProvidersReplay(c, ids, n + 1);
    }
  }

  /** All entries, and the bindings of S. */
  ghost function WithBindings(c: Content, keys: set<BindingKey>): Content {
    Content(c.capabilities, c.providers, map k | k in c.bindings && k in keys :: c.bindings[k], c.aliases, [])
  }

  lemma OneMoreBinding(c: Content, keys: set<BindingKey>, k: BindingKey)
    requires RegistryOk(c) && k in c.bindings && k !in keys
    ensures AddedBinding(WithBindings(c, keys), c.bindings[k])
            == if Bindable(c, k.0, k.1) then Ok(WithBindings(c, keys + {k})) else Err(BindingConsistency)
  {
    var part := WithBindings(c, keys);
    assert Resolve(part, k.0) == Some(k.0);
    assert part.bindings[k := c.bindings[k]] == WithBindings(c, keys + {k}).bindings;
  }

  ghost predicate AllBindable(c: Content, keys: seq<BindingKey>) {
    forall k :: k in keys ==> Bindable(c, k.0, k.1)
  }

  lemma AllBindableCons(c: Content, keys: seq<BindingKey>, n: nat)
    requires n < |keys|
    ensures AllBindable(c, keys[n..]) <==> Bindable(c, keys[n].0, keys[n].1) && AllBindable(c, keys[n + 1..])
  {
    assert keys[n..] == [keys[n]] + keys[n + 1..];
  }

  lemma OneMoreKey<T>(keys: seq<T>, n: nat)
    requires Distinct(keys) && n < |keys|
    ensures keys[n] !in Elements(keys[..n]) && Elements(keys[..n + 1]) == Elements(keys[..n]) + {keys[n]}
  {
    assert keys[..n + 1] == keys[..n] + [keys[n]];
  }

  lemma {:induction false} BindingsReplay(c: Content, keys: seq<BindingKey>, n: nat)
    requires RegistryOk(c) && Distinct(keys) && n <= |keys| && forall k :: k in keys ==> k in c.bindings
    ensures AddedBindings(WithBindings(c, Elements(keys[..n])), ValuesOf(c.bindings, keys)[n..])
            == if AllBindable(c, keys[n..]) then Ok(WithBindings(c, Elements(keys))) else Err(BindingConsistency)
    decreases |keys| - n
  {
    var records := ValuesOf(c.bindings, keys);
    if n == |keys| {
      assert keys[..n] == keys;
    } else {
      OneMoreKey(keys, n);
      OneMoreBinding(c, Elements(keys[..n]), keys[n]);
      AllBindableCons(c, keys, n);
      assert records[n..][0] == c.bindings[keys[n]] && records[n..][1..] == records[n + 1..];
      BindingsReplay(c, keys, n + 1);
    }
  }

  lemma {:induction false} RelationshipsReplay(c: Content, rs: seq<Relationship>)
    requires forall r :: r in rs ==> Resolve(c, r.src).Some? && Resolve(c, r.dst).Some?
    ensures AddedRelationships(c, rs) == Ok(c.(relationships := c.relationships + rs))
    decreases |rs|
  {
    if rs == [] {
      assert c.relationships + rs == c.relationships;
    } else {
      var next := c.(relationships := c.relationships + [rs[0]]);
      assert forall id :: Resolve(next, id) == Resolve(c, id);
      RelationshipsReplay(next, rs[1..]);
      assert c.relationships + [rs[0]] + rs[1..] == c.relationships + rs;
    }
  }

  /** Every stored binding still passes the add-binding test. */
  ghost predicate StillBindable(c: Content) {
    forall k :: k in c.bindings ==> Bindable(c, k.0, k.1)
  }

  /** A registry's snapshot replays if and only if every stored binding still passes the
      add-binding test, and then to the same content, its relationships sorted. */
  lemma SnapshotReplays(c: Content)
    requires RegistryOk(c)
    ensures Replayed(Canonical(c))
            == if StillBindable(c) then Ok(c.(relationships := Sort(c.relationships, RelationshipLe))) else Err(BindingConsistency)
  {
    CapabilityStage(c, Ids(c.capabilities));
    ProviderStage(c, Ids(c.providers));
    BindingStage(c, BindingKeys(c));
    RelationshipsEndToEnd(c);
    var s := Canonical(c);
    StagesCompose(s, OnlyCapabilities(c, c.capabilities.Keys), WithBindings(c, {}), AddedBindings(WithBindings(c, {}), s.bindings));
  }

  lemma StagesCompose(s: Stored, one: Content, two: Content, three: Result<Content, Refusal>)
    requires AddedCapabilities(EMPTY, s.capabilities) == Ok(one) && AddedProviders(one, s.providers) == Ok(two)
    requires three == AddedBindings(two, s.bindings)
    ensures Replayed(s) == if three.Err? then three else AddedRelationships(three.value, s.relationships)
  {
  }

  lemma CapabilityStage(c: Content, caps: seq<string>)
    requires RegistryOk(c) && Distinct(caps) && Elements(caps) == c.capabilities.Keys && forall id :: id in caps ==> id in c.capabilities
    ensures AddedCapabilities(EMPTY, ValuesOf(c.capabilities, caps)) == Ok(OnlyCapabilities(c, c.capabilities.Keys))
  {
    assert OnlyCapabilities(c, {}) == EMPTY;
    assert caps[..0] == [];
    var records := ValuesOf(c.capabilities, caps);
    assert records[0..] == records;
    CapabilitiesReplay(c, caps, 0);
  }

  lemma ProviderStage(c: Content, provs: seq<string>)
    requires RegistryOk(c) && Distinct(provs) && Elements(provs) == c.providers.Keys && forall id :: id in provs ==> id in c.providers
    ensures AddedProviders(OnlyCapabilities(c, c.capabilities.Keys), ValuesOf(c.providers, provs)) == Ok(WithBindings(c, {}))
  {
    AllAliases(c);
    assert OnlyCapabilities(c, c.capabilities.Keys) == WithProviders(c, {});
    assert provs[..0] == [];
    var records := ValuesOf(c.providers, provs);
    assert records[0..] == records;
    ProvidersReplay(c, provs, 0);
    assert WithProviders(c, Elements(provs)) == WithBindings(c, {});
  }

  lemma BindingStage(c: Content, keys: seq<BindingKey>)
    requires RegistryOk(c) && Distinct(keys) && Elements(keys) == c.bindings.Keys && forall k :: k in keys <==> k in c.bindings
    ensures AddedBindings(WithBindings(c, {}), ValuesOf(c.bindings, keys))
            == if StillBindable(c) then Ok(c.(relationships := [])) else Err(BindingConsistency)
  {
    assert keys[..0] == [] && keys[0..] == keys;
    var records := ValuesOf(c.bindings, keys);
    assert records[0..] == records;
    BindingsReplay(c, keys, 0);
    assert WithBindings(c, Elements(keys)) == c.(relationships := []);
  }

  lemma AllAliases(c: Content)
    requires RegistryOk(c)
    ensures forall a :: a in c.aliases ==> c.aliases[a] in c.capabilities
  {
    forall a | a in c.aliases ensures c.aliases[a] in c.capabilities {
      assert Declares(c, a, c.aliases[a]);
    }
  }

  lemma RelationshipsEndToEnd(c: Content)
    requires RegistryOk(c)
    ensures var rs := Sort(c.relationships, RelationshipLe);
            AddedRelationships(c.(relationships := []), rs) == Ok(c.(relationships := rs))
  {
    var rs, bare := Sort(c.relationships, RelationshipLe), c.(relationships := []);
    RelationshipOrder();
    SortCorrect(c.relationships, RelationshipLe);
    forall r | r in rs ensures Resolve(bare, r.src).Some? && Resolve(bare, r.dst).Some? {
      assert r in multiset(c.relationships);
    }
    RelationshipsReplay(bare, rs);
    assert bare.relationships + rs == rs;
  }

  /** The round trip: what comes back has the same entries, bindings and aliases, the
      same relationships counted, the same snapshot, and resolves every id alike. */
  lemma RoundTrip(c: Content)
    requires RegistryOk(c) && StillBindable(c)
    ensures var back := Replayed(Canonical(c));
            && back.Ok?
            && back.value == c.(relationships := back.value.relationships)
            && multiset(back.value.relationships) == multiset(c.relationships)
            && Canonical(back.value) == Canonical(c)
            && RegistryOk(back.value)
            && forall id :: Resolve(back.value, id) == Resolve(c, id)
  {
    SnapshotReplays(c);
    RelationshipOrder();
    SortCorrect(c.relationships, RelationshipLe);
    var back := Replayed(Canonical(c)).value;
    CanonicalDetermined(back, c);
    SameEntries(c, back);
    forall r | r in back.relationships ensures Resolve(back, r.src).Some? && Resolve(back, r.dst).Some? {
      assert r in multiset(c.relationships);
    }
  }

  // -- a registry that cannot be reloaded -------------------------------------------------

  /** An active capability, a provider, and a binding of the one to the other. */
  predicate Bound(cap: Capability, prov: Provider) {
    cap.lifecycle == Active && cap.aliases == [] && cap.expectations != [] && Compatible(cap.constraints, prov.constraints)
  }

  function BoundThenRetired(cap: Capability, prov: Provider): seq<Mutation> {
    [AddCapability(cap), AddProvider(prov), AddBinding(Binding(cap.id, prov.id, map[])),
     Transition(CapabilityEntity, cap.id, Some(Retired))]
  }

  /** The content those four mutations lead to. */
  function RetiredBound(cap: Capability, prov: Provider): Content {
    Content(map[cap.id := cap.(lifecycle := Retired)], map[prov.id := prov],
            map[(cap.id, prov.id) := Binding(cap.id, prov.id, map[])], map[], [])
  }

  lemma RetiredBoundReached(cap: Capability, prov: Provider)
    requires Bound(cap, prov)
    ensures ApplyAll(EMPTY, BoundThenRetired(cap, prov)) == Ok(RetiredBound(cap, prov))
  {
    var ms := BoundThenRetired(cap, prov);
    var one := Content(map[cap.id := cap], map[], map[], map[], []);
    assert Pointed(map[], cap.aliases, cap.id) == map[];
    var two := one.(providers := map[prov.id := prov]);
    var three := two.(bindings := map[(cap.id, prov.id) := Binding(cap.id, prov.id, map[])]);
    assert three.aliases.Values == {};
    assert cap.id in three.capabilities && Forward(Active, Some(Retired));
    assert three.capabilities[cap.id := cap.(lifecycle := Retired)] == RetiredBound(cap, prov).capabilities;
    assert TransitionedCapability(three, cap.id, Some(Retired)) == Ok(RetiredBound(cap, prov));
    FourSteps(EMPTY, ms, one, two, three, RetiredBound(cap, prov));
  }

  /** Retiring a bound capability is admitted and keeps its bindings, and the registry's
      own snapshot is then refused. */
  lemma RetiredTargetIsNotReloaded(cap: Capability, prov: Provider)
    requires Bound(cap, prov)
    ensures var final := ApplyAll(EMPTY, BoundThenRetired(cap, prov));
            final.Ok? && RegistryOk(final.value) && Replayed(Canonical(final.value)) == Err(BindingConsistency)
  {
    RetiredBoundReached(cap, prov);
    EmptyOk();
    ApplyAllKeeps(EMPTY, BoundThenRetired(cap, prov));
    SnapshotReplays(RetiredBound(cap, prov));
    assert (cap.id, prov.id) in RetiredBound(cap, prov).bindings;
  }

  lemma FourSteps(c: Content, ms: seq<Mutation>, one: Content, two: Content, three: Content, four: Content)
    requires |ms| == 4 && Admit(c, ms[0]) == Ok(one) && Admit(one, ms[1]) == Ok(two)
    requires Admit(two, ms[2]) == Ok(three) && Admit(three, ms[3]) == Ok(four)
    ensures ApplyAll(c, ms) == Ok(four)
  {
    assert ms[1..][0] == ms[1] && ms[1..][1..] == ms[2..] && ms[2..][0] == ms[2];
    assert ms[2..][1..] == ms[3..] && ms[3..][0] == ms[3] && ms[3..][1..] == [];
    assert ApplyAll(three, ms[3..]) == Ok(four);
    assert ApplyAll(two, ms[2..]) == Ok(four);
    assert ApplyAll(one, ms[1..]) == Ok(four);
  }

  // -- as it runs -------------------------------------------------------------------------

  datatype LoadError = Refused(refusal: Refusal) | ReplayMismatch

  /** _content, without the version. */
  method SnapshotOf(registry: Registry) returns (s: Stored)
    requires registry.Valid()
    ensures s == Canonical(registry.Contents())
  {
    PairOrder();
    RelationshipOrder();
    var capabilityIds := SortedOf(registry.capabilities.Keys);
    var providerIds := SortedOf(registry.providers.Keys);
    var keys := SortedBy(registry.bindings.Keys, PairLe);
    s := Stored(ValuesOf(registry.capabilities, capabilityIds), ValuesOf(registry.providers, providerIds),
                ValuesOf(registry.bindings, keys), Sort(registry.relationships, RelationshipLe));
  }

  /** What is left to replay, from the i-th record of one kind on. */
  method LoadCapabilities(registry: Registry, records: seq<Capability>) returns (refused: Option<Refusal>)
    requires registry.Valid()
    modifies registry
    ensures registry.Valid()
    ensures var spec := AddedCapabilities(old(registry.Contents()), records);
            if refused.Some? then spec == Err(refused.value) else spec == Ok(registry.Contents())
  {
    refused := None;
    assert records[0..] == records;
    var i := 0;
    while i < |records| && refused.None?
      invariant i <= |records| && registry.Valid()
      invariant AddedCapabilities(old(registry.Contents()), records)
                == if refused.Some? then Err(refused.value) else AddedCapabilities(registry.Contents(), records[i..])
      decreases |records| - i, refused.None?
    {
      assert records[i..][1..] == records[i + 1..];
      var r := registry.Apply(AddCapability(records[i]));
      if r.Err? {
        refused := Some(r.error);
      } else {
        i := i + 1;
      }
    }
  }

  method LoadProviders(registry: Registry, records: seq<Provider>) returns (refused: Option<Refusal>)
    requires registry.Valid()
    modifies registry
    ensures registry.Valid()
    ensures var spec := AddedProviders(old(registry.Contents()), records);
            if refused.Some? then spec == Err(refused.value) else spec == Ok(registry.Contents())
  {
    refused := None;
    assert records[0..] == records;
    var i := 0;
    while i < |records| && refused.None?
      invariant i <= |records| && registry.Valid()
      invariant AddedProviders(old(registry.Contents()), records)
                == if refused.Some? then Err(refused.value) else AddedProviders(registry.Contents(), records[i..])
      decreases |records| - i, refused.None?
    {
      assert records[i..][1..] == records[i + 1..];
      var r := registry.Apply(AddProvider(records[i]));
      if r.Err? {
        refused := Some(r.error);
      } else {
        i := i + 1;
      }
    }
  }

  lemma BindingsNext(c: Content, records: seq<Binding>, i: nat)
    requires i < |records|
    ensures AddedBindings(c, records[i..])
            == var next := Admit(c, AddBinding(records[i])); if next.Err? then next else AddedBindings(next.value, records[i + 1..])
  {
    assert records[i..][0] == records[i] && records[i..][1..] == records[i + 1..];
  }

  lemma RelationshipsNext(c: Content, records: seq<Relationship>, i: nat)
    requires i < |records|
    ensures AddedRelationships(c, records[i..])
            == var next := Admit(c, AddRelationship(records[i])); if next.Err? then next else AddedRelationships(next.value, records[i + 1..])
  {
    assert records[i..][0] == records[i] && records[i..][1..] == records[i + 1..];
  }

  method LoadBindings(registry: Registry, records: seq<Binding>) returns (refused: Option<Refusal>)
    requires registry.Valid()
    modifies registry
    ensures registry.Valid()
    ensures var spec := AddedBindings(old(registry.Contents()), records);
            if refused.Some? then spec == Err(refused.value) else spec == Ok(registry.Contents())
  {
    refused := None;
    assert records[0..] == records;
    var i := 0;
    while i < |records| && refused.None?
      invariant i <= |records| && registry.Valid()
      invariant AddedBindings(old(registry.Contents()), records)
                == if refused.Some? then Err(refused.value) else AddedBindings(registry.Contents(), records[i..])
      decreases |records| - i, refused.None?
    {
      BindingsNext(registry.Contents(), records, i);
      var r := registry.Apply(AddBinding(records[i]));
      if r.Err? {
        refused := Some(r.error);
      } else {
        i := i + 1;
      }
    }
  }

  method LoadRelationships(registry: Registry, records: seq<Relationship>) returns (refused: Option<Refusal>)
    requires registry.Valid()
    modifies registry
    ensures registry.Valid()
    ensures var spec := AddedRelationships(old(registry.Contents()), records);
            if refused.Some? then spec == Err(refused.value) else spec == Ok(registry.Contents())
  {
    refused := None;
    assert records[0..] == records;
    var i := 0;
    while i < |records| && refused.None?
      invariant i <= |records| && registry.Valid()
      invariant AddedRelationships(old(registry.Contents()), records)
                == if refused.Some? then Err(refused.value) else AddedRelationships(registry.Contents(), records[i..])
      decreases |records| - i, refused.None?
    {
      RelationshipsNext(registry.Contents(), records, i);
      var r := registry.Apply(AddRelationship(records[i]));
      if r.Err? {
        refused := Some(r.error);
      } else {
        i := i + 1;
      }
    }
  }

  /** load_registry: replay every record through a fresh registry's own Apply, then check
      that the replayed content has the same snapshot. */
  method LoadRegistry(s: Stored) returns (r: Result<Registry, LoadError>)
    ensures match Replayed(s)
            case Err(refusal) => r == Err(Refused(refusal))
            case Ok(content) =>
              if Canonical(content) == s then r.Ok? && fresh(r.value) && r.value.Valid() && r.value.Contents() == content
              else r == Err(ReplayMismatch)
  {
    var registry := new Registry();
    var refused := LoadCapabilities(registry, s.capabilities);
    if refused.Some? {
      return Err(Refused(refused.value));
    }
    refused := LoadProviders(registry, s.providers);
    if refused.Some? {
      return Err(Refused(refused.value));
    }
    refused := LoadBindings(registry, s.bindings);
    if refused.Some? {
      return Err(Refused(refused.value));
    }
    refused := LoadRelationships(registry, s.relationships);
    if refused.Some? {
      return Err(Refused(refused.value));
    }
    var replayed := SnapshotOf(registry);
    if replayed != s {
      return Err(ReplayMismatch);
    }
    return Ok(registry);
  }

  /** persist_registry followed by load_registry. It loads exactly when every stored
      binding still passes the add-binding test; the check at the end never fails. */
  method Reload(registry: Registry) returns (r: Result<Registry, LoadError>)
    requires registry.Valid()
    ensures StillBindable(registry.Contents()) ==>
              && r.Ok? && r.value.Valid()
              && var (before, after) := (registry.Contents(), r.value.Contents());
              && after == before.(relationships := after.relationships)
              && multiset(after.relationships) == multiset(before.relationships)
              && forall id :: Resolve(after, id) == Resolve(before, id)
    ensures !StillBindable(registry.Contents()) ==> r == Err(Refused(BindingConsistency))
  {
    assert registry.history[registry.version].content == registry.Contents();
    SnapshotReplays(registry.Contents());
    if StillBindable(registry.Contents()) {
      RoundTrip(registry.Contents());
    }
    var stored := SnapshotOf(registry);
    r := LoadRegistry(stored);
  }
}
