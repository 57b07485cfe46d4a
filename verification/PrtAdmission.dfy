/** The admission pipeline: seven pre-checks, a dry run, then persist and commit. */
module PrtAdmission {
  import opened PrtRegistry
  import opened PrtRules
  import opened Wrappers

  datatype Stage =
    | IdentityStage | CapabilityStage | MetadataStage | ConstraintStage | RelationshipStage | BindingStage | CompatibilityStage
    | ConsistencyStage | PublicationStage

  datatype AdmissionRefusal =
    | IdentityMalformed | SemanticHijack | CapabilityReference | ConstraintIncoherence | CompatibilityConflict
    | FromRegistry(refusal: Refusal)

  type Verdict = Option<AdmissionRefusal>

  /** A check made for one item after the other, up to the first refusal. */
  function FirstRefusal<T>(items: seq<T>, check: T -> Verdict): (r: Verdict)
    ensures r.None? <==> forall i :: 0 <= i < |items| ==> check(items[i]).None?
    decreases |items|
  {
    if items == [] then None
    else if check(items[0]).Some? then check(items[0])
    else
      var rest := FirstRefusal(items[1..], check);
      assert forall i :: 1 <= i < |items| ==> items[i] == items[1..][i - 1];
      rest
  }

  method CheckEach<T>(items: seq<T>, check: T -> Verdict) returns (r: Verdict)
    ensures r == FirstRefusal(items, check)
  {
    assert items[0..] == items;
    for i := 0 to |items|
      invariant FirstRefusal(items[i..], check) == FirstRefusal(items, check)
    {
      assert items[i..][1..] == items[i + 1..];
      if check(items[i]).Some? {
        return check(items[i]);
      }
    }
    return None;
  }

  // -- the stages -----------------------------------------------------------------------

  function GetCapability(c: Content, id: string): Option<Capability> {
    var canonical := Resolve(c, id);
    if canonical.Some? && canonical.value in c.capabilities then Some(c.capabilities[canonical.value]) else None
  }

  function CheckProviderIdentity(c: Content, p: Provider): Verdict {
    if p.id == [] then Some(IdentityMalformed)
    else if p.id !in c.providers then None
    else if c.providers[p.id].lifecycle == Retired then Some(FromRegistry(TombstoneReuse))
    else if c.providers[p.id] != p then Some(SemanticHijack)
    else None
  }

  function CheckCapabilityIdentity(c: Content, cap: Capability): Verdict {
    var existing := GetCapability(c, cap.id);
    if cap.id == [] then Some(IdentityMalformed)
    else if existing.None? then None
    else if existing.value.lifecycle == Retired then Some(FromRegistry(TombstoneReuse))
    else if existing.value != cap then Some(SemanticHijack)
    else None
  }

  /** The ids a declaration proposes, and its aliases. */
  function ProposedIds(caps: seq<Capability>): set<string> {
    set cap | cap in caps :: cap.id
  }

  function ProposedAliases(caps: seq<Capability>): set<string> {
    set cap, a | cap in caps && a in cap.aliases :: a
  }

  predicate Known(c: Content, d: Bundle, id: string) {
    Resolve(c, id).Some? || id in ProposedIds(d.capabilities) || id in ProposedAliases(d.capabilities)
  }

  function CheckReference(c: Content, d: Bundle, b: Binding): Verdict {
    if Known(c, d, b.capabilityId) then None else Some(CapabilityReference)
  }

  function CheckMetadata(cap: Capability): Verdict {
    if cap.expectations == [] then Some(FromRegistry(MetadataIncomplete)) else None
  }

  /** The last proposed capability with this very id. */
  function ProposedById(caps: seq<Capability>, id: string): Option<Capability> {
    if caps == [] then None
    else if caps[|caps| - 1].id == id then Some(caps[|caps| - 1])
    else ProposedById(caps[..|caps| - 1], id)
  }

  /** The first proposed capability with this very id. */
  function FirstProposed(caps: seq<Capability>, id: string): (r: Option<Capability>)
    ensures r.Some? ==> r.value in caps && r.value.id == id
    ensures r.None? ==> id !in ProposedIds(caps)
  {
    if caps == [] then None else if caps[0].id == id then Some(caps[0]) else FirstProposed(caps[1..], id)
  }

  function CheckTerms(d: Bundle, b: Binding): Verdict {
    var cap := ProposedById(d.capabilities, b.capabilityId);
    if !Compatible(b.terms, d.provider.constraints) then Some(ConstraintIncoherence)
    else if cap.Some? && !Compatible(b.terms, cap.value.constraints) then Some(ConstraintIncoherence)
    else None
  }

  function CheckEndpoints(c: Content, d: Bundle, r: Relationship): Verdict {
    if Known(c, d, r.src) && Known(c, d, r.dst) then None else Some(FromRegistry(RelationshipEndpoint))
  }

  /** Registry first, alias-transparent; else the declaration's own, by id only. */
  function WouldBe(c: Content, d: Bundle, id: string): Option<Capability> {
    if Resolve(c, id).Some? then GetCapability(c, Resolve(c, id).value) else FirstProposed(d.capabilities, id)
  }

  function BoundProvider(c: Content, d: Bundle, id: string): Option<Provider> {
    if id == d.provider.id then Some(d.provider) else if id in c.providers then Some(c.providers[id]) else None
  }

  function CheckBinding(c: Content, d: Bundle, b: Binding): Verdict {
    var cap, provider := WouldBe(c, d, b.capabilityId), BoundProvider(c, d, b.providerId);
    if cap.None? || !Matchable(cap.value.lifecycle) || provider.None? || !Compatible(cap.value.constraints, provider.value.constraints)
    then Some(FromRegistry(BindingConsistency)) else None
  }

  function CheckProviderClash(c: Content, p: Provider): Verdict {
    if p.id in c.providers && c.providers[p.id].lifecycle != Retired && c.providers[p.id] == p then Some(CompatibilityConflict) else None
  }

  function CheckAliasClash(c: Content, d: Bundle, cap: Capability): Verdict {
    if forall a :: a in cap.aliases ==> Resolve(c, a).None? && a !in ProposedIds(d.capabilities) then None else Some(CompatibilityConflict)
  }

  /** Both checks in turn. */
  function Then(first: Verdict, second: Verdict): Verdict {
    if first.Some? then first else second
  }

  function Check(c: Content, d: Bundle, s: Stage): Verdict {
    match s
    case IdentityStage => Then(CheckProviderIdentity(c, d.provider), FirstRefusal(d.capabilities, cap => CheckCapabilityIdentity(c, cap)))
    case CapabilityStage => FirstRefusal(d.bindings, b => CheckReference(c, d, b))
    case MetadataStage => FirstRefusal(d.capabilities, cap => CheckMetadata(cap))
    case ConstraintStage => FirstRefusal(d.bindings, b => CheckTerms(d, b))
    case RelationshipStage => FirstRefusal(d.relationships, r => CheckEndpoints(c, d, r))
    case BindingStage => FirstRefusal(d.bindings, b => CheckBinding(c, d, b))
    case CompatibilityStage => Then(CheckProviderClash(c, d.provider), FirstRefusal(d.capabilities, cap => CheckAliasClash(c, d, cap)))
    case ConsistencyStage => if AdmittedBundle(c, d).Err? then Some(FromRegistry(AdmittedBundle(c, d).error)) else None
    case PublicationStage => None
  }

  const STAGES := [IdentityStage, CapabilityStage, MetadataStage, ConstraintStage, RelationshipStage, BindingStage, CompatibilityStage]

  /** All seven pre-checks pass. */
  ghost predicate PreChecked(c: Content, d: Bundle) {
    forall i :: 0 <= i < |STAGES| ==> Check(c, d, STAGES[i]).None?
  }

  // -- what the pre-checks leave to the consistency stage -----------------------------------

  /** The proposed capabilities are new and do not step on each other or on existing aliases. */
  ghost predicate Fresh(c: Content, caps: seq<Capability>) {
    && (forall i :: 0 <= i < |caps| ==> caps[i].id !in c.capabilities && NoneOf(caps[i].aliases, c.aliases.Keys))
    && (forall i, j :: 0 <= i < j < |caps| ==> caps[i].id != caps[j].id && NoneOf(caps[i].aliases, AliasesOf(caps[j])))
  }

  function AliasesOf(cap: Capability): set<string> {
    set a | a in cap.aliases
  }

  predicate NoneOf(names: seq<string>, s: set<string>) {
    forall a :: a in names ==> a !in s
  }

  /** What the pre-checks make sure of, one capability at a time. */
  ghost predicate Sane(c: Content, caps: seq<Capability>, ids: set<string>) {
    forall i :: 0 <= i < |caps| ==>
      && caps[i].id !in c.aliases && caps[i].expectations != [] && caps[i].id in ids
      && NoneOf(caps[i].aliases, c.capabilities.Keys + ids)
  }

  lemma SaneNext(c: Content, caps: seq<Capability>, ids: set<string>)
    requires caps != [] && Sane(c, caps, ids) && AddedCapability(c, caps[0]).Ok?
    ensures Sane(AddedCapability(c, caps[0]).value, caps[1..], ids)
  {
    var next := AddedCapability(c, caps[0]).value;
    forall i | 0 <= i < |caps[1..]|
      ensures caps[1..][i].id !in next.aliases && NoneOf(caps[1..][i].aliases, next.capabilities.Keys + ids)
    {
      assert caps[1..][i] == caps[i + 1];
      assert NoneOf(caps[0].aliases, c.capabilities.Keys + ids);
      assert NoneOf(caps[i + 1].aliases, c.capabilities.Keys + ids);
    }
  }

  lemma FreshNext(c: Content, caps: seq<Capability>, ids: set<string>)
    requires caps != [] && Sane(c, caps, ids)
    ensures Fresh(c, caps) <==> AddedCapability(c, caps[0]).Ok? && Fresh(AddedCapability(c, caps[0]).value, caps[1..])
  {
    var record, rest := caps[0], caps[1..];
    assert NoneOf(record.aliases, c.capabilities.Keys + ids);
    assert AddedCapability(c, record).Ok? <==> record.id !in c.capabilities && NoneOf(record.aliases, c.aliases.Keys);
    if AddedCapability(c, record).Ok? {
      var next := AddedCapability(c, record).value;
      assert next.aliases.Keys == c.aliases.Keys + AliasesOf(record);
      assert forall i :: 0 <= i < |rest| ==> rest[i] == caps[i + 1];
      if Fresh(next, rest) {
        forall i, j | 0 <= i < j < |caps|
          ensures caps[i].id != caps[j].id && NoneOf(caps[i].aliases, AliasesOf(caps[j]))
        {
          assert caps[j] == rest[j - 1];
          if i == 0 {
            assert NoneOf(rest[j - 1].aliases, next.aliases.Keys);
          } else {
            assert caps[i] == rest[i - 1];
          }
        }
        forall i | 0 <= i < |caps| ensures caps[i].id !in c.capabilities && NoneOf(caps[i].aliases, c.aliases.Keys) {
          if i > 0 {
            assert caps[i] == rest[i - 1];
            assert NoneOf(rest[i - 1].aliases, next.aliases.Keys);
          }
        }
      }
      if Fresh(c, caps) {
        forall i | 0 <= i < |rest| ensures rest[i].id !in next.capabilities && NoneOf(rest[i].aliases, next.aliases.Keys) {
          assert rest[i] == caps[i + 1];
          assert caps[0].id != caps[i + 1].id && NoneOf(caps[0].aliases, AliasesOf(caps[i + 1]));
        }
      }
    }
  }

  /** Capabilities that pass the pre-checks are admitted exactly when they are fresh; every
      entry already there stays as it is. */
  lemma {:induction false} FreshIsAdmitted(c: Content, caps: seq<Capability>, ids: set<string>)
    requires Sane(c, caps, ids)
    ensures AddedCapabilities(c, caps).Ok? <==> Fresh(c, caps)
    decreases |caps|
  {
    if caps != [] {
      FreshNext(c, caps, ids);
      var next := AddedCapability(c, caps[0]);
      if next.Ok? {
        SaneNext(c, caps, ids);
        FreshIsAdmitted(next.value, caps[1..], ids);
      }
    }
  }

  /** Everything but bindings, relationships and providers of one content is in the other. */
  ghost predicate Includes(after: Content, before: Content) {
    && after.providers == before.providers && after.bindings == before.bindings && after.relationships == before.relationships
    && (forall id :: id in before.capabilities ==> id in after.capabilities && after.capabilities[id] == before.capabilities[id])
    && (forall a :: a in before.aliases ==> a in after.aliases && after.aliases[a] == before.aliases[a])
  }

  ghost predicate Entered(c: Content, cap: Capability) {
    cap.id in c.capabilities && c.capabilities[cap.id] == cap
  }

  lemma AddingOne(c: Content, cap: Capability)
    requires AddedCapability(c, cap).Ok?
    ensures Includes(AddedCapability(c, cap).value, c) && Entered(AddedCapability(c, cap).value, cap)
  {
  }

  lemma IncludesTransitive(a: Content, b: Content, c: Content)
    requires Includes(b, a) && Includes(c, b)
    ensures Includes(c, a)
    ensures forall cap :: Entered(b, cap) ==> Entered(c, cap)
  {
  }

  /** Adding capabilities only adds: old entries stay, the proposed ones and their aliases appear. */
  lemma {:induction false} AddingOnlyAdds(c: Content, caps: seq<Capability>)
    requires RegistryOk(c) && AddedCapabilities(c, caps).Ok?
    ensures RegistryOk(AddedCapabilities(c, caps).value) && Includes(AddedCapabilities(c, caps).value, c)
    ensures forall cap :: cap in caps ==> Entered(AddedCapabilities(c, caps).value, cap)
    decreases |caps|
  {
    if caps != [] {
      AddedCapabilityKeeps(c, caps[0]);
      AddingOne(c, caps[0]);
      var next := AddedCapability(c, caps[0]).value;
      AddingOnlyAdds(next, caps[1..]);
      IncludesTransitive(c, next, AddedCapabilities(next, caps[1..]).value);
    }
  }

  lemma {:induction false} BindingsAllAdmitted(c: Content, bs: seq<Binding>)
    requires forall b :: b in bs ==> AddedBinding(c, b).Ok?
    ensures AddedBindings(c, bs).Ok?
    ensures AddedBindings(c, bs).value == c.(bindings := AddedBindings(c, bs).value.bindings)
    decreases |bs|
  {
    if bs != [] {
      var next := AddedBinding(c, bs[0]).value;
      assert forall id :: Resolve(next, id) == Resolve(c, id);
      assert forall b :: b in bs ==> AddedBinding(next, b).Ok? == AddedBinding(c, b).Ok?;
      BindingsAllAdmitted(next, bs[1..]);
    }
  }

  lemma {:induction false} RelationshipsAllAdmitted(c: Content, rs: seq<Relationship>)
    requires forall r :: r in rs ==> AddedRelationship(c, r).Ok?
    ensures AddedRelationships(c, rs) == Ok(c.(relationships := c.relationships + rs))
    decreases |rs|
  {
    if rs == [] {
      assert c.relationships + rs == c.relationships;
    } else {
      var next := AddedRelationship(c, rs[0]).value;
      assert forall id :: Resolve(next, id) == Resolve(c, id);
      assert forall r :: r in rs ==> AddedRelationship(next, r).Ok? == AddedRelationship(c, r).Ok?;
      RelationshipsAllAdmitted(next, rs[1..]);
      assert c.relationships + [rs[0]] + rs[1..] == c.relationships + rs;
    }
  }

  lemma StagePasses(c: Content, d: Bundle, k: nat)
    requires PreChecked(c, d) && k < |STAGES|
    ensures Check(c, d, STAGES[k]).None?
  {
  }

  lemma PreCheckedSane(c: Content, d: Bundle)
    requires RegistryOk(c) && PreChecked(c, d)
    ensures Sane(c, d.capabilities, ProposedIds(d.capabilities)) && d.provider.id !in c.providers
  {
    StagePasses(c, d, 0);
    StagePasses(c, d, 2);
    StagePasses(c, d, 6);
    var caps := d.capabilities;
    forall i | 0 <= i < |caps|
      ensures caps[i].id !in c.aliases && caps[i].expectations != []
              && NoneOf(caps[i].aliases, c.capabilities.Keys + ProposedIds(caps))
    {
      assert CheckMetadata(caps[i]).None?;
      assert CheckAliasClash(c, d, caps[i]).None?;
      assert CheckCapabilityIdentity(c, caps[i]).None?;
      IdIsNoAlias(c, caps[i]);
    }
  }

  lemma IdIsNoAlias(c: Content, cap: Capability)
    requires RegistryOk(c) && CheckCapabilityIdentity(c, cap).None? && NoAliasResolves(c, cap)
    ensures cap.id !in c.aliases
  {
    assert cap.id in cap.aliases ==> Resolve(c, cap.id).None?;
    AliasBelongs(c, cap.id);
  }

  lemma AliasBelongs(c: Content, a: string)
    requires RegistryOk(c)
    ensures a in c.aliases ==> GetCapability(c, a).Some? && a in GetCapability(c, a).value.aliases
  {
    if a in c.aliases {
      assert Declares(c, a, c.aliases[a]);
    }
  }

  predicate NoAliasResolves(c: Content, cap: Capability) {
    forall a :: a in cap.aliases ==> Resolve(c, a).None?
  }

  /** What a would-be capability resolves to once the proposed ones are in. */
  lemma WouldBeIs(c: Content, d: Bundle, after: Content, id: string)
    requires RegistryOk(c) && AddedCapabilities(c, d.capabilities) == Ok(after) && WouldBe(c, d, id).Some?
    ensures Resolve(after, id).Some? && Resolve(after, id).value in after.capabilities
    ensures after.capabilities[Resolve(after, id).value] == WouldBe(c, d, id).value
  {
    AddingOnlyAdds(c, d.capabilities);
    if Resolve(c, id).Some? {
      ResolveStable(c, c, id);
      var canonical := Resolve(c, id).value;
      assert Resolve(c, canonical) == Some(canonical) by {
        if canonical in c.aliases {
          assert c.aliases[canonical] == canonical;
        }
      }
      if id in c.capabilities && id in after.aliases && id !in c.aliases {
        assert after.aliases[id] == id;
      }
    } else {
      var cap := FirstProposed(d.capabilities, id).value;
      if id in after.aliases {
        assert after.aliases[id] == id;
      }
    }
  }

  lemma KnownResolves(c: Content, d: Bundle, after: Content, id: string)
    requires RegistryOk(c) && AddedCapabilities(c, d.capabilities) == Ok(after) && Known(c, d, id)
    ensures Resolve(after, id).Some?
  {
    AddingOnlyAdds(c, d.capabilities);
    if id in ProposedAliases(d.capabilities) && Resolve(c, id).None? {
      var cap :| cap in d.capabilities && id in cap.aliases;
      assert Declares(after, id, cap.id);
    }
  }

  /** For a declaration that passes the seven pre-checks, the consistency stage refuses
      exactly when its capabilities are not fresh: an id already live with the very same
      record, or two proposals sharing an id or an alias. Provider, bindings and
      relationships are never refused there. */
  lemma ConsistencyRefusesOnlyStaleness(c: Content, d: Bundle)
    requires RegistryOk(c) && PreChecked(c, d)
    ensures AdmittedBundle(c, d).Ok? <==> Fresh(c, d.capabilities)
    ensures AdmittedBundle(c, d).Ok? ==> OnlyAdds(c, d, AdmittedBundle(c, d).value)
  {
    PreCheckedSane(c, d);
    FreshIsAdmitted(c, d.capabilities, ProposedIds(d.capabilities));
    if Fresh(c, d.capabilities) {
      var one := AddedCapabilities(c, d.capabilities).value;
      AddingOnlyAdds(c, d.capabilities);
      var two := AddedProvider(one, d.provider).value;
      assert forall id :: Resolve(two, id) == Resolve(one, id);
      forall b | b in d.bindings ensures AddedBinding(two, b).Ok? {
        BindingChecked(c, d, b);
        BindingPasses(c, d, one, b);
      }
      BindingsAllAdmitted(two, d.bindings);
      var three := AddedBindings(two, d.bindings).value;
      assert forall id :: Resolve(three, id) == Resolve(one, id);
      forall r | r in d.relationships ensures AddedRelationship(three, r).Ok? {
        EndpointsPass(c, d, one, r);
      }
      RelationshipsAllAdmitted(three, d.relationships);
    }
  }

  lemma BindingChecked(c: Content, d: Bundle, b: Binding)
    requires PreChecked(c, d) && b in d.bindings
    ensures CheckBinding(c, d, b).None?
  {
    StagePasses(c, d, 5);
    var i :| 0 <= i < |d.bindings| && d.bindings[i] == b;
    assert CheckBinding(c, d, d.bindings[i]).None?;
  }

  lemma BindingPasses(c: Content, d: Bundle, one: Content, b: Binding)
    requires RegistryOk(c) && CheckBinding(c, d, b).None? && AddedCapabilities(c, d.capabilities) == Ok(one)
    requires one.providers == c.providers
    ensures AddedBinding(one.(providers := one.providers[d.provider.id := d.provider]), b).Ok?
  {
    WouldBeIs(c, d, one, b.capabilityId);
    var two := one.(providers := one.providers[d.provider.id := d.provider]);
    assert Resolve(two, b.capabilityId) == Resolve(one, b.capabilityId);
    assert two.providers[b.providerId] == BoundProvider(c, d, b.providerId).value;
  }

  lemma EndpointsPass(c: Content, d: Bundle, one: Content, r: Relationship)
    requires RegistryOk(c) && PreChecked(c, d) && AddedCapabilities(c, d.capabilities) == Ok(one) && r in d.relationships
    ensures Resolve(one, r.src).Some? && Resolve(one, r.dst).Some?
  {
    StagePasses(c, d, 4);
    var i :| 0 <= i < |d.relationships| && d.relationships[i] == r;
    assert CheckEndpoints(c, d, d.relationships[i]).None?;
    KnownResolves(c, d, one, r.src);
    KnownResolves(c, d, one, r.dst);
  }

  /** Nothing already there changes except bindings, which the declaration may restate. */
  ghost predicate OnlyAdds(before: Content, d: Bundle, after: Content) {
    && (forall id :: id in before.capabilities ==> id in after.capabilities && after.capabilities[id] == before.capabilities[id])
    && after.providers == before.providers[d.provider.id := d.provider] && d.provider.id !in before.providers
    && (forall a :: a in before.aliases ==> a in after.aliases && after.aliases[a] == before.aliases[a])
    && (forall cap :: cap in d.capabilities ==> cap.id in after.capabilities && after.capabilities[cap.id] == cap)
    && after.relationships == before.relationships + d.relationships
  }

  // -- where the pipeline is stricter than the registry ---------------------------------------

  /** A name the binding stage looks up: one that resolves already, or the id (not an
      alias) of a proposed capability. */
  predicate Nameable(c: Content, d: Bundle, id: string) {
    Resolve(c, id).Some? || id in ProposedIds(d.capabilities)
  }

  lemma {:induction false} EachWasBindable(c: Content, bs: seq<Binding>)
    requires AddedBindings(c, bs).Ok?
    ensures forall b :: b in bs ==> AddedBinding(c, b).Ok?
    decreases |bs|
  {
    if bs != [] {
      var next := AddedBinding(c, bs[0]).value;
      EachWasBindable(next, bs[1..]);
      assert forall id :: Resolve(next, id) == Resolve(c, id);
      assert forall b :: b in bs ==> b == bs[0] || b in bs[1..];
      assert forall b :: b in bs[1..] ==> AddedBinding(next, b).Ok? == AddedBinding(c, b).Ok?;
    }
  }

  /** One binding the registry accepts passes the binding stage if and only if what it
      names is looked up there. */
  lemma BindingStagePasses(c: Content, d: Bundle, one: Content, b: Binding)
    requires RegistryOk(c) && AddedCapabilities(c, d.capabilities) == Ok(one) && one.providers == c.providers
    requires AddedBinding(one.(providers := one.providers[d.provider.id := d.provider]), b).Ok?
    ensures CheckBinding(c, d, b).None? <==> Nameable(c, d, b.capabilityId)
  {
    var two := one.(providers := one.providers[d.provider.id := d.provider]);
    if Nameable(c, d, b.capabilityId) {
      if Resolve(c, b.capabilityId).Some? {
        ResolveStable(c, c, b.capabilityId);
        CanonicalIsItself(c, Resolve(c, b.capabilityId).value);
      }
      WouldBeIs(c, d, one, b.capabilityId);
      assert Resolve(two, b.capabilityId) == Resolve(one, b.capabilityId);
      assert two.providers[b.providerId] == BoundProvider(c, d, b.providerId).value;
    }
  }

  lemma CanonicalIsItself(c: Content, id: string)
    requires RegistryOk(c) && id in c.capabilities
    ensures Resolve(c, id) == Some(id) && GetCapability(c, id) == Some(c.capabilities[id])
  {
    if id in c.aliases {
      assert c.aliases[id] == id;
    }
  }

  lemma StageIsItsChecks(c: Content, d: Bundle)
    ensures Check(c, d, BindingStage).None? <==> forall b :: b in d.bindings ==> CheckBinding(c, d, b).None?
  {
    var check := b => CheckBinding(c, d, b);
    assert Check(c, d, BindingStage) == FirstRefusal(d.bindings, check);
    assert forall i :: 0 <= i < |d.bindings| ==> d.bindings[i] in d.bindings && check(d.bindings[i]) == CheckBinding(c, d, d.bindings[i]);
  }

  lemma BindingsWereBindable(c: Content, d: Bundle, one: Content)
    requires AdmittedBundle(c, d).Ok? && AddedCapabilities(c, d.capabilities) == Ok(one)
    ensures var two := one.(providers := one.providers[d.provider.id := d.provider]);
            forall b :: b in d.bindings ==> AddedBinding(two, b).Ok?
  {
    EachWasBindable(AddedProvider(one, d.provider).value, d.bindings);
  }

  /** A declaration the registry would admit passes the binding stage if and only if none
      of its bindings names a proposed capability by its alias. */
  lemma BindingStageExactly(c: Content, d: Bundle)
    requires RegistryOk(c) && AdmittedBundle(c, d).Ok?
    ensures Check(c, d, BindingStage).None? <==> forall b :: b in d.bindings ==> Nameable(c, d, b.capabilityId)
  {
    var one := AddedCapabilities(c, d.capabilities).value;
    AddingOnlyAdds(c, d.capabilities);
    BindingsWereBindable(c, d, one);
    forall b | b in d.bindings ensures CheckBinding(c, d, b).None? <==> Nameable(c, d, b.capabilityId) {
      BindingStagePasses(c, d, one, b);
    }
    StageIsItsChecks(c, d);
  }

  /** The pipeline is stricter than the registry: a binding that names a proposed
      capability by its alias passes the reference stage, would be admitted by the
      registry, and is refused at the binding stage. */
  lemma AliasBindingIsRefused(cap: Capability, alias: string, prov: Provider)
    requires cap.id != [] && prov.id != [] && alias != cap.id && cap.aliases == [alias] && cap.expectations != []
    requires cap.lifecycle == Active && Compatible(cap.constraints, prov.constraints)
    ensures var d := Bundle([cap], prov, [Binding(alias, prov.id, map[])], []);
            && Check(EMPTY, d, CapabilityStage).None?
            && Check(EMPTY, d, BindingStage) == Some(FromRegistry(BindingConsistency))
            && AdmittedBundle(EMPTY, d).Ok?
  {
    var b := Binding(alias, prov.id, map[]);
    var d := Bundle([cap], prov, [b], []);
    assert d.capabilities[0] == cap && alias in cap.aliases;
    assert alias in ProposedAliases(d.capabilities);
    assert CheckReference(EMPTY, d, b).None?;
    assert d.bindings[0] == b;
    assert FirstProposed(d.capabilities, alias).None? by {
      assert d.capabilities[1..] == [];
    }
    assert CheckBinding(EMPTY, d, b) == Some(FromRegistry(BindingConsistency));
    var one := AddedCapability(EMPTY, cap).value;
    assert d.capabilities[1..] == [];
    assert AddedCapabilities(EMPTY, d.capabilities) == Ok(one);
    var two := AddedProvider(one, prov).value;
    assert alias in two.aliases && two.aliases[alias] == cap.id;
    var three := AddedBinding(two, b).value;
    assert d.bindings[1..] == [];
    assert AddedBindings(two, d.bindings) == Ok(three);
  }
}
