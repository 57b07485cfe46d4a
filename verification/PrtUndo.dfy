/** Which changes of the plugin registry can be taken back. */
module PrtUndo {
  import opened PrtRules
  import opened Wrappers

  /** A run that leads from one content back to the other. */
  ghost predicate Undoes(after: Content, before: Content, ms: seq<Mutation>) {
    RunFrom(after, ms) == before
  }

  lemma OneStep(c: Content, m: Mutation, rest: seq<Mutation>)
    requires Admit(c, m).Ok?
    ensures RunFrom(c, [m] + rest) == RunFrom(Admit(c, m).value, rest)
  {
    assert ([m] + rest)[1..] == rest;
  }

  lemma OneUndoes(after: Content, before: Content, m: Mutation)
    requires Admit(after, m) == Ok(before)
    ensures Undoes(after, before, [m])
  {
    OneStep(after, m, []);
    assert [m] + [] == [m];
  }

  /** A canonical id resolves to itself. */
  lemma CanonicalResolves(c: Content, id: string)
    requires RegistryOk(c) && id in c.capabilities
    ensures Resolve(c, id) == Some(id)
  {
  }

  // -- what a bundle touches --------------------------------------------------------

  lemma {:induction false} CapabilitiesFrame(c: Content, records: seq<Capability>)
    ensures var r := AddedCapabilities(c, records);
            r.Ok? ==> r.value == c.(capabilities := r.value.capabilities, aliases := r.value.aliases)
    decreases |records|
  {
    if records != [] {
      var next := AddedCapability(c, records[0]);
      if next.Ok? {
        CapabilitiesFrame(next.value, records[1..]);
      }
    }
  }

  lemma {:induction false} BindingsFrame(c: Content, records: seq<Binding>)
    ensures var r := AddedBindings(c, records); r.Ok? ==> r.value == c.(bindings := r.value.bindings)
    decreases |records|
  {
    if records != [] {
      var next := AddedBinding(c, records[0]);
      if next.Ok? {
        BindingsFrame(next.value, records[1..]);
      }
    }
  }

  lemma {:induction false} RelationshipsFrame(c: Content, records: seq<Relationship>)
    ensures var r := AddedRelationships(c, records);
            r.Ok? ==> r.value == c.(relationships := c.relationships + records)
    decreases |records|
  {
    if records == [] {
      assert c.relationships + records == c.relationships;
    } else {
      var next := AddedRelationship(c, records[0]);
      if next.Ok? {
        RelationshipsFrame(next.value, records[1..]);
        assert c.relationships + [records[0]] + records[1..] == c.relationships + records;
      }
    }
  }

  /** A bundle brings exactly one provider, new to the registry, and exactly its
      relationships. */
  lemma BundleFrame(c: Content, b: Bundle)
    requires AdmittedBundle(c, b).Ok?
    ensures var after := AdmittedBundle(c, b).value;
            && b.provider.id !in c.providers
            && after.providers == c.providers[b.provider.id := b.provider]
            && after.relationships == c.relationships + b.relationships
  {
    var one := AddedCapabilities(c, b.capabilities).value;
    CapabilitiesFrame(c, b.capabilities);
    var two := AddedProvider(one, b.provider).value;
    BindingsFrame(two, b.bindings);
    RelationshipsFrame(AddedBindings(two, b.bindings).value, b.relationships);
  }

  lemma {:induction false} RunAccumulates(c: Content, ms: seq<Mutation>)
    ensures |c.relationships| <= |RunFrom(c, ms).relationships|
    decreases |ms|
  {
    if ms != [] {
      var next := Admit(c, ms[0]);
      if next.Ok? {
        if ms[0].AdmitBundle? {
          BundleFrame(c, ms[0].bundle);
        }
        RunAccumulates(next.value, ms[1..]);
      } else {
        RunAccumulates(c, ms[1..]);
      }
    }
  }

  // -- a retired capability is never bound again ----------------------------------------

  ghost predicate Unbound(c: Content, key: BindingKey) {
    key.0 in c.capabilities && c.capabilities[key.0].lifecycle == Retired && key !in c.bindings
  }

  lemma SingleUnbound(c: Content, m: Mutation, key: BindingKey)
    requires Unbound(c, key) && Single(m) && Admit(c, m).Ok?
    ensures Unbound(Admit(c, m).value, key)
  {
  }

  lemma {:induction false} ApplyAllUnbound(c: Content, ms: seq<Mutation>, key: BindingKey)
    requires Unbound(c, key) && ApplyAll(c, ms).Ok? && forall m :: m in ms ==> Single(m)
    ensures Unbound(ApplyAll(c, ms).value, key)
    decreases |ms|
  {
    if ms != [] {
      SingleUnbound(c, ms[0], key);
      ApplyAllUnbound(Admit(c, ms[0]).value, ms[1..], key);
    }
  }

  lemma {:induction false} StaysUnbound(c: Content, ms: seq<Mutation>, key: BindingKey)
    requires Unbound(c, key)
    ensures Unbound(RunFrom(c, ms), key)
    decreases |ms|
  {
    if ms != [] {
      var next := Admit(c, ms[0]);
      if next.Ok? {
        if ms[0].AdmitBundle? {
          BundleIsItsParts(c, ms[0].bundle);
          PartsAreSingle(ms[0].bundle);
          ApplyAllUnbound(c, Parts(ms[0].bundle), key);
        } else {
          SingleUnbound(c, ms[0], key);
        }
        StaysUnbound(next.value, ms[1..], key);
      } else {
        StaysUnbound(c, ms[1..], key);
      }
    }
  }

  // -- what can be taken back -----------------------------------------------------------

  /** The changes no further run takes back: entries and relationships added, lifecycles
      moved, and bindings removed from a capability that has been retired. */
  predicate Permanent(c: Content, m: Mutation) {
    match m
    case UpdateCapability(_) => false
    case AddBinding(_) => false
    case RemoveBinding(capabilityId, _) =>
      var canonical := Resolve(c, capabilityId);
      canonical.Some? && canonical.value in c.capabilities && c.capabilities[canonical.value].lifecycle == Retired
    case _ => true
  }

  lemma UpdateUndone(c: Content, record: Capability)
    requires RegistryOk(c) && UpdatedCapability(c, record).Ok?
    ensures UpdatedCapability(UpdatedCapability(c, record).value, c.capabilities[record.id]) == Ok(c)
  {
    var after := UpdatedCapability(c, record).value;
    assert after.capabilities[record.id := c.capabilities[record.id]] == c.capabilities;
    assert c.capabilities[record.id].expectations != [];
  }

  /** What takes an added binding back: removing it, or restoring the one it replaced. */
  function Unbind(c: Content, key: BindingKey): Mutation {
    if key in c.bindings then AddBinding(c.bindings[key]) else RemoveBinding(key.0, key.1)
  }

  lemma UnbindUnbinds(c: Content, after: Content, key: BindingKey, record: Binding)
    requires RegistryOk(c) && Bindable(c, key.0, key.1) && after == c.(bindings := c.bindings[key := record])
    ensures Admit(after, Unbind(c, key)) == Ok(c)
  {
    CanonicalResolves(c, key.0);
    assert Resolve(after, key.0) == Some(key.0);
    if key in c.bindings {
      assert after.bindings[key := c.bindings[key]] == c.bindings;
    } else {
      assert after.bindings - {key} == c.bindings;
    }
  }

  lemma BindingUndone(c: Content, record: Binding)
    requires RegistryOk(c) && AddedBinding(c, record).Ok?
    ensures exists m :: Undoes(AddedBinding(c, record).value, c, [m])
  {
    var after := AddedBinding(c, record).value;
    var id := Resolve(c, record.capabilityId).value;
    UnbindUnbinds(c, after, (id, record.providerId), record.(capabilityId := id));
    OneUndoes(after, c, Unbind(c, (id, record.providerId)));
  }

  /** The entry without constraints, and so compatible with every provider. */
  function Unconstrained(record: Capability): Capability {
    record.(constraints := map[])
  }

  /** A removed binding comes back even when the capability's constraints have since made
      it incompatible: they are lifted, the binding added, and they are put back. */
  lemma RemovalUndone(c: Content, capabilityId: string, providerId: string)
    requires RegistryOk(c) && RemovedBinding(c, capabilityId, providerId).Ok?
    requires !Permanent(c, RemoveBinding(capabilityId, providerId))
    ensures exists ms :: Undoes(RemovedBinding(c, capabilityId, providerId).value, c, ms)
  {
    var after := RemovedBinding(c, capabilityId, providerId).value;
    var id := Resolve(c, capabilityId).value;
    var key := (id, providerId);
    var removed, record := c.bindings[key], c.capabilities[id];
    assert record.id == id && record.expectations != [] && Matchable(record.lifecycle);
    CanonicalResolves(c, id);
    var lifted := after.(capabilities := after.capabilities[id := Unconstrained(record)]);
    assert Admit(after, UpdateCapability(Unconstrained(record))) == Ok(lifted);
    var bound := lifted.(bindings := lifted.bindings[key := removed]);
    assert removed.capabilityId == id && removed.providerId == providerId && removed.(capabilityId := id) == removed;
    assert Admit(lifted, AddBinding(removed)) == Ok(bound);
    assert bound.bindings == c.bindings && bound.capabilities[id := record] == c.capabilities;
    assert Admit(bound, UpdateCapability(record)) == Ok(c);
    OneUndoes(bound, c, UpdateCapability(record));
    OneStep(lifted, AddBinding(removed), [UpdateCapability(record)]);
    OneStep(after, UpdateCapability(Unconstrained(record)), [AddBinding(removed)] + [UpdateCapability(record)]);
    assert Undoes(after, c, [UpdateCapability(Unconstrained(record))] + ([AddBinding(removed)] + [UpdateCapability(record)]));
  }

  lemma RunDiffers(c: Content, m: Mutation, ms: seq<Mutation>)
    requires RegistryOk(c) && Admit(c, m).Ok? && Permanent(c, m)
    ensures !Undoes(Admit(c, m).value, c, ms)
  {
    var after := Admit(c, m).value;
    AdmitKeeps(c, m);
    RunKeeps(after, ms);
    match m
    case AddRelationship(_) => RunAccumulates(after, ms);
    case AdmitBundle(bundle) => BundleFrame(c, bundle);
    case RemoveBinding(capabilityId, providerId) => StaysUnbound(after, ms, (Resolve(c, capabilityId).value, providerId));
    case _ =>
  }

  /** Some run of mutations takes an admitted mutation back, to the very same content, if
      and only if it updated an entry, added a binding, or removed one from a capability
      that is not retired. */
  lemma UndoableExactly(c: Content, m: Mutation)
    requires RegistryOk(c) && Admit(c, m).Ok?
    ensures (exists ms :: Undoes(Admit(c, m).value, c, ms)) <==> !Permanent(c, m)
  {
    if Permanent(c, m) {
      forall ms ensures !Undoes(Admit(c, m).value, c, ms) {
        RunDiffers(c, m, ms);
      }
    } else if m.UpdateCapability? {
      UpdateUndone(c, m.capability);
      OneUndoes(Admit(c, m).value, c, UpdateCapability(c.capabilities[m.capability.id]));
    } else if m.AddBinding? {
      BindingUndone(c, m.binding);
    } else {
      RemovalUndone(c, m.capabilityId, m.providerId);
    }
  }
}
