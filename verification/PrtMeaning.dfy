/** What every registry mutation is admitted for and what it leaves, told by the entries
    alone; every refusal has its one reason. */
module PrtMeaning {
  import opened PrtRules
  import opened Wrappers

  /** The capability an id stands for: it is one, or one declares it as an alias. */
  predicate Means(c: Content, id: string, capability: string) {
    capability in c.capabilities && (id == capability || id in c.capabilities[capability].aliases)
  }

  /** In a registry in order an id stands for at most one capability, the one it resolves to. */
  lemma ResolveMeans(c: Content, id: string)
    requires RegistryOk(c)
    ensures forall capability :: Means(c, id, capability) <==> Resolve(c, id) == Some(capability)
  {
    forall capability ensures Means(c, id, capability) <==> Resolve(c, id) == Some(capability) {
      assert Declares(c, id, capability) <==> id in c.aliases && c.aliases[id] == capability;
      if id in c.aliases {
        assert Declares(c, id, c.aliases[id]);
      }
    }
  }

  /** Some capability declares the alias. */
  ghost predicate Taken(c: Content, alias: string) {
    exists capability :: capability in c.capabilities && alias in c.capabilities[capability].aliases
  }

  lemma TakenMeans(c: Content, alias: string)
    requires RegistryOk(c)
    ensures Taken(c, alias) <==> alias in c.aliases
  {
    if capability :| capability in c.capabilities && alias in c.capabilities[capability].aliases {
      assert Declares(c, alias, capability);
    }
    if alias in c.aliases {
      assert Declares(c, alias, c.aliases[alias]);
    }
  }

  // -- bindings ------------------------------------------------------------------------

  /** No constraint both sides name is named differently. */
  predicate NoClash(a: Constraints, b: Constraints) {
    !exists k :: k in a && k in b && a[k] != b[k]
  }

  /** A binding is admitted if and only if its id stands for an active or deprecated
      capability, its provider exists, and their constraints do not clash; it is kept under
      the capability's own id, in place of an earlier one, and nothing else changes. */
  lemma BindingAdmittedExactly(c: Content, b: Binding)
    requires RegistryOk(c)
    ensures Admit(c, AddBinding(b)).Ok? <==>
            exists capability :: Means(c, b.capabilityId, capability) && Fits(c, capability, b.providerId)
    ensures Admit(c, AddBinding(b)).Err? ==> Admit(c, AddBinding(b)).error == BindingConsistency
    ensures forall capability :: Means(c, b.capabilityId, capability) && Fits(c, capability, b.providerId) ==>
      Admit(c, AddBinding(b))
      == Ok(c.(bindings := c.bindings[(capability, b.providerId) := Binding(capability, b.providerId, b.terms)]))
  {
    ResolveMeans(c, b.capabilityId);
  }

  predicate Fits(c: Content, capability: string, provider: string) {
    && capability in c.capabilities && c.capabilities[capability].lifecycle in {Active, Deprecated}
    && provider in c.providers && NoClash(c.capabilities[capability].constraints, c.providers[provider].constraints)
  }

  /** One is removed if and only if it is there. */
  lemma BindingRemovedExactly(c: Content, id: string, provider: string)
    requires RegistryOk(c)
    ensures Admit(c, RemoveBinding(id, provider)).Ok? <==>
            exists capability :: Means(c, id, capability) && (capability, provider) in c.bindings
    ensures Admit(c, RemoveBinding(id, provider)).Err? ==> Admit(c, RemoveBinding(id, provider)).error == NotFound
    ensures forall capability :: Means(c, id, capability) && (capability, provider) in c.bindings ==>
      Admit(c, RemoveBinding(id, provider)) == Ok(c.(bindings := c.bindings - {(capability, provider)}))
  {
    ResolveMeans(c, id);
  }

  // -- capabilities -----------------------------------------------------------------------

  /** A capability is admitted if and only if its id is neither in use nor an alias, it can be
      verified, and none of its aliases is an id or an alias already. */
  lemma CapabilityAdmittedExactly(c: Content, r: Capability)
    requires RegistryOk(c)
    ensures Admit(c, AddCapability(r)).Ok? <==>
            && r.id !in c.capabilities && !Taken(c, r.id) && r.expectations != []
            && forall a :: a in r.aliases ==> a !in c.capabilities && !Taken(c, a)
    ensures Admit(c, AddCapability(r)) == Err(TombstoneReuse) <==> r.id in c.capabilities && c.capabilities[r.id].lifecycle == Retired
    ensures Admit(c, AddCapability(r)) == Err(DuplicateId) <==> r.id in c.capabilities && c.capabilities[r.id].lifecycle != Retired
    ensures Admit(c, AddCapability(r)) == Err(MetadataIncomplete) <==>
            r.id !in c.capabilities && !Taken(c, r.id) && r.expectations == []
    ensures Admit(c, AddCapability(r)).Err? ==>
            Admit(c, AddCapability(r)).error in {TombstoneReuse, DuplicateId, MetadataIncomplete, AliasResolution}
    ensures Admit(c, AddCapability(r)).Ok? ==>
      var after := Admit(c, AddCapability(r)).value;
      && after == c.(capabilities := c.capabilities[r.id := r], aliases := after.aliases)
      && forall a :: (a in after.aliases <==> a in c.aliases || a in r.aliases)
                     && (a in c.aliases ==> after.aliases[a] == c.aliases[a]) && (a in r.aliases ==> after.aliases[a] == r.id)
  {
    forall a ensures Taken(c, a) <==> a in c.aliases {
      TakenMeans(c, a);
    }
  }

  /** An update is admitted if and only if the capability exists, is not retired, keeps its
      lifecycle, category and aliases, and can be verified. */
  lemma CapabilityUpdatedExactly(c: Content, r: Capability)
    ensures var known := r.id in c.capabilities;
            var admitted := Admit(c, UpdateCapability(r));
            && (admitted.Ok? <==>
                  known && c.capabilities[r.id].lifecycle != Retired && r.lifecycle == c.capabilities[r.id].lifecycle
                  && r.category == c.capabilities[r.id].category && r.aliases == c.capabilities[r.id].aliases && r.expectations != [])
            && (admitted == Err(NotFound) <==> !known)
            && (admitted == Err(TombstoneReuse) <==> known && c.capabilities[r.id].lifecycle == Retired)
            && (admitted == Err(LifecycleTransition) <==>
                  known && c.capabilities[r.id].lifecycle != Retired && r.lifecycle != c.capabilities[r.id].lifecycle)
            && (admitted.Ok? ==> admitted.value == c.(capabilities := c.capabilities[r.id := r]))
  {
  }

  /** A capability moves if and only if it exists, the target is a later stage -- proposed,
      active, deprecated, retired -- and, to retire, no alias leads to it. */
  lemma CapabilityMovedExactly(c: Content, id: string, to: Option<Lifecycle>)
    requires RegistryOk(c)
    ensures var known := id in c.capabilities;
            var admitted := Admit(c, Transition(CapabilityEntity, id, to));
            && (admitted.Ok? <==>
                  known && to.Some? && Later(c.capabilities[id].lifecycle, to.value) && (to == Some(Retired) ==> c.capabilities[id].aliases == []))
            && (admitted == Err(NotFound) <==> !known)
            && (admitted == Err(LifecycleTransition) <==> known && !(to.Some? && Later(c.capabilities[id].lifecycle, to.value)))
            && (admitted.Ok? ==>
                  admitted.value == c.(capabilities := c.capabilities[id := c.capabilities[id].(lifecycle := to.value)]))
  {
    if id in c.capabilities {
      if c.capabilities[id].aliases != [] {
        assert Declares(c, c.capabilities[id].aliases[0], id);
      }
      if a :| a in c.aliases && c.aliases[a] == id {
        assert Declares(c, a, id);
      }
    }
  }

  predicate Later(from: Lifecycle, to: Lifecycle) {
    match from
    case Proposed => to != Proposed
    case Active => to == Deprecated || to == Retired
    case Deprecated => to == Retired
    case Retired => false
  }

  // -- providers and relationships ----------------------------------------------------------

  lemma ProviderAdmittedExactly(c: Content, r: Provider)
    ensures var admitted := Admit(c, AddProvider(r));
            && (admitted.Ok? <==> r.id !in c.providers)
            && (admitted == Err(TombstoneReuse) <==> r.id in c.providers && c.providers[r.id].lifecycle == Retired)
            && (admitted == Err(DuplicateId) <==> r.id in c.providers && c.providers[r.id].lifecycle != Retired)
            && (admitted.Ok? ==> admitted.value == c.(providers := c.providers[r.id := r]))
  {
  }

  /** A provider moves likewise; retired, it loses its bindings and no other provider does. */
  lemma ProviderMovedExactly(c: Content, id: string, to: Option<Lifecycle>)
    ensures var known := id in c.providers;
            var admitted := Admit(c, Transition(ProviderEntity, id, to));
            && (admitted.Ok? <==> known && to.Some? && Later(c.providers[id].lifecycle, to.value))
            && (admitted == Err(NotFound) <==> !known)
            && (admitted.Err? ==> admitted.error in {NotFound, LifecycleTransition})
            && (admitted.Ok? ==>
                  && admitted.value == c.(providers := c.providers[id := c.providers[id].(lifecycle := to.value)],
                                          bindings := admitted.value.bindings)
                  && (forall k :: k in admitted.value.bindings <==> k in c.bindings && (to.value == Retired ==> k.1 != id))
                  && (forall k :: k in admitted.value.bindings ==> admitted.value.bindings[k] == c.bindings[k]))
  {
  }

  /** A relationship is admitted if and only if both ends stand for something. */
  lemma RelationshipAdmittedExactly(c: Content, r: Relationship)
    requires RegistryOk(c)
    ensures Admit(c, AddRelationship(r)).Ok? <==> (exists x :: Means(c, r.src, x)) && exists y :: Means(c, r.dst, y)
    ensures Admit(c, AddRelationship(r)).Err? ==> Admit(c, AddRelationship(r)).error == RelationshipEndpoint
    ensures Admit(c, AddRelationship(r)).Ok? ==> Admit(c, AddRelationship(r)).value == c.(relationships := c.relationships + [r])
  {
    ResolveMeans(c, r.src);
    ResolveMeans(c, r.dst);
    if Resolve(c, r.src).Some? {
      assert Means(c, r.src, Resolve(c, r.src).value);
    }
    if Resolve(c, r.dst).Some? {
      assert Means(c, r.dst, Resolve(c, r.dst).value);
    }
  }
}
