/** The live plugin registry: validate on a clone, then commit, reindex and snapshot. */
module PrtRegistry {
  import opened Orders
  import opened PrtRules
  import opened Wrappers

  datatype Snapshot = Snapshot(version: nat, content: Content)

  /** Every published version is in order and only moves forward from every earlier one. */
  ghost predicate HistoryOk(history: seq<Snapshot>) {
    && |history| > 0 && history[0].content == EMPTY
    && (forall i :: 0 <= i < |history| ==> history[i].version == i && RegistryOk(history[i].content))
    && (forall i, j :: 0 <= i <= j < |history| ==> Evolves(history[i].content, history[j].content))
  }

  lemma HistoryExtends(history: seq<Snapshot>, next: Content)
    requires HistoryOk(history)
    requires RegistryOk(next) && Evolves(history[|history| - 1].content, next)
    ensures HistoryOk(history + [Snapshot(|history|, next)])
  {
    var h := history + [Snapshot(|history|, next)];
    assert forall i :: 0 <= i < |history| ==> h[i] == history[i];
    forall i, j | 0 <= i <= j < |h| ensures Evolves(h[i].content, h[j].content) {
      if i < j == |history| {
        EvolvesTransitive(h[i].content, h[j - 1].content, next);
      }
    }
  }

  /** The candidate next state the handlers work on. */
  class Working {
    var capabilities: map<string, Capability>
    var providers: map<string, Provider>
    var bindings: map<BindingKey, Binding>
    var aliases: map<string, string>
    var relationships: seq<Relationship>

    constructor (c: Content)
      ensures Contents() == c
    {
      capabilities, providers, bindings := c.capabilities, c.providers, c.bindings;
      aliases, relationships := c.aliases, c.relationships;
    }

    ghost function Contents(): Content
      reads this
    {
      Content(capabilities, providers, bindings, aliases, relationships)
    }

    function ResolveId(id: string): (r: Option<string>)
      reads this
      ensures r == Resolve(Contents(), id)
    {
      if id in aliases then Some(aliases[id]) else if id in capabilities then Some(id) else None
    }

    /** The handler concluded as the rules say; after a refusal the copy is discarded. */
    ghost predicate Follows(spec: Result<Content, Refusal>, refused: Option<Refusal>)
      reads this
    {
      if refused.Some? then spec == Err(refused.value) else spec == Ok(Contents())
    }

    method HandleAddCapability(record: Capability) returns (refused: Option<Refusal>)
      modifies this
      ensures Follows(AddedCapability(old(Contents()), record), refused)
    {
      if record.id in capabilities {
        return Some(if capabilities[record.id].lifecycle == Retired then TombstoneReuse else DuplicateId);
      }
      if record.id in aliases {
        return Some(AliasResolution);
      }
      if record.expectations == [] {
        return Some(MetadataIncomplete);
      }
      var free := CheckAliases(record.aliases);
      if !free {
        return Some(AliasResolution);
      }
      capabilities := capabilities[record.id := record];
      PointAliases(record.aliases, record.id);
      return None;
    }

    method CheckAliases(names: seq<string>) returns (free: bool)
      ensures free <==> AliasesFree(Contents(), names)
    {
      for i := 0 to |names|
        invariant forall k :: 0 <= k < i ==> names[k] !in capabilities && names[k] !in aliases
      {
        if names[i] in capabilities || names[i] in aliases {
          return false;
        }
      }
      return true;
    }

    method PointAliases(names: seq<string>, target: string)
      modifies this`aliases
      ensures aliases == Pointed(old(aliases), names, target)
    {
      for i := 0 to |names|
        invariant aliases == Pointed(old(aliases), names[..i], target)
      {
        assert names[..i + 1] == names[..i] + [names[i]];
        aliases := aliases[names[i] := target];
      }
      assert names[..|names|] == names;
    }

    method HandleUpdateCapability(record: Capability) returns (refused: Option<Refusal>)
      modifies this
      ensures Follows(UpdatedCapability(old(Contents()), record), refused)
    {
      if record.id !in capabilities {
        return Some(NotFound);
      }
      var existing := capabilities[record.id];
      if existing.lifecycle == Retired {
        return Some(TombstoneReuse);
      }
      if record.lifecycle != existing.lifecycle {
        return Some(LifecycleTransition);
      }
      if record.category != existing.category {
        return Some(AliasResolution);
      }
      if record.aliases != existing.aliases {
        return Some(AliasResolution);
      }
      if record.expectations == [] {
        return Some(MetadataIncomplete);
      }
      capabilities := capabilities[record.id := record];
      return None;
    }

    method HandleAddProvider(record: Provider) returns (refused: Option<Refusal>)
      modifies this
      ensures Follows(AddedProvider(old(Contents()), record), refused)
    {
      if record.id in providers {
        return Some(if providers[record.id].lifecycle == Retired then TombstoneReuse else DuplicateId);
      }
      providers := providers[record.id := record];
      return None;
    }

    method HandleAddBinding(record: Binding) returns (refused: Option<Refusal>)
      requires RegistryOk(Contents())
      modifies this
      ensures Follows(AddedBinding(old(Contents()), record), refused)
    {
      var canonical := ResolveId(record.capabilityId);
      if canonical.None? {
        return Some(BindingConsistency);
      }
      ResolveStable(Contents(), Contents(), record.capabilityId);
      var capability := capabilities[canonical.value];
      if capability.lifecycle != Active && capability.lifecycle != Deprecated {
        return Some(BindingConsistency);
      }
      if record.providerId !in providers {
        return Some(BindingConsistency);
      }
      if !Compatible(capability.constraints, providers[record.providerId].constraints) {
        return Some(BindingConsistency);
      }
      bindings := bindings[(canonical.value, record.providerId) := record.(capabilityId := canonical.value)];
      return None;
    }

    method HandleRemoveBinding(capabilityId: string, providerId: string) returns (refused: Option<Refusal>)
      modifies this
      ensures Follows(RemovedBinding(old(Contents()), capabilityId, providerId), refused)
    {
      var canonical := ResolveId(capabilityId);
      if canonical.None? || (canonical.value, providerId) !in bindings {
        return Some(NotFound);
      }
      bindings := bindings - {(canonical.value, providerId)};
      return None;
    }

    method HandleAddRelationship(record: Relationship) returns (refused: Option<Refusal>)
      modifies this
      ensures Follows(AddedRelationship(old(Contents()), record), refused)
    {
      var src, dst := ResolveId(record.src), ResolveId(record.dst);
      if src.None? || dst.None? {
        return Some(RelationshipEndpoint);
      }
      relationships := relationships + [record];
      return None;
    }

    method HandleTransition(entity: Entity, id: string, to: Option<Lifecycle>) returns (refused: Option<Refusal>)
      modifies this
      ensures Follows(Admit(old(Contents()), Transition(entity, id, to)), refused)
    {
      match entity
      case CapabilityEntity => refused := TransitionCapability(id, to);
      case ProviderEntity => refused := TransitionProvider(id, to);
      case UnknownEntity => return Some(UnknownMutation);
    }

    method TransitionCapability(id: string, to: Option<Lifecycle>) returns (refused: Option<Refusal>)
      modifies this
      ensures Follows(TransitionedCapability(old(Contents()), id, to), refused)
    {
      if id !in capabilities {
        return Some(NotFound);
      }
      if to.None? || Rank(to.value) <= Rank(capabilities[id].lifecycle) {
        return Some(LifecycleTransition);
      }
      if to.value == Retired && exists a :: a in aliases && aliases[a] == id {
        return Some(AliasTargetRetirement);
      }
      capabilities := capabilities[id := capabilities[id].(lifecycle := to.value)];
      return None;
    }

    method TransitionProvider(id: string, to: Option<Lifecycle>) returns (refused: Option<Refusal>)
      modifies this
      ensures Follows(TransitionedProvider(old(Contents()), id, to), refused)
    {
      if id !in providers {
        return Some(NotFound);
      }
      if to.None? || Rank(to.value) <= Rank(providers[id].lifecycle) {
        return Some(LifecycleTransition);
      }
      providers := providers[id := providers[id].(lifecycle := to.value)];
      if to.value == Retired {
        var todo := bindings.Keys;
        while todo != {}
          invariant providers == old(providers)[id := old(providers)[id].(lifecycle := to.value)]
          invariant capabilities == old(capabilities) && aliases == old(aliases) && relationships == old(relationships)
          invariant todo <= old(bindings).Keys
          invariant bindings == map k | k in old(bindings) && (k in todo || k.1 != id) :: old(bindings)[k]
          decreases todo
        {
          var key :| key in todo;
          if key.1 == id {
            bindings := bindings - {key};
          }
          todo := todo - {key};
        }
        assert bindings == WithoutProvider(old(bindings), id);
      }
      return None;
    }

    /** Each part through its own handler, in the order parts depend on each other. */
    method HandleAdmitBundle(b: Bundle) returns (refused: Option<Refusal>)
      requires RegistryOk(Contents())
      modifies this
      ensures Follows(AdmittedBundle(old(Contents()), b), refused)
    {
      refused := AddAllCapabilities(b.capabilities);
      if refused.Some? {
        return;
      }
      ghost var one := Contents();
      refused := HandleAddProvider(b.provider);
      if refused.Some? {
        return;
      }
      SingleKeeps(one, AddProvider(b.provider));
      refused := AddAllBindings(b.bindings);
      if refused.Some? {
        return;
      }
      refused := AddAllRelationships(b.relationships);
    }

    method AddAllCapabilities(records: seq<Capability>) returns (refused: Option<Refusal>)
      requires RegistryOk(Contents())
      modifies this
      ensures Follows(AddedCapabilities(old(Contents()), records), refused)
      ensures refused.None? ==> RegistryOk(Contents())
    {
      assert records[0..] == records;
      for i := 0 to |records|
        invariant RegistryOk(Contents())
        invariant AddedCapabilities(Contents(), records[i..]) == AddedCapabilities(old(Contents()), records)
      {
        ghost var before := Contents();
        assert records[i..][1..] == records[i + 1..];
        refused := HandleAddCapability(records[i]);
        if refused.Some? {
          return;
        }
        AddedCapabilityKeeps(before, records[i]);
      }
      return None;
    }

    method AddAllBindings(records: seq<Binding>) returns (refused: Option<Refusal>)
      requires RegistryOk(Contents())
      modifies this
      ensures Follows(AddedBindings(old(Contents()), records), refused)
    {
      assert records[0..] == records;
      for i := 0 to |records|
        invariant RegistryOk(Contents())
        invariant AddedBindings(Contents(), records[i..]) == AddedBindings(old(Contents()), records)
      {
        ghost var before := Contents();
        assert records[i..][1..] == records[i + 1..];
        refused := HandleAddBinding(records[i]);
        if refused.Some? {
          return;
        }
        AddedBindingKeeps(before, records[i]);
      }
      return None;
    }

    method AddAllRelationships(records: seq<Relationship>) returns (refused: Option<Refusal>)
      modifies this
      ensures Follows(AddedRelationships(old(Contents()), records), refused)
    {
      assert records[0..] == records;
      for i := 0 to |records|
        invariant AddedRelationships(Contents(), records[i..]) == AddedRelationships(old(Contents()), records)
      {
        assert records[i..][1..] == records[i + 1..];
        refused := HandleAddRelationship(records[i]);
        if refused.Some? {
          return;
        }
      }
      return None;
    }

    method Handle(m: Mutation) returns (refused: Option<Refusal>)
      requires RegistryOk(Contents())
      modifies this
      ensures Follows(Admit(old(Contents()), m), refused)
    {
      match m
      case AddCapability(record) => refused := HandleAddCapability(record);
      case UpdateCapability(record) => refused := HandleUpdateCapability(record);
      case AddProvider(record) => refused := HandleAddProvider(record);
      case AddBinding(record) => refused := HandleAddBinding(record);
      case RemoveBinding(capabilityId, providerId) => refused := HandleRemoveBinding(capabilityId, providerId);
      case AddRelationship(record) => refused := HandleAddRelationship(record);
      case Transition(entity, id, to) => refused := HandleTransition(entity, id, to);
      case AdmitBundle(bundle) => refused := HandleAdmitBundle(bundle);
      case UnknownKind => refused := Some(UnknownMutation);
    }
  }

  /** The index lists, for each capability that has any, the providers bound to it. */
  ghost predicate IndexOf(index: map<string, set<string>>, bindings: map<BindingKey, Binding>) {
    forall id :: ProvidersFor(bindings, id) == if id in index then index[id] else {}
  }

  class Registry {
    var version: nat
    var capabilities: map<string, Capability>
    var providers: map<string, Provider>
    var bindings: map<BindingKey, Binding>
    var aliases: map<string, string>
    var relationships: seq<Relationship>
    var bindingsByCapability: map<string, set<string>>
    var history: seq<Snapshot>

    function Contents(): Content
      reads this
    {
      Content(capabilities, providers, bindings, aliases, relationships)
    }

    /** The last version of a good history is the live content. */
    ghost predicate Valid()
      reads this
    {
      HistoryOk(history) && |history| == version + 1 && history[version].content == Contents()
      && IndexOf(bindingsByCapability, bindings)
    }

    constructor ()
      ensures Valid() && version == 0 && Contents() == EMPTY
    {
      version, capabilities, providers, bindings, aliases, relationships := 0, map[], map[], map[], map[], [];
      bindingsByCapability := map[];
      history := [Snapshot(0, EMPTY)];
      EmptyOk();
    }

    function ResolveId(id: string): (r: Option<string>)
      reads this
      ensures r == Resolve(Contents(), id)
    {
      if id in aliases then Some(aliases[id]) else if id in capabilities then Some(id) else None
    }

    method Validate(m: Mutation) returns (r: Result<Working, Refusal>)
      requires RegistryOk(Contents())
      ensures var spec := Admit(Contents(), m);
              if r.Err? then spec == Err(r.error) else fresh(r.value) && spec == Ok(r.value.Contents())
    {
      var working := new Working(Content(capabilities, providers, bindings, aliases, relationships));
      var refused := working.Handle(m);
      if refused.Some? {
        return Err(refused.value);
      }
      return Ok(working);
    }

    /** _build_binding_indexes, for the capability side. */
    static method BuildBindingIndex(bindings: map<BindingKey, Binding>) returns (index: map<string, set<string>>)
      ensures IndexOf(index, bindings)
    {
      index := map[];
      var todo := bindings.Keys;
      while todo != {}
        invariant todo <= bindings.Keys
        invariant forall id :: (set k | k in bindings && k !in todo && k.0 == id :: k.1) == if id in index then index[id] else {}
        decreases todo
      {
        var key :| key in todo;
        index := index[key.0 := (if key.0 in index then index[key.0] else {}) + {key.1}];
        todo := todo - {key};
      }
    }

    /** Admit: exactly one new version holding exactly what the rules say, every earlier
        version untouched. Refuse: nothing changes at all. */
    method Apply(m: Mutation) returns (r: Result<nat, Refusal>)
      requires Valid()
      modifies this
      ensures Valid()
      ensures match Admit(old(Contents()), m)
              case Err(refusal) => r == Err(refusal) && version == old(version) && history == old(history) && Contents() == old(Contents())
              case Ok(next) => r == Ok(version) && version == old(version) + 1 && Contents() == next
                               && history == old(history) + [Snapshot(version, next)]
    {
      assert RegistryOk(history[version].content);
      var working := Validate(m);
      if working.Err? {
        return Err(working.error);
      }
      AdmitKeeps(Contents(), m);
      Commit(working.value);
      return Ok(version);
    }

    method Commit(working: Working)
      requires Valid() && RegistryOk(working.Contents()) && Evolves(Contents(), working.Contents())
      modifies this
      ensures Valid() && version == old(version) + 1 && Contents() == working.Contents()
      ensures history == old(history) + [Snapshot(version, Contents())]
    {
      HistoryExtends(history, working.Contents());
      ghost var extended := history + [Snapshot(|history|, working.Contents())];
      var index := BuildBindingIndex(working.bindings);
      capabilities, providers, bindings, aliases, relationships, bindingsByCapability, version :=
        working.capabilities, working.providers, working.bindings, working.aliases, working.relationships, index, version + 1;
      history := history + [Snapshot(version, Content(capabilities, providers, bindings, aliases, relationships))];
      assert history == extended;
    }

    /** Refuses exactly what Apply would refuse, and changes nothing: a mutation that
        passes here cannot be refused by an Apply on the same content. */
    method DryRun(m: Mutation) returns (refused: Option<Refusal>)
      requires Valid()
      ensures refused == if Admit(Contents(), m).Err? then Some(Admit(Contents(), m).error) else None
    {
      var r := Validate(m);
      return if r.Err? then Some(r.error) else None;
    }

    /** A published version, for ever; None for one that never existed. */
    method AtVersion(n: int) returns (r: Option<Snapshot>)
      requires Valid()
      ensures r.Some? <==> 0 <= n <= version
      ensures r.Some? ==> r.value == history[n] && r.value.version == n && RegistryOk(r.value.content)
    {
      if n < 0 || n > version {
        return None;
      }
      return Some(history[n]);
    }

    /** The bindings of a capability or alias, through the index; their order is not specified. */
    method ListBindings(id: string) returns (listed: seq<Binding>)
      requires Valid()
      ensures Elements(listed) == BindingsFor(Contents(), id) && Distinct(listed)
    {
      listed := [];
      var canonical := ResolveId(id);
      if canonical.None? || canonical.value !in bindingsByCapability {
        if canonical.Some? {
          assert ProvidersFor(bindings, canonical.value) == {};
          assert forall k :: k in bindings && k.0 == canonical.value ==> k.1 in ProvidersFor(bindings, canonical.value);
        }
        return;
      }
      var todo := bindingsByCapability[canonical.value];
      assert RegistryOk(Contents());
      while todo != {}
        invariant todo <= ProvidersFor(bindings, canonical.value)
        invariant Elements(listed) == set k | k in bindings && k.0 == canonical.value && k.1 !in todo :: bindings[k]
        invariant Distinct(listed)
        decreases todo
      {
        var providerId :| providerId in todo;
        var key := (canonical.value, providerId);
        assert key in bindings;
        ghost var before := listed;
        forall b | b in listed ensures b != bindings[key] {
          assert b in Elements(listed);
        }
        listed := listed + [bindings[key]];
        assert Elements(listed) == Elements(before) + {bindings[key]};
        todo := todo - {providerId};
      }
    }
  }
}
