/** What each admission pre-check asks of a declaration, told by the declaration and the
    registry's entries alone. */
module PrtStages {
  import opened PrtAdmission
  import opened PrtMeaning
  import opened PrtPipeline
  import opened PrtRules
  import opened Wrappers

  /** The name stands for a registered capability, or is a proposed id or alias. */
  ghost predicate Spoken(c: Content, d: Bundle, name: string) {
    || (exists x :: Means(c, name, x))
    || exists i :: 0 <= i < |d.capabilities| && (d.capabilities[i].id == name || name in d.capabilities[i].aliases)
  }

  /** Nothing registered under the ids of the declaration is retired or says otherwise. */
  ghost predicate Identified(c: Content, d: Bundle) {
    && d.provider.id != ""
    && (d.provider.id in c.providers ==> c.providers[d.provider.id].lifecycle != Retired && c.providers[d.provider.id] == d.provider)
    && forall i :: 0 <= i < |d.capabilities| ==> CapabilityIdentified(c, d.capabilities[i])
  }

  ghost predicate CapabilityIdentified(c: Content, cap: Capability) {
    && cap.id != ""
    && forall x :: Means(c, cap.id, x) ==> c.capabilities[x].lifecycle != Retired && c.capabilities[x] == cap
  }

  /** The terms clash neither with the provider nor with the capability proposed last under
      the bound id. */
  ghost predicate Coherent(d: Bundle, b: Binding) {
    && NoClash(b.terms, d.provider.constraints)
    && forall i :: 0 <= i < |d.capabilities| && LastProposed(d.capabilities, b.capabilityId, i) ==>
         NoClash(b.terms, d.capabilities[i].constraints)
  }

  predicate LastProposed(caps: seq<Capability>, id: string, i: nat)
    requires i < |caps|
  {
    caps[i].id == id && forall j :: i < j < |caps| ==> caps[j].id != id
  }

  predicate FirstProposedAt(caps: seq<Capability>, id: string, i: nat)
    requires i < |caps|
  {
    caps[i].id == id && forall j :: 0 <= j < i ==> caps[j].id != id
  }

  /** What a binding would bind: the registered capability its id stands for, or else the
      first one proposed under that very id. */
  ghost predicate WouldBind(c: Content, d: Bundle, id: string, cap: Capability) {
    if exists x :: Means(c, id, x) then exists x :: Means(c, id, x) && c.capabilities[x] == cap
    else exists i :: 0 <= i < |d.capabilities| && FirstProposedAt(d.capabilities, id, i) && d.capabilities[i] == cap
  }

  /** And to which provider: the declared one, or else a registered one. */
  predicate WouldServe(c: Content, d: Bundle, id: string, p: Provider) {
    if id == d.provider.id then p == d.provider else id in c.providers && c.providers[id] == p
  }

  ghost predicate WouldFit(c: Content, d: Bundle, b: Binding) {
    exists cap, p :: WouldBind(c, d, b.capabilityId, cap) && WouldServe(c, d, b.providerId, p)
                     && cap.lifecycle in {Active, Deprecated} && NoClash(cap.constraints, p.constraints)
  }

  /** The provider is not registered as it is already, and no proposed alias is a name in use
      or a proposed id. */
  ghost predicate Unclashing(c: Content, d: Bundle) {
    && !(d.provider.id in c.providers && c.providers[d.provider.id] == d.provider && d.provider.lifecycle != Retired)
    && forall i, a :: 0 <= i < |d.capabilities| && a in d.capabilities[i].aliases ==>
         (forall x :: !Means(c, a, x)) && forall j :: 0 <= j < |d.capabilities| ==> d.capabilities[j].id != a
  }

  lemma SpokenMeans(c: Content, d: Bundle, name: string)
    requires RegistryOk(c)
    ensures Spoken(c, d, name) <==> Known(c, d, name)
  {
    ResolveMeans(c, name);
    if Resolve(c, name).Some? {
      assert Means(c, name, Resolve(c, name).value);
    }
    if name in ProposedIds(d.capabilities) {
      var cap :| cap in d.capabilities && cap.id == name;
      var i :| 0 <= i < |d.capabilities| && d.capabilities[i] == cap;
    }
    if name in ProposedAliases(d.capabilities) {
      var cap :| cap in d.capabilities && name in cap.aliases;
      var i :| 0 <= i < |d.capabilities| && d.capabilities[i] == cap;
    }
  }

  lemma CapabilityIdentifiedMeans(c: Content, cap: Capability)
    requires RegistryOk(c)
    ensures CapabilityIdentified(c, cap) <==> CheckCapabilityIdentity(c, cap).None?
  {
    ResolveMeans(c, cap.id);
    if Resolve(c, cap.id).Some? {
      assert Means(c, cap.id, Resolve(c, cap.id).value);
    }
  }

  lemma {:induction false} LastProposedMeans(caps: seq<Capability>, id: string)
    ensures match ProposedById(caps, id)
            case None => forall i :: 0 <= i < |caps| ==> !LastProposed(caps, id, i)
            case Some(cap) => exists i :: 0 <= i < |caps| && LastProposed(caps, id, i) && caps[i] == cap
    ensures forall i, j :: 0 <= i < |caps| && 0 <= j < |caps| && LastProposed(caps, id, i) && LastProposed(caps, id, j) ==> i == j
  {
    if caps != [] {
      var front := caps[..|caps| - 1];
      LastProposedMeans(front, id);
      if caps[|caps| - 1].id == id {
        assert LastProposed(caps, id, |caps| - 1);
      } else {
        forall i | 0 <= i < |front| ensures LastProposed(caps, id, i) <==> LastProposed(front, id, i) {
          assert caps[i] == front[i];
        }
      }
    }
  }

  lemma {:induction false} FirstProposedMeans(caps: seq<Capability>, id: string)
    ensures match FirstProposed(caps, id)
            case None => forall i :: 0 <= i < |caps| ==> caps[i].id != id
            case Some(cap) => exists i :: 0 <= i < |caps| && FirstProposedAt(caps, id, i) && caps[i] == cap
  {
    if caps != [] && caps[0].id != id {
      var rest := caps[1..];
      FirstProposedMeans(rest, id);
      if FirstProposed(rest, id).Some? {
        var i :| 0 <= i < |rest| && FirstProposedAt(rest, id, i) && rest[i] == FirstProposed(rest, id).value;
        forall j | 0 <= j < i + 1 ensures caps[j].id != id {
          assert j > 0 ==> caps[j] == rest[j - 1];
        }
        assert FirstProposedAt(caps, id, i + 1);
      } else {
        assert forall i :: 0 < i < |caps| ==> caps[i] == rest[i - 1];
      }
    } else if caps != [] {
      assert FirstProposedAt(caps, id, 0);
    }
  }

  lemma CoherentMeans(d: Bundle, b: Binding)
    ensures Coherent(d, b) <==> CheckTerms(d, b).None?
  {
    LastProposedMeans(d.capabilities, b.capabilityId);
  }

  lemma WouldBindMeans(c: Content, d: Bundle, id: string, cap: Capability)
    requires RegistryOk(c)
    ensures WouldBind(c, d, id, cap) <==> WouldBe(c, d, id) == Some(cap)
  {
    ResolveMeans(c, id);
    FirstProposedMeans(d.capabilities, id);
    if Resolve(c, id).Some? {
      var x := Resolve(c, id).value;
      assert Means(c, id, x);
      ResolveStable(c, c, id);
      ResolveMeans(c, x);
      assert Means(c, x, x);
    }
  }

  lemma WouldFitMeans(c: Content, d: Bundle, b: Binding)
    requires RegistryOk(c)
    ensures WouldFit(c, d, b) <==> CheckBinding(c, d, b).None?
  {
    var cap, p := WouldBe(c, d, b.capabilityId), BoundProvider(c, d, b.providerId);
    if cap.Some? {
      WouldBindMeans(c, d, b.capabilityId, cap.value);
    }
    forall other ensures WouldBind(c, d, b.capabilityId, other) <==> cap == Some(other) {
      WouldBindMeans(c, d, b.capabilityId, other);
    }
    assert forall other :: WouldServe(c, d, b.providerId, other) <==> p == Some(other);
  }

  lemma UnclashingMeans(c: Content, d: Bundle)
    requires RegistryOk(c)
    ensures Unclashing(c, d) <==> Check(c, d, CompatibilityStage).None?
  {
    forall i | 0 <= i < |d.capabilities|
      ensures CheckAliasClash(c, d, d.capabilities[i]).None? <==>
              forall a :: a in d.capabilities[i].aliases ==>
                (forall x :: !Means(c, a, x)) && forall j :: 0 <= j < |d.capabilities| ==> d.capabilities[j].id != a
    {
      forall a ensures Resolve(c, a).None? <==> forall x :: !Means(c, a, x) {
        ResolveMeans(c, a);
        if Resolve(c, a).Some? {
          assert Means(c, a, Resolve(c, a).value);
        }
      }
      forall a ensures a in ProposedIds(d.capabilities) <==> exists j :: 0 <= j < |d.capabilities| && d.capabilities[j].id == a {
        if a in ProposedIds(d.capabilities) {
          var cap :| cap in d.capabilities && cap.id == a;
          var j :| 0 <= j < |d.capabilities| && d.capabilities[j] == cap;
        }
      }
    }
  }

  /** What the stage asks. */
  ghost predicate Asks(c: Content, d: Bundle, s: Stage)
    requires s in STAGES
  {
    match s
    case IdentityStage => Identified(c, d)
    case CapabilityStage => forall b :: b in d.bindings ==> Spoken(c, d, b.capabilityId)
    case MetadataStage => forall cap :: cap in d.capabilities ==> cap.expectations != []
    case ConstraintStage => forall b :: b in d.bindings ==> Coherent(d, b)
    case RelationshipStage => forall r :: r in d.relationships ==> Spoken(c, d, r.src) && Spoken(c, d, r.dst)
    case BindingStage => forall b :: b in d.bindings ==> WouldFit(c, d, b)
    case CompatibilityStage => Unclashing(c, d)
    case _ => true
  }

  /** Each pre-check passes if and only if what it asks holds. */
  lemma StagePassesExactly(c: Content, d: Bundle, s: Stage)
    requires RegistryOk(c) && s in STAGES
    ensures Check(c, d, s).None? <==> Asks(c, d, s)
  {
    match s
    case IdentityStage =>
      forall i | 0 <= i < |d.capabilities|
        ensures CapabilityIdentified(c, d.capabilities[i]) <==> CheckCapabilityIdentity(c, d.capabilities[i]).None?
      {
        CapabilityIdentifiedMeans(c, d.capabilities[i]);
      }
    case CapabilityStage =>
      forall b: Binding ensures Spoken(c, d, b.capabilityId) <==> CheckReference(c, d, b).None? {
        SpokenMeans(c, d, b.capabilityId);
      }
      EachInTurn(d.bindings, b => CheckReference(c, d, b));
    case MetadataStage => EachInTurn(d.capabilities, cap => CheckMetadata(cap));
    case ConstraintStage =>
      forall b: Binding ensures Coherent(d, b) <==> CheckTerms(d, b).None? {
        CoherentMeans(d, b);
      }
      EachInTurn(d.bindings, b => CheckTerms(d, b));
    case RelationshipStage =>
      forall r: Relationship ensures Spoken(c, d, r.src) && Spoken(c, d, r.dst) <==> CheckEndpoints(c, d, r).None? {
        SpokenMeans(c, d, r.src);
        SpokenMeans(c, d, r.dst);
      }
      EachInTurn(d.relationships, r => CheckEndpoints(c, d, r));
    case BindingStage =>
      forall b: Binding ensures WouldFit(c, d, b) <==> CheckBinding(c, d, b).None? {
        WouldFitMeans(c, d, b);
      }
      EachInTurn(d.bindings, b => CheckBinding(c, d, b));
    case CompatibilityStage => UnclashingMeans(c, d);
  }

  lemma EachInTurn<T>(items: seq<T>, check: T -> Verdict)
    ensures FirstRefusal(items, check).None? <==> forall x :: x in items ==> check(x).None?
  {
    if forall x :: x in items ==> check(x).None? {
      forall i | 0 <= i < |items| ensures check(items[i]).None? {
        assert items[i] in items;
      }
    }
  }

  /** What a refused stage says. */
  lemma StageRefusals(c: Content, d: Bundle, s: Stage)
    requires s in STAGES && Check(c, d, s).Some?
    ensures var why := Check(c, d, s).value;
            match s
            case IdentityStage => why in {IdentityMalformed, FromRegistry(TombstoneReuse), SemanticHijack}
            case CapabilityStage => why == CapabilityReference
            case MetadataStage => why == FromRegistry(MetadataIncomplete)
            case ConstraintStage => why == ConstraintIncoherence
            case RelationshipStage => why == FromRegistry(RelationshipEndpoint)
            case BindingStage => why == FromRegistry(BindingConsistency)
            case CompatibilityStage => why == CompatibilityConflict
            case _ => false
  {
    match s
    case IdentityStage => OneOf(d.capabilities, cap => CheckCapabilityIdentity(c, cap));
    case CapabilityStage => OneOf(d.bindings, b => CheckReference(c, d, b));
    case MetadataStage => OneOf(d.capabilities, cap => CheckMetadata(cap));
    case ConstraintStage => OneOf(d.bindings, b => CheckTerms(d, b));
    case RelationshipStage => OneOf(d.relationships, r => CheckEndpoints(c, d, r));
    case BindingStage => OneOf(d.bindings, b => CheckBinding(c, d, b));
    case CompatibilityStage => OneOf(d.capabilities, cap => CheckAliasClash(c, d, cap));
  }

  lemma {:induction false} OneOf<T>(items: seq<T>, check: T -> Verdict)
    ensures FirstRefusal(items, check).Some? ==> exists x :: x in items && check(x) == FirstRefusal(items, check)
  {
    if items != [] && check(items[0]).None? {
      OneOf(items[1..], check);
    }
  }

  // -- where a declaration stops -----------------------------------------------------------

  /** The first pre-check that fails, in the program's order. */
  ghost predicate StopsAt(c: Content, d: Bundle, s: Stage) {
    match s
    case IdentityStage => !Asks(c, d, IdentityStage)
    case CapabilityStage => Asks(c, d, IdentityStage) && !Asks(c, d, CapabilityStage)
    case MetadataStage => Asks(c, d, IdentityStage) && Asks(c, d, CapabilityStage) && !Asks(c, d, MetadataStage)
    case ConstraintStage =>
      Asks(c, d, IdentityStage) && Asks(c, d, CapabilityStage) && Asks(c, d, MetadataStage) && !Asks(c, d, ConstraintStage)
    case RelationshipStage =>
      Asks(c, d, IdentityStage) && Asks(c, d, CapabilityStage) && Asks(c, d, MetadataStage) && Asks(c, d, ConstraintStage)
      && !Asks(c, d, RelationshipStage)
    case BindingStage =>
      Asks(c, d, IdentityStage) && Asks(c, d, CapabilityStage) && Asks(c, d, MetadataStage) && Asks(c, d, ConstraintStage)
      && Asks(c, d, RelationshipStage) && !Asks(c, d, BindingStage)
    case CompatibilityStage =>
      Asks(c, d, IdentityStage) && Asks(c, d, CapabilityStage) && Asks(c, d, MetadataStage) && Asks(c, d, ConstraintStage)
      && Asks(c, d, RelationshipStage) && Asks(c, d, BindingStage) && !Asks(c, d, CompatibilityStage)
    case _ => false
  }

  lemma PassedAsked(c: Content, d: Bundle)
    requires RegistryOk(c)
    ensures var n := PassedFrom(c, d, 0);
            && (forall i :: 0 <= i < n ==> Asks(c, d, STAGES[i])) && (n < |STAGES| ==> !Asks(c, d, STAGES[n]))
  {
    PassedMeaning(c, d, 0);
    forall i | 0 <= i < |STAGES| ensures Check(c, d, STAGES[i]).None? <==> Asks(c, d, STAGES[i]) {
      StagePassesExactly(c, d, STAGES[i]);
    }
  }

  lemma StopsInOrder(c: Content, d: Bundle, n: nat)
    requires n < |STAGES| && !Asks(c, d, STAGES[n]) && forall i :: 0 <= i < n ==> Asks(c, d, STAGES[i])
    ensures StopsAt(c, d, STAGES[n])
  {
    assert 0 < n ==> Asks(c, d, STAGES[0]);
    assert 1 < n ==> Asks(c, d, STAGES[1]);
    assert 2 < n ==> Asks(c, d, STAGES[2]);
    assert 3 < n ==> Asks(c, d, STAGES[3]);
    assert 4 < n ==> Asks(c, d, STAGES[4]);
    assert 5 < n ==> Asks(c, d, STAGES[5]);
  }

  /** The pipeline rejects a declaration at the first pre-check whose demand it does not
      meet, and lets it through to the dry run if and only if it meets all seven. */
  lemma RejectedAtTheFirst(c: Content, d: Bundle)
    requires RegistryOk(c)
    ensures var n := PassedFrom(c, d, 0);
            && (n < |STAGES| ==> StopsAt(c, d, STAGES[n]))
            && (n == |STAGES| <==> forall s :: s in STAGES ==> Asks(c, d, s))
  {
    var n := PassedFrom(c, d, 0);
    PassedAsked(c, d);
    if n < |STAGES| {
      StopsInOrder(c, d, n);
      assert STAGES[n] in STAGES;
    }
  }
}
