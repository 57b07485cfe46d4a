/** Which provider a binding chooses, told by preference, reliability and id alone, and which
    providers could have been chosen. */
module PrtChoice {
  import opened Orders
  import opened PrtBinding
  import opened PrtMeaning
  import opened PrtRules
  import opened Wrappers
  import H = PrtHealth

  // -- eligibility ---------------------------------------------------------------------

  /** A provider that may be bound now: registered and not retired, not barred, allowed to be
      loaded, and reported available. */
  predicate MayBind(c: Content, id: string, policy: Policy, data: H.HealthData) {
    && id in c.providers && c.providers[id].lifecycle != Retired
    && id !in policy.adminBarred
    && ("loadable" in c.providers[id].loadPolicy ==> c.providers[id].loadPolicy["loadable"] != "")
    && id in data && data[id].available
  }

  /** Why it may not: the first of these that is so. */
  predicate Because(c: Content, id: string, policy: Policy, data: H.HealthData, rung: Rung) {
    match rung
    case RetiredRung => Gone(c, id)
    case Registered => !Gone(c, id) && id !in policy.adminBarred && !Loadable(c.providers[id])
    case Loadable => !Gone(c, id) && id !in policy.adminBarred && Loadable(c.providers[id]) && id !in data
    case Unavailable =>
      !Gone(c, id)
      && (id in policy.adminBarred || (Loadable(c.providers[id]) && id in data && !data[id].available))
    case _ => false
  }

  predicate Gone(c: Content, id: string) {
    id !in c.providers || c.providers[id].lifecycle == Retired
  }

  predicate Loadable(p: Provider) {
    "loadable" in p.loadPolicy ==> p.loadPolicy["loadable"] != ""
  }

  /** The ladder's rung: operational or available just when the provider may be bound, the
      former when it is prepared or loaded; otherwise the reason it may not be bound. */
  lemma RungMeans(c: Content, id: string, policy: Policy, loads: Loads, data: H.HealthData)
    ensures var rung := RungFor(c, id, policy, loads, data);
            && (rung == Operational <==> MayBind(c, id, policy, data) && id in loads && (loads[id] == Prepared || loads[id] == Loaded))
            && (rung == Available <==> MayBind(c, id, policy, data) && !(id in loads && (loads[id] == Prepared || loads[id] == Loaded)))
            && (Eligible(rung) <==> MayBind(c, id, policy, data))
            && (!Eligible(rung) ==> Because(c, id, policy, data, rung))
  {
  }

  /** Two reasons are never both so. */
  lemma OneReason(c: Content, id: string, policy: Policy, data: H.HealthData, a: Rung, b: Rung)
    requires Because(c, id, policy, data, a) && Because(c, id, policy, data, b)
    ensures a == b && !MayBind(c, id, policy, data)
  {
  }

  // -- preference ------------------------------------------------------------------------

  /** The last position at which a preference lists a provider. */
  predicate LastAt(preference: seq<string>, id: string, n: nat) {
    n < |preference| && preference[n] == id && forall j :: n < j < |preference| ==> preference[j] != id
  }

  lemma {:induction false} RankMeans(preference: seq<string>, id: string)
    ensures id in preference ==> LastAt(preference, id, PreferenceRank(preference, id))
    ensures id !in preference ==> PreferenceRank(preference, id) == |preference|
  {
    if preference != [] && preference[|preference| - 1] != id {
      var front := preference[..|preference| - 1];
      RankMeans(front, id);
      assert preference == front + [preference[|preference| - 1]];
    }
  }

  lemma LastIsOne(preference: seq<string>, a: string, b: string, n: nat, m: nat)
    requires LastAt(preference, a, n) && LastAt(preference, b, m)
    ensures a == b <==> n == m
  {
  }

  // -- the choice ------------------------------------------------------------------------

  /** The preference a policy declares for a capability, or none. */
  ghost predicate Declared(policy: Policy, capability: string, preference: seq<string>) {
    if capability in policy.preferences then preference == policy.preferences[capability] else preference == []
  }

  /** A provider bound to the capability that may be bound now. */
  ghost predicate Candidate(c: Content, capability: string, policy: Policy, data: H.HealthData, id: string) {
    (capability, id) in c.bindings && MayBind(c, id, policy, data)
  }

  /** Nothing beats the choice. If it is listed, no other listed candidate's last position
      comes before its own; if it is not, no candidate is, none is more reliable, and none
      equally reliable has a smaller id. */
  ghost predicate Unbeaten(c: Content, capability: string, policy: Policy, data: H.HealthData, preference: seq<string>, winner: string)
    requires winner in data
  {
    if winner in preference then
      forall other, n, m :: Candidate(c, capability, policy, data, other) && LastAt(preference, winner, n) && LastAt(preference, other, m) ==> n <= m
    else
      forall other :: Candidate(c, capability, policy, data, other) ==>
        && other !in preference
        && data[other].reliability <= data[winner].reliability
        && (data[other].reliability == data[winner].reliability ==> StrLe(winner, other))
  }

  lemma EligibleMeans(c: Content, capability: string, policy: Policy, loads: Loads, data: H.HealthData, b: Binding)
    requires RegistryOk(c) && Resolve(c, capability) == Some(capability)
    ensures b in EligibleFor(c, capability, policy, loads, data)
            <==> Candidate(c, capability, policy, data, b.providerId) && c.bindings[(capability, b.providerId)] == b
  {
    RungMeans(c, b.providerId, policy, loads, data);
    if b in EligibleFor(c, capability, policy, loads, data) {
      var k :| k in c.bindings && k.0 == capability && c.bindings[k] == b;
      assert k == (capability, b.providerId);
    }
  }

  lemma FirstIsUnbeaten(c: Content, capability: string, policy: Policy, loads: Loads, data: H.HealthData, w: Binding)
    requires RegistryOk(c) && Resolve(c, capability) == Some(capability)
    requires First(w, EligibleFor(c, capability, policy, loads, data), PreferenceFor(policy, capability), data)
    ensures Candidate(c, capability, policy, data, w.providerId) && w.providerId in data
    ensures Unbeaten(c, capability, policy, data, PreferenceFor(policy, capability), w.providerId)
  {
    var preference := PreferenceFor(policy, capability);
    EligibleMeans(c, capability, policy, loads, data, w);
    RankMeans(preference, w.providerId);
    forall other | Candidate(c, capability, policy, data, other)
      ensures Before(preference, data, w, c.bindings[(capability, other)]) && c.bindings[(capability, other)].providerId == other
    {
      EligibleMeans(c, capability, policy, loads, data, c.bindings[(capability, other)]);
    }
    forall other | Candidate(c, capability, policy, data, other)
      ensures if w.providerId in preference then forall n, m :: LastAt(preference, w.providerId, n) && LastAt(preference, other, m) ==> n <= m
              else other !in preference
    {
      RankMeans(preference, other);
      assert Before(preference, data, w, c.bindings[(capability, other)]);
      forall n, m | LastAt(preference, w.providerId, n) && LastAt(preference, other, m) ensures w.providerId in preference ==> n <= m {
        LastIsOne(preference, other, other, m, PreferenceRank(preference, other));
        if w.providerId in preference {
          LastIsOne(preference, w.providerId, w.providerId, n, PreferenceRank(preference, w.providerId));
        }
      }
    }
    if w.providerId !in preference {
      forall other | Candidate(c, capability, policy, data, other)
        ensures data[other].reliability <= data[w.providerId].reliability
        ensures data[other].reliability == data[w.providerId].reliability ==> StrLe(w.providerId, other)
      {
        RankMeans(preference, other);
        assert Before(preference, data, w, c.bindings[(capability, other)]);
      }
    }
  }

  /** A binding succeeds if and only if the id resolves and some provider bound to the
      capability may be bound now. The contract is with a candidate nothing beats, at the
      version it was asked, under its terms as bound. */
  lemma BoundExactly(c: Content, version: nat, id: string, data: H.HealthData, hash: H.Hash, policy: Policy, loads: Loads, o: Outcome)
    requires RegistryOk(c) && Answers(c, version, id, data, hash, policy, loads, o)
    ensures o.Bound? <==> exists capability, p :: Means(c, id, capability) && Candidate(c, capability, policy, data, p)
    ensures o.Bound? ==>
      && Means(c, id, o.contract.capabilityId)
      && Candidate(c, o.contract.capabilityId, policy, data, o.contract.providerId)
      && (forall preference :: Declared(policy, o.contract.capabilityId, preference) ==>
            Unbeaten(c, o.contract.capabilityId, policy, data, preference, o.contract.providerId))
      && o.contract.constraints == c.bindings[(o.contract.capabilityId, o.contract.providerId)].terms
      && o.contract.providerVersion == c.providers[o.contract.providerId].version
      && o.contract.loadPolicy == c.providers[o.contract.providerId].loadPolicy
      && o.contract.registryVersion == version && o.contract.healthHash == hash
  {
    ResolveMeans(c, id);
    var canonical := Resolve(c, id);
    if canonical.Some? {
      var capability := canonical.value;
      ResolveStable(c, c, id);
      assert Resolve(c, capability) == Some(capability);
      var eligible := EligibleFor(c, capability, policy, loads, data);
      forall p | Candidate(c, capability, policy, data, p) ensures eligible != {} {
        EligibleMeans(c, capability, policy, loads, data, c.bindings[(capability, p)]);
      }
      if eligible != {} {
        var w :| FirstAnswer(c, version, capability, data, hash, policy, eligible, w, o);
        FirstIsUnbeaten(c, capability, policy, loads, data, w);
        EligibleMeans(c, capability, policy, loads, data, w);
        assert Means(c, id, capability);
      }
    }
  }

  /** A refused binding names every provider bound to the capability, each with the one
      reason it may not be bound; or says that the id stands for nothing. */
  lemma RefusedExactly(c: Content, version: nat, id: string, data: H.HealthData, hash: H.Hash, policy: Policy, loads: Loads, o: Outcome)
    requires RegistryOk(c) && Answers(c, version, id, data, hash, policy, loads, o) && o.Failed?
    ensures o.unknownCapability <==> forall capability :: !Means(c, id, capability)
    ensures !o.unknownCapability ==>
      && Means(c, id, o.capabilityId)
      && (forall p :: p in o.reasons <==> (o.capabilityId, p) in c.bindings)
      && forall p :: p in o.reasons ==> Because(c, p, policy, data, o.reasons[p])
  {
    ResolveMeans(c, id);
    var canonical := Resolve(c, id);
    if canonical.Some? {
      var capability := canonical.value;
      ResolveStable(c, c, id);
      assert Resolve(c, capability) == Some(capability);
      var eligible := EligibleFor(c, capability, policy, loads, data);
      forall p ensures p in ProviderIds(BindingsFor(c, capability)) <==> (capability, p) in c.bindings {
        if (capability, p) in c.bindings {
          assert c.bindings[(capability, p)].providerId == p;
        }
      }
      forall p | (capability, p) in c.bindings ensures !Eligible(RungFor(c, p, policy, loads, data)) {
        RungMeans(c, p, policy, loads, data);
        EligibleMeans(c, capability, policy, loads, data, c.bindings[(capability, p)]);
      }
      forall p | p in o.reasons ensures Because(c, p, policy, data, o.reasons[p]) {
        RungMeans(c, p, policy, loads, data);
      }
    }
  }
}
