/** Late binding: which provider a capability id is bound to, given a registry version,
    a health snapshot and declared policy. */
module PrtBinding {
  import opened Orders
  import opened PrtRules
  import opened Wrappers
  import H = PrtHealth

  datatype LoadState = NotLoaded | Loading | Prepared | Loaded | Released | Unloadable

  /** Configured policy: administrative bars, and a preference order per capability. */
  datatype Policy = Policy(adminBarred: set<string>, preferences: map<string, seq<string>>)

  type Loads = map<string, LoadState>

  datatype Rung = Registered | Loadable | Available | Operational | Unavailable | RetiredRung

  /** An absent key permits loading; a present one must be truthy. */
  predicate PermitsLoading(p: Provider) {
    "loadable" in p.loadPolicy ==> p.loadPolicy["loadable"] != ""
  }

  /** The availability ladder: the first gate that fails fixes the rung. */
  function RungFor(c: Content, id: string, policy: Policy, loads: Loads, data: H.HealthData): Rung {
    if id !in c.providers || c.providers[id].lifecycle == Retired then RetiredRung
    else if id in policy.adminBarred then Unavailable
    else if !PermitsLoading(c.providers[id]) then Registered
    else if id !in data then Loadable
    else if !data[id].available then Unavailable
    else if id in loads && loads[id] in {Prepared, Loaded} then Operational
    else Available
  }

  predicate Eligible(r: Rung) {
    r == Available || r == Operational
  }

  /** Whether a provider happens to be loaded tells Operational from Available, and nothing else. */
  lemma LoadStateOnlyNamesTheRung(c: Content, id: string, policy: Policy, a: Loads, b: Loads, data: H.HealthData)
    ensures Eligible(RungFor(c, id, policy, a, data)) == Eligible(RungFor(c, id, policy, b, data))
    ensures !Eligible(RungFor(c, id, policy, a, data)) ==> RungFor(c, id, policy, a, data) == RungFor(c, id, policy, b, data)
  {
  }

  /** The binding as agreed, with the coordinates it was decided under. Its id in the
      program is a digest of exactly these fields. */
  datatype Contract = Contract(
    providerId: string, providerVersion: string, capabilityId: string, constraints: Constraints, loadPolicy: Constraints,
    registryVersion: nat, healthHash: H.Hash)

  datatype Outcome =
    | Bound(contract: Contract)
    | Failed(capabilityId: string, registryVersion: nat, healthHash: H.Hash, reasons: map<string, Rung>, unknownCapability: bool)

  /** Where a provider stands in a preference order: its last position, or after them all. */
  function PreferenceRank(preference: seq<string>, id: string): nat {
    if preference == [] then 0
    else if preference[|preference| - 1] == id then |preference| - 1
    else
      var before := PreferenceRank(preference[..|preference| - 1], id);
      if before == |preference| - 1 then |preference| else before
  }

  function PreferenceFor(policy: Policy, canonical: string): seq<string> {
    if canonical in policy.preferences then policy.preferences[canonical] else []
  }

  function ReliabilityOf(data: H.HealthData, id: string): real {
    if id in data then data[id].reliability else 0.0
  }

  /** Preferred first, then more reliable, then the smaller id. */
  predicate Before(preference: seq<string>, data: H.HealthData, a: Binding, b: Binding) {
    var ra, rb := PreferenceRank(preference, a.providerId), PreferenceRank(preference, b.providerId);
    var qa, qb := ReliabilityOf(data, a.providerId), ReliabilityOf(data, b.providerId);
    ra < rb || (ra == rb && (qa > qb || (qa == qb && StrLe(a.providerId, b.providerId))))
  }

  lemma BeforePreorder(preference: seq<string>, data: H.HealthData)
    ensures TotalPreorder((a, b) => Before(preference, data, a, b))
  {
    StrOrder();
  }

  function EligibleAmong(c: Content, candidates: set<Binding>, policy: Policy, loads: Loads, data: H.HealthData): set<Binding> {
    set b | b in candidates && Eligible(RungFor(c, b.providerId, policy, loads, data))
  }

  function EligibleFor(c: Content, canonical: string, policy: Policy, loads: Loads, data: H.HealthData): set<Binding> {
    EligibleAmong(c, BindingsFor(c, canonical), policy, loads, data)
  }

  function ProviderIds(candidates: set<Binding>): set<string> {
    set b | b in candidates :: b.providerId
  }

  /** Why each ineligible provider was refused. */
  function Reasons(c: Content, ids: set<string>, policy: Policy, loads: Loads, data: H.HealthData): map<string, Rung> {
    map id | id in ids && !Eligible(RungFor(c, id, policy, loads, data)) :: RungFor(c, id, policy, loads, data)
  }

  function ReasonsFor(c: Content, canonical: string, policy: Policy, loads: Loads, data: H.HealthData): map<string, Rung> {
    Reasons(c, ProviderIds(BindingsFor(c, canonical)), policy, loads, data)
  }

  /** Not after any other eligible candidate. */
  ghost predicate First(w: Binding, eligible: set<Binding>, preference: seq<string>, data: H.HealthData) {
    w in eligible && forall b :: b in eligible ==> Before(preference, data, w, b)
  }

  function ContractFor(c: Content, version: nat, canonical: string, w: Binding, hash: H.Hash): Contract
    requires w.providerId in c.providers
  {
    Contract(w.providerId, c.providers[w.providerId].version, canonical, w.terms, c.providers[w.providerId].loadPolicy, version, hash)
  }

  /** What the seven stages must answer. */
  ghost predicate Answers(c: Content, version: nat, id: string, data: H.HealthData, hash: H.Hash, policy: Policy, loads: Loads, o: Outcome) {
    var canonical := Resolve(c, id);
    if canonical.None? then o == Failed(id, version, hash, map[], true)
    else
      var eligible := EligibleFor(c, canonical.value, policy, loads, data);
      if eligible == {} then o == Failed(canonical.value, version, hash, ReasonsFor(c, canonical.value, policy, loads, data), false)
      else exists w :: FirstAnswer(c, version, canonical.value, data, hash, policy, eligible, w, o)
  }

  ghost predicate FirstAnswer(c: Content, version: nat, canonical: string, data: H.HealthData, hash: H.Hash, policy: Policy,
                              eligible: set<Binding>, w: Binding, o: Outcome) {
    && First(w, eligible, PreferenceFor(policy, canonical), data)
    && w.providerId in c.providers && o == Bound(ContractFor(c, version, canonical, w, hash))
  }

  lemma OneBindingPerProvider(c: Content, canonical: string, a: Binding, b: Binding)
    requires RegistryOk(c) && a in BindingsFor(c, canonical) && b in BindingsFor(c, canonical) && a.providerId == b.providerId
    ensures a == b
  {
  }

  lemma FirstIsUnique(c: Content, canonical: string, eligible: set<Binding>, preference: seq<string>, data: H.HealthData, a: Binding, b: Binding)
    requires RegistryOk(c) && eligible <= BindingsFor(c, canonical)
    requires First(a, eligible, preference, data) && First(b, eligible, preference, data)
    ensures a == b
  {
    StrOrder();
    OneBindingPerProvider(c, canonical, a, b);
  }

  lemma EligibleIgnoresLoads(c: Content, canonical: string, policy: Policy, a: Loads, b: Loads, data: H.HealthData)
    ensures EligibleFor(c, canonical, policy, a, data) == EligibleFor(c, canonical, policy, b, data)
    ensures ReasonsFor(c, canonical, policy, a, data) == ReasonsFor(c, canonical, policy, b, data)
  {
    forall id ensures Eligible(RungFor(c, id, policy, a, data)) == Eligible(RungFor(c, id, policy, b, data))
      && (!Eligible(RungFor(c, id, policy, a, data)) ==> RungFor(c, id, policy, a, data) == RungFor(c, id, policy, b, data))
    {
      LoadStateOnlyNamesTheRung(c, id, policy, a, b, data);
    }
  }

  /** The answer is a function of the registry content, the snapshot and the policy: two
      answers to the same question are equal, whatever was loaded when each was given
      and in whatever order candidates came. */
  lemma AnswerIsDetermined(c: Content, version: nat, id: string, data: H.HealthData, hash: H.Hash, policy: Policy,
                           a: Loads, b: Loads, o: Outcome, p: Outcome)
    requires RegistryOk(c)
    requires Answers(c, version, id, data, hash, policy, a, o) && Answers(c, version, id, data, hash, policy, b, p)
    ensures o == p
  {
    var canonical := Resolve(c, id);
    if canonical.Some? {
      EligibleIgnoresLoads(c, canonical.value, policy, a, b, data);
      var eligible := EligibleFor(c, canonical.value, policy, a, data);
      if eligible != {} {
        var v :| FirstAnswer(c, version, canonical.value, data, hash, policy, eligible, v, o);
        var w :| FirstAnswer(c, version, canonical.value, data, hash, policy, eligible, w, p);
        FirstIsUnique(c, canonical.value, eligible, PreferenceFor(policy, canonical.value), data, v, w);
      }
    }
  }

  /** Asking for the canonical id gives the same contract as asking for an alias of it. */
  lemma CanonicalAnswers(c: Content, version: nat, id: string, data: H.HealthData, hash: H.Hash, policy: Policy, loads: Loads, k: Contract)
    requires RegistryOk(c) && Answers(c, version, id, data, hash, policy, loads, Bound(k))
    ensures Answers(c, version, k.capabilityId, data, hash, policy, loads, Bound(k))
    ensures k.registryVersion == version && k.healthHash == hash
  {
    var canonical := Resolve(c, id).value;
    var eligible := EligibleFor(c, canonical, policy, loads, data);
    var w :| FirstAnswer(c, version, canonical, data, hash, policy, eligible, w, Bound(k));
    ResolveStable(c, c, id);
    assert Resolve(c, canonical) == Some(canonical);
    assert FirstAnswer(c, version, canonical, data, hash, policy, eligible, w, Bound(k));
  }

  /** resolve, over candidates in any order. */
  method ResolveBinding(c: Content, version: nat, id: string, data: H.HealthData, hash: H.Hash, policy: Policy, loads: Loads,
                        candidates: seq<Binding>) returns (o: Outcome)
    requires RegistryOk(c) && Elements(candidates) == BindingsFor(c, id)
    ensures Answers(c, version, id, data, hash, policy, loads, o)
  {
    var resolved := Resolve(c, id);
    if resolved.None? {
      return Failed(id, version, hash, map[], true);
    }
    var canonical := resolved.value;
    ResolveStable(c, c, id);
    assert Resolve(c, canonical) == Some(canonical);
    assert BindingsFor(c, canonical) == BindingsFor(c, id);
    var eligible, reasons := Sift(c, candidates, policy, loads, data);
    assert Elements(eligible) == EligibleFor(c, canonical, policy, loads, data);
    if eligible == [] {
      return Failed(canonical, version, hash, reasons, false);
    }
    assert eligible[0] in Elements(eligible);
    var winner := BestOf(eligible, PreferenceFor(policy, canonical), data);
    o := Bound(ContractFor(c, version, canonical, winner, hash));
    assert FirstAnswer(c, version, canonical, data, hash, policy, Elements(eligible), winner, o);
  }

  lemma OneMoreCandidate(c: Content, before: set<Binding>, b: Binding, policy: Policy, loads: Loads, data: H.HealthData)
    ensures var rung := RungFor(c, b.providerId, policy, loads, data);
            && EligibleAmong(c, before + {b}, policy, loads, data)
               == EligibleAmong(c, before, policy, loads, data) + (if Eligible(rung) then {b} else {})
            && Reasons(c, ProviderIds(before + {b}), policy, loads, data)
               == if Eligible(rung) then Reasons(c, ProviderIds(before), policy, loads, data)
                  else Reasons(c, ProviderIds(before), policy, loads, data)[b.providerId := rung]
  {
    assert ProviderIds(before + {b}) == ProviderIds(before) + {b.providerId};
  }

  /** Stage three: keep the eligible, record why the others are not. */
  method Sift(c: Content, candidates: seq<Binding>, policy: Policy, loads: Loads, data: H.HealthData)
    returns (eligible: seq<Binding>, reasons: map<string, Rung>)
    ensures Elements(eligible) == EligibleAmong(c, Elements(candidates), policy, loads, data)
    ensures reasons == Reasons(c, ProviderIds(Elements(candidates)), policy, loads, data)
  {
    eligible, reasons := [], map[];
    for i := 0 to |candidates|
      invariant Elements(eligible) == EligibleAmong(c, Elements(candidates[..i]), policy, loads, data)
      invariant reasons == Reasons(c, ProviderIds(Elements(candidates[..i])), policy, loads, data)
    {
      OneMoreCandidate(c, Elements(candidates[..i]), candidates[i], policy, loads, data);
      OneMoreElement(candidates, i);
      var rung := RungFor(c, candidates[i].providerId, policy, loads, data);
      if Eligible(rung) {
        ElementsAppend(eligible, candidates[i]);
        eligible := eligible + [candidates[i]];
      } else {
        reasons := reasons[candidates[i].providerId := rung];
      }
    }
    assert candidates[..|candidates|] == candidates;
  }

  lemma ElementsAppend<T>(s: seq<T>, x: T)
    ensures Elements(s + [x]) == Elements(s) + {x}
  {
  }

  lemma OneMoreElement<T>(s: seq<T>, i: nat)
    requires i < |s|
    ensures Elements(s[..i + 1]) == Elements(s[..i]) + {s[i]}
  {
    assert s[..i + 1] == s[..i] + [s[i]];
  }

  /** Sort and take the first. */
  method BestOf(eligible: seq<Binding>, preference: seq<string>, data: H.HealthData) returns (w: Binding)
    requires eligible != []
    ensures First(w, Elements(eligible), preference, data)
  {
    var le := (a, b) => Before(preference, data, a, b);
    BeforePreorder(preference, data);
    SortCorrect(eligible, le);
    var sorted := Sort(eligible, le);
    w := sorted[0];
    assert forall b :: b in eligible <==> b in multiset(sorted);
    forall b | b in eligible ensures Before(preference, data, w, b) {
      assert b in multiset(sorted);
      var i :| 0 <= i < |sorted| && sorted[i] == b;
      if i == 0 {
        StrTotal(b.providerId, b.providerId);
      } else {
        assert le(sorted[0], sorted[i]);
      }
    }
    assert w in multiset(sorted);
  }
}
