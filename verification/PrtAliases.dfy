/** Which capabilities can ever be retired. Retiring one asks that no alias leads to it, and
    no mutation takes an alias away. */
module PrtAliases {
  import opened PrtMeaning
  import opened PrtRules
  import opened Wrappers

  /** Not retired, and known by another name. */
  predicate Aliased(c: Content, id: string) {
    id in c.capabilities && c.capabilities[id].lifecycle != Retired && c.capabilities[id].aliases != []
  }

  lemma AliasedStays(c: Content, m: Mutation, id: string)
    requires RegistryOk(c) && Single(m) && Admit(c, m).Ok? && Aliased(c, id)
    ensures Aliased(Admit(c, m).value, id)
  {
    SingleKeeps(c, m);
    assert Declares(c, c.capabilities[id].aliases[0], id);
    assert id in c.aliases.Values;
  }

  lemma {:induction false} AliasedStaysThrough(c: Content, ms: seq<Mutation>, id: string)
    requires RegistryOk(c) && ApplyAll(c, ms).Ok? && (forall m :: m in ms ==> Single(m)) && Aliased(c, id)
    ensures Aliased(ApplyAll(c, ms).value, id)
    decreases |ms|
  {
    if ms != [] {
      SingleKeeps(c, ms[0]);
      AliasedStays(c, ms[0], id);
      AliasedStaysThrough(Admit(c, ms[0]).value, ms[1..], id);
    }
  }

  lemma {:induction false} AliasedForEver(c: Content, ms: seq<Mutation>, id: string)
    requires RegistryOk(c) && Aliased(c, id)
    ensures Aliased(RunFrom(c, ms), id)
    decreases |ms|
  {
    if ms != [] {
      var next := Admit(c, ms[0]);
      if next.Ok? {
        AdmitKeeps(c, ms[0]);
        if ms[0].AdmitBundle? {
          BundleIsItsParts(c, ms[0].bundle);
          PartsAreSingle(ms[0].bundle);
          AliasedStaysThrough(c, Parts(ms[0].bundle), id);
        } else {
          AliasedStays(c, ms[0], id);
        }
        AliasedForEver(next.value, ms[1..], id);
      } else {
        AliasedForEver(c, ms[1..], id);
      }
    }
  }

  /** After this run the capability is retired. */
  predicate Retires(c: Content, ms: seq<Mutation>, id: string) {
    id in RunFrom(c, ms).capabilities && RunFrom(c, ms).capabilities[id].lifecycle == Retired
  }

  /** Some run retires a capability if and only if it is retired already or was declared
      without aliases. */
  lemma RetirableExactly(c: Content, id: string)
    requires RegistryOk(c) && id in c.capabilities
    ensures (exists ms :: Retires(c, ms, id)) <==> c.capabilities[id].lifecycle == Retired || c.capabilities[id].aliases == []
  {
    if c.capabilities[id].lifecycle == Retired {
      assert Retires(c, [], id);
    } else if c.capabilities[id].aliases == [] {
      var m := Transition(CapabilityEntity, id, Some(Retired));
      CapabilityMovedExactly(c, id, Some(Retired));
      assert RunFrom(c, [m]) == RunFrom(Admit(c, m).value, [m][1..]);
      assert Retires(c, [m], id);
    } else {
      forall ms ensures !Retires(c, ms, id) {
        AliasedForEver(c, ms, id);
      }
    }
  }

  /** Three mutations reach a capability that can never be retired: declared with an alias,
      activated, deprecated. */
  lemma AliasedIsNeverRetired(cap: Capability, ms: seq<Mutation>)
    requires cap.id != "" && cap.aliases != [] && cap.expectations != [] && cap.lifecycle == Proposed
    requires ms == [AddCapability(cap), Transition(CapabilityEntity, cap.id, Some(Active)), Transition(CapabilityEntity, cap.id, Some(Deprecated))]
    ensures var c := RunFrom(EMPTY, ms);
            cap.id in c.capabilities && c.capabilities[cap.id].lifecycle == Deprecated && forall more :: !Retires(c, more, cap.id)
  {
    EmptyOk();
    var one := Admit(EMPTY, ms[0]).value;
    var two := Admit(one, ms[1]).value;
    var three := Admit(two, ms[2]).value;
    assert ms[1..][0] == ms[1] && ms[1..][1..] == ms[2..] && ms[2..][0] == ms[2] && ms[2..][1..] == [];
    assert RunFrom(EMPTY, ms) == RunFrom(one, ms[1..]) == RunFrom(two, ms[2..]) == RunFrom(three, []);
    RunKeeps(EMPTY, ms);
    RetirableExactly(three, cap.id);
  }
}
