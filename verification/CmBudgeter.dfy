/** The budget fitter: section envelopes by largest remainder, then a greedy pass that
    degrades or drops what does not fit. */
module CmBudgeter {
  import opened Apportionment
  import opened CmTypes
  import opened Orders
  import opened Wrappers

  // -- envelopes ------------------------------------------------------------------

  function TotalWeight(weights: Weights, sections: seq<Section>): real {
    if sections == [] then 0.0 else WeightOf(weights, sections[0]) + TotalWeight(weights, sections[1..])
  }

  /** raw: the exact share of a section. */
  function ShareOf(weights: Weights, total: real, budget: nat, s: Section): Share
    requires total > 0.0
  {
    Share(SectionName(s), Quota(WeightOf(weights, s), total, budget))
  }

  function Quota(weight: real, total: real, budget: nat): real
    requires total > 0.0
  {
    weight / total * budget as real
  }

  function Shares(weights: Weights, total: real, budget: nat, sections: seq<Section>): (shares: seq<Share>)
    requires total > 0.0
    ensures |shares| == |sections|
    ensures forall i :: 0 <= i < |sections| ==> shares[i] == ShareOf(weights, total, budget, sections[i])
  {
    seq(|sections|, i requires 0 <= i < |sections| => ShareOf(weights, total, budget, sections[i]))
  }

  lemma {:induction false} QuotasAddUp(weights: Weights, total: real, budget: nat, sections: seq<Section>)
    requires total > 0.0
    ensures QuotaSum(Shares(weights, total, budget, sections)) == TotalWeight(weights, sections) / total * budget as real
  {
    if sections != [] {
      QuotasAddUp(weights, total, budget, sections[1..]);
      assert Shares(weights, total, budget, sections)[1..] == Shares(weights, total, budget, sections[1..]);
      var w, rest, b := WeightOf(weights, sections[0]), TotalWeight(weights, sections[1..]), budget as real;
      DivideSum(w, rest, total);
      Distribute(w / total, rest / total, b);
    }
  }

  lemma DivideSum(v: real, w: real, total: real)
    requires total > 0.0
    ensures (v + w) / total == v / total + w / total
  {
    var x, y, z := v / total, w / total, (v + w) / total;
    assert x * total == v && y * total == w && z * total == v + w;
    Distribute(x, y, total);
    assert (z - (x + y)) * total == 0.0;
  }

  lemma Distribute(x: real, y: real, b: real)
    ensures (x + y) * b == x * b + y * b
  {
  }

  lemma QuotaNonNegative(w: real, total: real, budget: nat)
    requires w >= 0.0 && total > 0.0
    ensures Quota(w, total, budget) >= 0.0
    ensures w == 0.0 ==> Quota(w, total, budget) == 0.0
  {
    assert w / total >= 0.0;
  }

  lemma QuotaIncreasing(v: real, w: real, total: real, budget: nat)
    requires v < w && total > 0.0 && budget > 0
    ensures Quota(v, total, budget) < Quota(w, total, budget)
  {
    assert v / total < w / total;
  }

  lemma SectionNamesDistinct(i: nat, j: nat)
    requires i < j < |SECTIONS|
    ensures SectionName(SECTIONS[i]) != SectionName(SECTIONS[j])
  {
  }

  lemma SharesExact(weights: Weights, budget: nat)
    requires WeightsValid(weights) && TotalWeight(weights, SECTIONS) > 0.0
    ensures Exact(Shares(weights, TotalWeight(weights, SECTIONS), budget, SECTIONS), budget)
  {
    var total := TotalWeight(weights, SECTIONS);
    var shares := Shares(weights, total, budget, SECTIONS);
    QuotasAddUp(weights, total, budget, SECTIONS);
    assert total / total == 1.0;
    forall i, j | 0 <= i < j < |shares| ensures shares[i].name != shares[j].name {
      SectionNamesDistinct(i, j);
    }
    forall i | 0 <= i < |shares| ensures shares[i].quota >= 0.0 {
      QuotaNonNegative(WeightOf(weights, SECTIONS[i]), total, budget);
    }
  }

  /** The envelope of a section: its apportioned share, or nothing when there is no
      weight or no budget to split. */
  function SectionEnvelope(weights: Weights, budget: nat, s: Section): int {
    var total := TotalWeight(weights, SECTIONS);
    if total <= 0.0 || budget == 0 then 0
    else Envelope(Shares(weights, total, budget, SECTIONS), budget, ShareOf(weights, total, budget, s))
  }

  ghost predicate EnvelopesOf(e: Accounts, weights: Weights, budget: nat) {
    Complete(e) && forall s :: s in e ==> Known(s) && e[s] == SectionEnvelope(weights, budget, s)
  }

  /** section_envelopes; None where it raises. */
  method SectionEnvelopes(weights: Weights, budget: int) returns (r: Option<Accounts>)
    requires WeightsValid(weights)
    ensures r.None? <==> budget < 0
    ensures r.Some? ==> EnvelopesOf(r.value, weights, budget)
  {
    if budget < 0 {
      return None;
    }
    var total := TotalWeight(weights, SECTIONS);
    if total <= 0.0 || budget == 0 {
      return Some(map[Symbols := 0, Files := 0, DependencyGraph := 0, Knowledge := 0, Experience := 0]);
    }
    var shares := Shares(weights, total, budget, SECTIONS);
    SharesExact(weights, budget);
    var floors := HandOut(shares, budget);
    var e: Accounts := map[];
    for i := 0 to |SECTIONS|
      invariant forall s :: s in e <==> s in SECTIONS[..i]
      invariant forall s :: s in e ==> e[s] == SectionEnvelope(weights, budget, s)
    {
      ShareListed(weights, total, budget, SECTIONS[i]);
      e := e[SECTIONS[i] := floors[SectionName(SECTIONS[i])]];
    }
    assert SECTIONS[..|SECTIONS|] == SECTIONS;
    forall s: Section ensures s in SECTIONS <==> Known(s) {
      KnownListed(s);
    }
    return Some(e);
  }

  function EnvelopeTotal(weights: Weights, budget: nat, sections: seq<Section>): int {
    if sections == [] then 0
    else SectionEnvelope(weights, budget, sections[0]) + EnvelopeTotal(weights, budget, sections[1..])
  }

  lemma {:induction false} EnvelopeTotalIsSum(weights: Weights, total: real, budget: nat, sections: seq<Section>, all: seq<Share>)
    requires total == TotalWeight(weights, SECTIONS) > 0.0 && budget > 0
    requires all == Shares(weights, total, budget, SECTIONS)
    ensures EnvelopeTotal(weights, budget, sections)
            == EnvelopeSum(Shares(weights, total, budget, sections), Winners(all, budget))
  {
    if sections != [] {
      EnvelopeTotalIsSum(weights, total, budget, sections[1..], all);
      assert Shares(weights, total, budget, sections)[1..] == Shares(weights, total, budget, sections[1..]);
    }
  }

  /** With positive total weight the envelopes add up to the budget exactly; without,
      they are all zero. */
  lemma EnvelopesAddUp(weights: Weights, budget: nat)
    requires WeightsValid(weights)
    ensures EnvelopeTotal(weights, budget, SECTIONS) == if TotalWeight(weights, SECTIONS) > 0.0 then budget else 0
  {
    var total := TotalWeight(weights, SECTIONS);
    if total > 0.0 && budget > 0 {
      var all := Shares(weights, total, budget, SECTIONS);
      EnvelopeTotalIsSum(weights, total, budget, SECTIONS, all);
      SharesExact(weights, budget);
      EnvelopesExhaustBudget(all, budget);
    } else {
      ZeroTotal(weights, budget, SECTIONS);
    }
  }

  /** The same, for the dictionary the method returns. */
  lemma EnvelopeAccountsAddUp(e: Accounts, weights: Weights, budget: nat)
    requires WeightsValid(weights) && EnvelopesOf(e, weights, budget)
    ensures Total(e) == if TotalWeight(weights, SECTIONS) > 0.0 then budget else 0
  {
    EnvelopesAddUp(weights, budget);
    EnvelopeTotalCons(weights, budget, Experience, []);
    EnvelopeTotalCons(weights, budget, Knowledge, [Experience]);
    EnvelopeTotalCons(weights, budget, DependencyGraph, [Knowledge, Experience]);
    EnvelopeTotalCons(weights, budget, Files, [DependencyGraph, Knowledge, Experience]);
    EnvelopeTotalCons(weights, budget, Symbols, [Files, DependencyGraph, Knowledge, Experience]);
  }

  lemma EnvelopeTotalCons(weights: Weights, budget: nat, s: Section, rest: seq<Section>)
    ensures EnvelopeTotal(weights, budget, [s] + rest) == SectionEnvelope(weights, budget, s) + EnvelopeTotal(weights, budget, rest)
  {
    assert ([s] + rest)[1..] == rest;
  }

  lemma {:induction false} ZeroTotal(weights: Weights, budget: nat, sections: seq<Section>)
    requires TotalWeight(weights, SECTIONS) <= 0.0 || budget == 0
    ensures EnvelopeTotal(weights, budget, sections) == 0
  {
    if sections != [] {
      ZeroTotal(weights, budget, sections[1..]);
    }
  }

  /** Each envelope is its quota's floor or one more, and a weightless section gets none. */
  lemma EnvelopeNearQuota(weights: Weights, budget: nat, s: Section)
    requires WeightsValid(weights) && TotalWeight(weights, SECTIONS) > 0.0 && budget > 0
    ensures var floor := ShareOf(weights, TotalWeight(weights, SECTIONS), budget, s).Floor();
            0 <= floor <= SectionEnvelope(weights, budget, s) <= floor + 1
    ensures WeightOf(weights, s) == 0.0 ==> SectionEnvelope(weights, budget, s) == 0
  {
    var total := TotalWeight(weights, SECTIONS);
    QuotaNonNegative(WeightOf(weights, s), total, budget);
    if WeightOf(weights, s) == 0.0 {
      SharesExact(weights, budget);
      WholeQuotaLoses(Shares(weights, total, budget, SECTIONS), budget, ShareOf(weights, total, budget, s));
    }
  }

  lemma ShareListed(weights: Weights, total: real, budget: nat, s: Section)
    requires total > 0.0 && s in SECTIONS
    ensures ShareOf(weights, total, budget, s) in Shares(weights, total, budget, SECTIONS)
  {
    var i :| 0 <= i < |SECTIONS| && SECTIONS[i] == s;
    assert Shares(weights, total, budget, SECTIONS)[i] == ShareOf(weights, total, budget, s);
  }

  lemma MonotoneShares(weights: Weights, total: real, budget: nat, shares: seq<Share>, a: Section, b: Section)
    requires total > 0.0 && budget > 0 && WeightOf(weights, a) < WeightOf(weights, b)
    requires Exact(shares, budget)
    requires ShareOf(weights, total, budget, a) in shares && ShareOf(weights, total, budget, b) in shares
    ensures Envelope(shares, budget, ShareOf(weights, total, budget, a)) <= Envelope(shares, budget, ShareOf(weights, total, budget, b))
  {
    QuotaIncreasing(WeightOf(weights, a), WeightOf(weights, b), total, budget);
    EnvelopeMonotone(shares, budget, ShareOf(weights, total, budget, a), ShareOf(weights, total, budget, b));
  }

  /** A heavier section never gets less. */
  lemma EnvelopeMonotoneInWeight(weights: Weights, budget: nat, a: Section, b: Section)
    requires WeightsValid(weights) && a in SECTIONS && b in SECTIONS
    requires WeightOf(weights, a) < WeightOf(weights, b)
    ensures SectionEnvelope(weights, budget, a) <= SectionEnvelope(weights, budget, b)
  {
    var total := TotalWeight(weights, SECTIONS);
    if total > 0.0 && budget > 0 {
      SharesExact(weights, budget);
      ShareListed(weights, total, budget, a);
      ShareListed(weights, total, budget, b);
      MonotoneShares(weights, total, budget, Shares(weights, total, budget, SECTIONS), a, b);
    }
  }

  lemma EnvelopeNonNegative(weights: Weights, budget: nat, s: Section)
    requires WeightsValid(weights)
    ensures SectionEnvelope(weights, budget, s) >= 0
  {
    if TotalWeight(weights, SECTIONS) > 0.0 && budget > 0 {
      EnvelopeNearQuota(weights, budget, s);
    }
  }
}
