/** Largest-remainder apportionment over exact quotas: whole units that add up to the
    budget, each within one of its quota. */
module Apportionment {
  import opened Orders

  /** One claimant and its exact share of the budget. */
  datatype Share = Share(name: string, quota: real) {
    function Floor(): int {
      quota.Floor
    }

    function Fraction(): (f: real)
      ensures 0.0 <= f < 1.0
    {
      quota - quota.Floor as real
    }
  }

  /** The order in which leftover units are handed out: largest fraction first, then
      name (and the quota, which never decides between different names). */
  predicate Earlier(a: Share, b: Share) {
    || a.Fraction() > b.Fraction()
    || (a.Fraction() == b.Fraction() && a.name != b.name && StrLe(a.name, b.name))
    || (a.Fraction() == b.Fraction() && a.name == b.name && a.quota <= b.quota)
  }

  lemma EarlierOrder()
    ensures TotalOrder(Earlier)
  {
    StrOrder();
  }

  function QuotaSum(shares: seq<Share>): real {
    if shares == [] then 0.0 else shares[0].quota + QuotaSum(shares[1..])
  }

  function FloorSum(shares: seq<Share>): int {
    if shares == [] then 0 else shares[0].Floor() + FloorSum(shares[1..])
  }

  function FractionSum(shares: seq<Share>): real {
    if shares == [] then 0.0 else shares[0].Fraction() + FractionSum(shares[1..])
  }

  lemma {:induction false} SumsSplit(shares: seq<Share>)
    ensures QuotaSum(shares) == FloorSum(shares) as real + FractionSum(shares)
    ensures 0.0 <= FractionSum(shares) <= |shares| as real
    ensures shares != [] ==> FractionSum(shares) < |shares| as real
  {
    if shares != [] {
      SumsSplit(shares[1..]);
    }
  }

  lemma {:induction false} InsertFractions(x: Share, s: seq<Share>)
    ensures FractionSum(Insert(x, s, Earlier)) == x.Fraction() + FractionSum(s)
  {
    if s == [] || Earlier(x, s[0]) {
      assert ([x] + s)[1..] == s;
    } else {
      InsertFractions(x, s[1..]);
      assert ([s[0]] + Insert(x, s[1..], Earlier))[1..] == Insert(x, s[1..], Earlier);
    }
  }

  lemma {:induction false} SortFractions(s: seq<Share>)
    ensures FractionSum(Sort(s, Earlier)) == FractionSum(s)
  {
    if s != [] {
      SortFractions(s[1..]);
      InsertFractions(s[0], Sort(s[1..], Earlier));
    }
  }

  lemma {:induction false} FractionsOfSplit(s: seq<Share>, n: nat)
    requires n <= |s|
    ensures FractionSum(s) == FractionSum(s[..n]) + FractionSum(s[n..])
  {
    if n > 0 {
      FractionsOfSplit(s[1..], n - 1);
      assert s[..n][1..] == s[1..][..n - 1] && s[n..] == s[1..][n - 1..];
    } else {
      assert s[..0] == [] && s[0..] == s;
    }
  }

  lemma {:induction false} ZeroFractions(s: seq<Share>)
    requires forall x :: x in s ==> x.Fraction() == 0.0
    ensures FractionSum(s) == 0.0
  {
    if s != [] {
      ZeroFractions(s[1..]);
    }
  }

  // -- the apportionment --------------------------------------------------------------

  /** Distinct names, no negative quota, quotas that add up to the whole budget. */
  ghost predicate Exact(shares: seq<Share>, budget: nat) {
    && (forall i, j :: 0 <= i < j < |shares| ==> shares[i].name != shares[j].name)
    && (forall i :: 0 <= i < |shares| ==> shares[i].quota >= 0.0)
    && QuotaSum(shares) == budget as real
  }

  function Leftover(shares: seq<Share>, budget: nat): int {
    budget - FloorSum(shares)
  }

  lemma LeftoverBounds(shares: seq<Share>, budget: nat)
    requires Exact(shares, budget)
    ensures 0 <= Leftover(shares, budget) <= |shares|
    ensures Leftover(shares, budget) as real == FractionSum(shares)
  {
    SumsSplit(shares);
  }

  /** Who receives one of the leftover units. */
  function Winners(shares: seq<Share>, budget: nat): seq<Share> {
    var order := Sort(shares, Earlier);
    var n := Leftover(shares, budget);
    if 0 <= n <= |order| then order[..n] else order
  }

  function Envelope(shares: seq<Share>, budget: nat, s: Share): int {
    s.Floor() + if s in Winners(shares, budget) then 1 else 0
  }

  lemma SortedPair(order: seq<Share>, i: nat, j: nat)
    requires Sorted(order, Earlier) && i < |order| && j < |order|
    ensures i < j ==> Earlier(order[i], order[j])
  {
  }

  lemma WinnersPrecede(shares: seq<Share>, budget: nat, a: Share, b: Share)
    requires Exact(shares, budget)
    requires a in Winners(shares, budget) && b in shares && a != b && !Earlier(a, b)
    ensures b in Winners(shares, budget)
  {
    EarlierOrder();
    SortCorrect(shares, Earlier);
    LeftoverBounds(shares, budget);
    var order := Sort(shares, Earlier);
    var n := Leftover(shares, budget);
    var i :| 0 <= i < n && order[i] == a;
    assert b in multiset(order);
    var j :| 0 <= j < |order| && order[j] == b;
    SortedPair(order, i, j);
    assert order[..n][j] == b;
  }

  /** A claimant whose quota is whole never receives a leftover unit. */
  lemma WholeQuotaLoses(shares: seq<Share>, budget: nat, z: Share)
    requires Exact(shares, budget) && z.Fraction() == 0.0
    ensures z !in Winners(shares, budget)
  {
    EarlierOrder();
    SortCorrect(shares, Earlier);
    LeftoverBounds(shares, budget);
    SortFractions(shares);
    var order := Sort(shares, Earlier);
    var n := Leftover(shares, budget);
    forall i | 0 <= i < n ensures order[i] != z {
      if order[i] == z {
        forall x | x in order[i..] ensures x.Fraction() == 0.0 {
          var j :| 0 <= j < |order[i..]| && order[i..][j] == x;
          assert order[i + j] == x;
          assert j > 0 ==> Earlier(order[i], order[i + j]);
        }
        ZeroFractions(order[i..]);
        FractionsOfSplit(order, i);
        SumsSplit(order[..i]);
      }
    }
  }

  lemma {:induction false} EnvelopeSumPlus(shares: seq<Share>, winners: seq<Share>)
    requires Distinct(shares) && Distinct(winners) && (forall w :: w in winners ==> w in shares)
    ensures EnvelopeSum(shares, winners) == FloorSum(shares) + |winners|
  {
    DistinctMultiset(winners);
    CountWinners(shares, winners);
    assert (set s | s in shares && s in winners) == Elements(winners);
  }

  /** The envelopes of a listing of claimants, added up. */
  function EnvelopeSum(shares: seq<Share>, winners: seq<Share>): int {
    if shares == [] then 0
    else shares[0].Floor() + (if shares[0] in winners then 1 else 0) + EnvelopeSum(shares[1..], winners)
  }

  lemma {:induction false} CountWinners(shares: seq<Share>, winners: seq<Share>)
    requires Distinct(shares)
    ensures EnvelopeSum(shares, winners) == FloorSum(shares) + |set s | s in shares && s in winners|
  {
    if shares == [] {
      assert (set s | s in shares && s in winners) == {};
    } else {
      var rest := shares[1..];
      CountWinners(rest, winners);
      assert shares[0] !in rest;
      var here := if shares[0] in winners then {shares[0]} else {};
      assert (set s | s in shares && s in winners) == here + (set s | s in rest && s in winners);
    }
  }

  /** The envelopes add up to the budget exactly. */
  lemma EnvelopesExhaustBudget(shares: seq<Share>, budget: nat)
    requires Exact(shares, budget)
    ensures EnvelopeSum(shares, Winners(shares, budget)) == budget
  {
    EarlierOrder();
    assert Distinct(shares);
    SortDistinct(shares, Earlier);
    LeftoverBounds(shares, budget);
    var order := Sort(shares, Earlier);
    var winners := Winners(shares, budget);
    forall w | w in winners ensures w in shares {
      assert w in Elements(order);
    }
    EnvelopeSumPlus(shares, winners);
  }

  /** A larger quota never receives less. */
  lemma EnvelopeMonotone(shares: seq<Share>, budget: nat, a: Share, b: Share)
    requires Exact(shares, budget) && a in shares && b in shares && a.quota < b.quota
    ensures Envelope(shares, budget, a) <= Envelope(shares, budget, b)
  {
    if a.Floor() == b.Floor() && a in Winners(shares, budget) {
      assert a.Fraction() < b.Fraction();
      WinnersPrecede(shares, budget, a, b);
    }
  }

  /** The loop that hands the leftover units out, over a dictionary of floors. */
  method HandOut(shares: seq<Share>, budget: nat) returns (floors: map<string, int>)
    requires Exact(shares, budget)
    ensures forall s :: s in shares ==> s.name in floors && floors[s.name] == Envelope(shares, budget, s)
  {
    EarlierOrder();
    assert Distinct(shares);
    SortDistinct(shares, Earlier);
    LeftoverBounds(shares, budget);
    floors := map[];
    for i := 0 to |shares|
      invariant forall j :: 0 <= j < i ==> shares[j].name in floors && floors[shares[j].name] == shares[j].Floor()
    {
      floors := floors[shares[i].name := shares[i].Floor()];
    }
    var remainder := budget - FloorSum(shares);
    var winners := Sort(shares, Earlier)[..remainder];
    for i := 0 to |winners|
      invariant forall s :: s in shares ==>
        s.name in floors && floors[s.name] == s.Floor() + if s in winners[..i] then 1 else 0
    {
      var w := winners[i];
      assert w in Elements(Sort(shares, Earlier));
      assert w !in winners[..i];
      assert winners[..i + 1] == winners[..i] + [w];
      forall s | s in shares && s.name == w.name ensures s == w {
        var j :| 0 <= j < |shares| && shares[j] == s;
        var k :| 0 <= k < |shares| && shares[k] == w;
      }
      floors := floors[w.name := floors[w.name] + 1];
    }
    assert winners[..|winners|] == winners;
  }
}
