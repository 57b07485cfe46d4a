/** Majority voting with a stable tie-break, over ballots of any kind. None abstains. */
module Voting {
  import opened Wrappers

  /** Where a choice was voted for among the first n ballots, in order. */
  function Positions<K(==)>(ballots: seq<Option<K>>, n: nat, choice: K): (ps: seq<nat>)
    requires n <= |ballots|
    ensures forall k :: 0 <= k < |ps| ==> ps[k] < n
  {
    if n == 0 then []
    else Positions(ballots, n - 1, choice) + if ballots[n - 1] == Some(choice) then [n - 1] else []
  }

  function Votes<K(==)>(ballots: seq<Option<K>>, choice: K): nat {
    multiset(ballots)[Some(choice)]
  }

  /** Ballot i is the first for its choice. */
  ghost predicate FirstFor<K>(ballots: seq<Option<K>>, i: nat) {
    i < |ballots| && ballots[i].Some? && forall j :: 0 <= j < i ==> ballots[j] != ballots[i]
  }

  /** The winner of a majority: the first ballot of a choice that no choice outvotes,
      and that no equally popular choice precedes. */
  ghost predicate MajorityWinner<K>(ballots: seq<Option<K>>, i: nat) {
    && FirstFor(ballots, i)
    && (forall j :: 0 <= j < |ballots| && ballots[j].Some? ==>
          Votes(ballots, ballots[j].value) <= Votes(ballots, ballots[i].value))
    && (forall j :: 0 <= j < i && ballots[j].Some? ==>
          Votes(ballots, ballots[j].value) < Votes(ballots, ballots[i].value))
  }

  /** There is at most one winner, so no order of iteration over the choices can matter. */
  lemma MajorityWinnerUnique<K>(ballots: seq<Option<K>>, i: nat, j: nat)
    requires MajorityWinner(ballots, i) && MajorityWinner(ballots, j)
    ensures i == j
  {
    assert ballots[i].Some? && ballots[j].Some?;
  }

  /** Everyone among the first n ballots who voted as ballot i did. */
  function Supporters<K(==)>(ballots: seq<Option<K>>, n: nat, choice: K): set<nat>
    requires n <= |ballots|
  {
    set j: nat | j < n && ballots[j] == Some(choice)
  }

  lemma {:induction false} VotesAreSupporters<K>(ballots: seq<Option<K>>, n: nat, choice: K)
    requires n <= |ballots|
    ensures Votes(ballots[..n], choice) == |Supporters(ballots, n, choice)|
  {
    if n > 0 {
      VotesAreSupporters(ballots, n - 1, choice);
      VotesStep(ballots, n - 1, choice);
      assert Supporters(ballots, n, choice)
        == Supporters(ballots, n - 1, choice) + if ballots[n - 1] == Some(choice) then {n - 1} else {};
    }
  }

  /** A ballot wins if and only if it is cast, no choice has more supporters, and every
      ballot before it was cast for a choice with fewer, if for any. */
  lemma WinnerExactly<K>(ballots: seq<Option<K>>, i: nat)
    ensures MajorityWinner(ballots, i) <==>
            && i < |ballots| && ballots[i].Some?
            && (forall j :: 0 <= j < |ballots| && ballots[j].Some? ==>
                  |Supporters(ballots, |ballots|, ballots[j].value)| <= |Supporters(ballots, |ballots|, ballots[i].value)|)
            && (forall j :: 0 <= j < i && ballots[j].Some? ==>
                  |Supporters(ballots, |ballots|, ballots[j].value)| < |Supporters(ballots, |ballots|, ballots[i].value)|)
  {
    assert ballots[..|ballots|] == ballots;
    forall j | 0 <= j < |ballots| && ballots[j].Some?
      ensures Votes(ballots, ballots[j].value) == |Supporters(ballots, |ballots|, ballots[j].value)|
    {
      VotesAreSupporters(ballots, |ballots|, ballots[j].value);
    }
  }

  /** Positions tells how often a choice was voted for, and where first. */
  ghost predicate Tells<K>(ps: seq<nat>, ballots: seq<Option<K>>, n: nat, choice: K)
    requires n <= |ballots|
  {
    && |ps| == Votes(ballots[..n], choice)
    && (ps != [] ==> FirstFor(ballots, ps[0]) && ballots[ps[0]] == Some(choice))
    && (forall i :: 0 <= i < n && ballots[i] == Some(choice) ==> ps != [] && ps[0] <= i)
  }

  lemma VotesStep<K>(ballots: seq<Option<K>>, n: nat, choice: K)
    requires n < |ballots|
    ensures Votes(ballots[..n + 1], choice) == Votes(ballots[..n], choice) + if ballots[n] == Some(choice) then 1 else 0
  {
    assert ballots[..n + 1] == ballots[..n] + [ballots[n]];
  }

  lemma TellsMore<K>(ps: seq<nat>, ballots: seq<Option<K>>, n: nat, choice: K)
    requires n < |ballots| && Tells(ps, ballots, n, choice)
    ensures Tells(ps + if ballots[n] == Some(choice) then [n] else [], ballots, n + 1, choice)
  {
    VotesStep(ballots, n, choice);
  }

  lemma {:induction false} PositionsMeaning<K>(ballots: seq<Option<K>>, n: nat, choice: K)
    requires n <= |ballots|
    ensures Tells(Positions(ballots, n, choice), ballots, n, choice)
  {
    if n > 0 {
      PositionsMeaning(ballots, n - 1, choice);
      TellsMore(Positions(ballots, n - 1, choice), ballots, n - 1, choice);
    } else {
      assert ballots[..0] == [];
    }
  }

  ghost predicate GroupsOf<K(!new)>(groups: map<K, seq<nat>>, ballots: seq<Option<K>>, n: nat)
    requires n <= |ballots|
  {
    && (forall o :: o in groups <==> Positions(ballots, n, o) != [])
    && (forall o :: o in groups ==> groups[o] == Positions(ballots, n, o))
  }

  /** The groups after ballot i. */
  function Placed<K>(groups: map<K, seq<nat>>, ballot: Option<K>, i: nat): map<K, seq<nat>> {
    if ballot.None? then groups
    else groups[ballot.value := (if ballot.value in groups then groups[ballot.value] else []) + [i]]
  }

  lemma GroupsMore<K(!new)>(groups: map<K, seq<nat>>, ballots: seq<Option<K>>, i: nat)
    requires i < |ballots| && GroupsOf(groups, ballots, i)
    ensures GroupsOf(Placed(groups, ballots[i], i), ballots, i + 1)
  {
    var next := Placed(groups, ballots[i], i);
    forall o ensures (o in next <==> Positions(ballots, i + 1, o) != []) && (o in next ==> next[o] == Positions(ballots, i + 1, o)) {
      assert Positions(ballots, i + 1, o) == Positions(ballots, i, o) + if ballots[i] == Some(o) then [i] else [];
      assert o in groups <==> Positions(ballots, i, o) != [];
    }
  }

  method Group<K(==,!new)>(ballots: seq<Option<K>>) returns (groups: map<K, seq<nat>>)
    ensures GroupsOf(groups, ballots, |ballots|)
  {
    groups := map[];
    for i := 0 to |ballots|
      invariant GroupsOf(groups, ballots, i)
    {
      GroupsMore(groups, ballots, i);
      groups := Placed(groups, ballots[i], i);
    }
  }

  /** No group seen so far beats the one that starts at w. */
  ghost predicate Leads<K>(groups: map<K, seq<nat>>, seen: set<K>, lead: K)
    requires seen <= groups.Keys && lead in groups
    requires forall o :: o in groups ==> groups[o] != []
  {
    forall o :: o in seen ==>
      |groups[o]| < |groups[lead]| || (|groups[o]| == |groups[lead]| && groups[lead][0] <= groups[o][0])
  }

  /** The vote itself; the groups are visited in any order whatever. */
  method Majority<K(==,!new)>(ballots: seq<Option<K>>) returns (winner: Option<nat>)
    ensures winner.None? <==> forall i :: 0 <= i < |ballots| ==> ballots[i].None?
    ensures winner.Some? ==> MajorityWinner(ballots, winner.value)
  {
    var groups := Group(ballots);
    var best: Option<K> := None;
    var rest := groups.Keys;
    while rest != {}
      invariant rest <= groups.Keys
      invariant best.None? ==> rest == groups.Keys
      invariant best.Some? ==> best.value in groups.Keys - rest && Leads(groups, groups.Keys - rest, best.value)
      decreases rest
    {
      var key :| key in rest;
      if best.None? || |groups[key]| > |groups[best.value]|
         || (|groups[key]| == |groups[best.value]| && groups[key][0] < groups[best.value][0]) {
        best := Some(key);
      }
      rest := rest - {key};
    }
    if best.None? {
      forall i | 0 <= i < |ballots| ensures ballots[i].None? {
        if ballots[i].Some? {
          PositionsMeaning(ballots, |ballots|, ballots[i].value);
        }
      }
      return None;
    }
    LeaderWins(ballots, groups, best.value);
    return Some(groups[best.value][0]);
  }

  lemma LeaderWins<K(!new)>(ballots: seq<Option<K>>, groups: map<K, seq<nat>>, lead: K)
    requires GroupsOf(groups, ballots, |ballots|) && lead in groups && Leads(groups, groups.Keys, lead)
    ensures groups[lead][0] < |ballots| && MajorityWinner(ballots, groups[lead][0])
    ensures ballots[groups[lead][0]].Some?
  {
    assert ballots[..|ballots|] == ballots;
    PositionsMeaning(ballots, |ballots|, lead);
    var w := groups[lead][0];
    forall j | 0 <= j < |ballots| && ballots[j].Some?
      ensures Votes(ballots, ballots[j].value) <= Votes(ballots, ballots[w].value)
      ensures j < w ==> Votes(ballots, ballots[j].value) < Votes(ballots, ballots[w].value)
    {
      PositionsMeaning(ballots, |ballots|, ballots[j].value);
    }
  }
}
