/** When an override granted to the legality machine can make any difference to a
    provider's health. */
module PrtOverrides {
  import opened PrtHealthFold
  import opened Wrappers

  /** A legality with one more permission. */
  function Granted(legal: Legality, who: string, from: Health, to: Health): Legality {
    (w, f, t) => legal(w, f, t) || (w == who && f == from && t == to)
  }

  /** The step may propose this transition, and it is permitted. */
  predicate Moves(legal: Legality, who: string, a: Health, b: Health) {
    (a, b) in HEALTH_TRANSITIONS && legal(who, a, b)
  }

  predicate Hop(legal: Legality, who: string, p: seq<Health>, i: nat)
    requires i + 1 < |p|
  {
    Moves(legal, who, p[i], p[i + 1])
  }

  /** Permitted moves from a state an operator can put any provider in. */
  ghost predicate Path(legal: Legality, who: string, p: seq<Health>) {
    p != [] && p[0] in {Healthy, Quarantined} && forall i: nat :: i + 1 < |p| ==> Hop(legal, who, p, i)
  }

  ghost predicate Ends(legal: Legality, who: string, p: seq<Health>, s: Health) {
    Path(legal, who, p) && p[|p| - 1] == s
  }

  ghost predicate Reachable(legal: Legality, who: string, s: Health) {
    exists p :: Ends(legal, who, p, s)
  }

  /** These entries fold differently. */
  predicate Differs(entries: seq<Evidence>, t: Thresholds, a: Legality, b: Legality, who: string) {
    Fold(entries, t, a, who) != Fold(entries, t, b, who)
  }

  // -- a difference needs a reachable, proposable, forbidden move ----------------------

  lemma OneMoreHop(legal: Legality, who: string, p: seq<Health>, a: Health, b: Health)
    requires Ends(legal, who, p, a) && Moves(legal, who, a, b)
    ensures Ends(legal, who, p + [b], b)
  {
    var q := p + [b];
    forall i: nat | i + 1 < |q| ensures Hop(legal, who, q, i) {
      if i + 1 < |p| {
        assert Hop(legal, who, p, i);
      }
    }
  }

  lemma StepReaches(legal: Legality, who: string, c: Carry, e: Evidence, t: Thresholds)
    requires Reachable(legal, who, c.state) && c.state != Unavailable
    ensures Reachable(legal, who, Step(c, e, t, legal, who).state)
  {
    var next := Step(c, e, t, legal, who).state;
    if e.Admin? && next != c.state {
      assert Ends(legal, who, [next], next);
    } else if e.Live? && next != c.state {
      assert Moves(legal, who, c.state, next);
      var p :| Ends(legal, who, p, c.state);
      OneMoreHop(legal, who, p, c.state, next);
    }
  }

  lemma {:induction false} FoldReaches(entries: seq<Evidence>, t: Thresholds, legal: Legality, who: string)
    ensures Reachable(legal, who, Fold(entries, t, legal, who).state)
  {
    if entries == [] {
      assert Ends(legal, who, [Healthy], Healthy);
    } else {
      var before := entries[..|entries| - 1];
      FoldReaches(before, t, legal, who);
      NeverUnderlyingUnavailable(before, t, legal, who);
      StepReaches(legal, who, Fold(before, t, legal, who), entries[|entries| - 1], t);
    }
  }

  /** What the override must be for anything to change. */
  ghost predicate Consequential(legal: Legality, who: string, from: Health, to: Health) {
    (from, to) in HEALTH_TRANSITIONS && !legal(who, from, to) && Reachable(legal, who, from)
  }

  lemma {:induction false} NoConsequence(entries: seq<Evidence>, t: Thresholds, legal: Legality, who: string, from: Health, to: Health)
    requires !Consequential(legal, who, from, to)
    ensures !Differs(entries, t, legal, Granted(legal, who, from, to), who)
  {
    if entries != [] {
      var before, e := entries[..|entries| - 1], entries[|entries| - 1];
      NoConsequence(before, t, legal, who, from, to);
      FoldReaches(before, t, legal, who);
      NeverUnderlyingUnavailable(before, t, legal, who);
      SameStep(Fold(before, t, legal, who), e, t, legal, who, from, to);
    }
  }

  lemma ProposalListed(state: Health, cf: nat, cs: nat, kind: LiveKind, t: Thresholds)
    requires state != Unavailable && Proposed(state, cf, cs, kind, t) != state
    ensures (state, Proposed(state, cf, cs, kind, t)) in HEALTH_TRANSITIONS
  {
  }

  lemma SameStep(c: Carry, e: Evidence, t: Thresholds, legal: Legality, who: string, from: Health, to: Health)
    requires c.state != Unavailable && Reachable(legal, who, c.state) && !Consequential(legal, who, from, to)
    ensures Step(c, e, t, legal, who) == Step(c, e, t, Granted(legal, who, from, to), who)
  {
    if e.Live? {
      var cf := if e.live == ExecCompleted then 0 else c.cf + 1;
      var cs := if e.live == ExecCompleted then c.cs + 1 else 0;
      SameAnswer(c.state, cf, cs, e.live, t, legal, who, from, to);
    }
  }

  lemma SameAnswer(state: Health, cf: nat, cs: nat, kind: LiveKind, t: Thresholds, legal: Legality, who: string, from: Health, to: Health)
    requires state != Unavailable && Reachable(legal, who, state) && !Consequential(legal, who, from, to)
    ensures var proposed := Proposed(state, cf, cs, kind, t);
            proposed != state ==> legal(who, state, proposed) == Granted(legal, who, from, to)(who, state, proposed)
  {
    if Proposed(state, cf, cs, kind, t) != state {
      ProposalListed(state, cf, cs, kind, t);
    }
  }

  // -- and such a move makes one ---------------------------------------------------------

  /** The states that permitted moves lead to, one by one. */
  predicate Via(legal: Legality, who: string, s: Health) {
    match s
    case Healthy => true
    case Quarantined => true
    case Recovering => Moves(legal, who, Quarantined, Recovering)
    case Recovered => Moves(legal, who, Quarantined, Recovering) && Moves(legal, who, Recovering, Recovered)
    case Degraded =>
      Moves(legal, who, Healthy, Degraded)
      || (Moves(legal, who, Quarantined, Recovering) && Moves(legal, who, Recovering, Recovered) && Moves(legal, who, Recovered, Degraded))
    case Unavailable => false
  }

  lemma HopVia(legal: Legality, who: string, a: Health, b: Health)
    requires Via(legal, who, a) && Moves(legal, who, a, b)
    ensures Via(legal, who, b)
  {
  }

  lemma {:induction false} PathVia(legal: Legality, who: string, p: seq<Health>)
    requires Path(legal, who, p)
    ensures Via(legal, who, p[|p| - 1])
  {
    if |p| > 1 {
      var q := p[..|p| - 1];
      forall i: nat | i + 1 < |q| ensures Hop(legal, who, q, i) {
        assert Hop(legal, who, p, i);
      }
      PathVia(legal, who, q);
      assert Hop(legal, who, p, |p| - 2);
      HopVia(legal, who, p[|p| - 2], p[|p| - 1]);
    }
  }

  function Succeeded(who: string): Evidence {
    Live(who, ExecCompleted, "")
  }

  function Failure(who: string): Evidence {
    Live(who, ExecFailed, "")
  }

  function Isolated(who: string): Evidence {
    Admin(who, ForceQuarantine, "operator", "incident")
  }

  /** A history that leads to a state; a degraded provider either failed once or relapsed
      after a recovery. */
  function History(s: Health, direct: bool, who: string): seq<Evidence> {
    match s
    case Healthy => []
    case Quarantined => [Isolated(who)]
    case Recovering => [Isolated(who), Succeeded(who)]
    case Recovered => [Isolated(who), Succeeded(who), Succeeded(who)]
    case Degraded => if direct then [Failure(who)] else [Isolated(who), Succeeded(who), Succeeded(who), Failure(who)]
    case Unavailable => []
  }

  lemma FoldOneMore(entries: seq<Evidence>, e: Evidence, t: Thresholds, legal: Legality, who: string)
    ensures Fold(entries + [e], t, legal, who) == Step(Fold(entries, t, legal, who), e, t, legal, who)
  {
    assert (entries + [e])[..|entries|] == entries;
  }

  /** Thresholds of one failure to degrade and one success to recover. */
  function Quick(quarantine: int): Thresholds {
    Thresholds(1, quarantine, 1)
  }

  lemma RecoveryLeads(quarantine: int, legal: Legality, who: string)
    requires Via(legal, who, Recovering)
    ensures var c := Fold(History(Recovering, true, who), Quick(quarantine), legal, who); c.state == Recovering && c.cf == 0
    ensures Via(legal, who, Recovered) ==>
      var c := Fold(History(Recovered, true, who), Quick(quarantine), legal, who); c.state == Recovered && c.cf == 0
  {
    var t := Quick(quarantine);
    var one, two := [Isolated(who)], [Isolated(who), Succeeded(who)];
    assert [] + [Isolated(who)] == one && one + [Succeeded(who)] == two;
    assert two + [Succeeded(who)] == History(Recovered, true, who);
    FoldOneMore([], Isolated(who), t, legal, who);
    FoldOneMore(one, Succeeded(who), t, legal, who);
    FoldOneMore(two, Succeeded(who), t, legal, who);
  }

  lemma DegradedLeads(legal: Legality, who: string, direct: bool)
    requires if direct then Moves(legal, who, Healthy, Degraded)
             else Via(legal, who, Recovered) && Moves(legal, who, Recovered, Degraded)
    ensures var c := Fold(History(Degraded, direct, who), Quick(2), legal, who); c.state == Degraded && c.cf == 1
  {
    if direct {
      assert [] + [Failure(who)] == History(Degraded, true, who);
      FoldOneMore([], Failure(who), Quick(2), legal, who);
    } else {
      RecoveryLeads(2, legal, who);
      assert History(Recovered, true, who) + [Failure(who)] == History(Degraded, false, who);
      FoldOneMore(History(Recovered, true, who), Failure(who), Quick(2), legal, who);
    }
  }

  /** What makes the step propose this transition after that history. */
  function Trigger(from: Health, to: Health, who: string): Evidence {
    if (from, to) in {(Degraded, Healthy), (Quarantined, Recovering), (Recovering, Recovered), (Recovered, Healthy)}
    then Succeeded(who) else Failure(who)
  }

  function TriggerThresholds(from: Health, to: Health): Thresholds {
    Quick(if to == Quarantined && from != Degraded then 1 else 2)
  }

  lemma HistoryLeads(legal: Legality, who: string, from: Health, to: Health, direct: bool)
    requires (from, to) in HEALTH_TRANSITIONS && Via(legal, who, from)
    requires from == Degraded ==>
      if direct then Moves(legal, who, Healthy, Degraded) else Via(legal, who, Recovered) && Moves(legal, who, Recovered, Degraded)
    ensures var c := Fold(History(from, direct, who), TriggerThresholds(from, to), legal, who);
            c.state == from && c.cf == if from == Degraded then 1 else 0
  {
    var t := TriggerThresholds(from, to);
    match from
    case Healthy =>
    case Quarantined =>
      assert [] + [Isolated(who)] == [Isolated(who)];
      FoldOneMore([], Isolated(who), t, legal, who);
    case Recovering => RecoveryLeads(t.quarantine, legal, who);
    case Recovered => RecoveryLeads(t.quarantine, legal, who);
    case Degraded => DegradedLeads(legal, who, direct);
  }

  lemma TriggerProposes(c: Carry, from: Health, to: Health, who: string, legal: Legality)
    requires (from, to) in HEALTH_TRANSITIONS && c.state == from && c.cf == if from == Degraded then 1 else 0
    ensures Step(c, Trigger(from, to, who), TriggerThresholds(from, to), legal, who).state == if legal(who, from, to) then to else from
  {
  }

  lemma Consequence(legal: Legality, who: string, from: Health, to: Health)
    requires Consequential(legal, who, from, to)
    ensures exists entries, t :: Differs(entries, t, legal, Granted(legal, who, from, to), who)
  {
    var p :| Ends(legal, who, p, from);
    PathVia(legal, who, p);
    var after := Granted(legal, who, from, to);
    var direct := Moves(legal, who, Healthy, Degraded);
    HistoryLeads(legal, who, from, to, direct);
    HistoryLeads(after, who, from, to, direct);
    var t, history, e := TriggerThresholds(from, to), History(from, direct, who), Trigger(from, to, who);
    FoldOneMore(history, e, t, legal, who);
    FoldOneMore(history, e, t, after, who);
    TriggerProposes(Fold(history, t, legal, who), from, to, who, legal);
    TriggerProposes(Fold(history, t, after, who), from, to, who, after);
    assert from != to;
    assert Differs(history + [e], t, legal, after, who);
  }

  /** An override changes what some history of a provider folds to, under some
      thresholds, if and only if the step can propose the transition, the legality did
      not permit it, and permitted moves reach its start. */
  lemma OverrideMattersExactly(legal: Legality, who: string, from: Health, to: Health)
    ensures (exists entries, t :: Differs(entries, t, legal, Granted(legal, who, from, to), who))
            <==> Consequential(legal, who, from, to)
  {
    if Consequential(legal, who, from, to) {
      Consequence(legal, who, from, to);
    } else {
      forall entries, t ensures !Differs(entries, t, legal, Granted(legal, who, from, to), who) {
        NoConsequence(entries, t, legal, who, from, to);
      }
    }
  }

  /** And it never changes anything for anyone else. */
  lemma {:induction false} OthersUntouched(entries: seq<Evidence>, t: Thresholds, legal: Legality, who: string, from: Health, to: Health, p: string)
    requires p != who
    ensures Fold(entries, t, legal, p) == Fold(entries, t, Granted(legal, who, from, to), p)
  {
    if entries != [] {
      OthersUntouched(entries[..|entries| - 1], t, legal, who, from, to, p);
    }
  }
}
