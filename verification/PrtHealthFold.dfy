/** Provider health as a fold over evidence: one step, the legality table, recovery, and
    the chain of displayed states. */
module PrtHealthFold {
  import opened Wrappers

  datatype Health = Healthy | Degraded | Unavailable | Quarantined | Recovering | Recovered

  datatype LiveKind = ExecCompleted | ExecFailed | ExecTimeout
  datatype AdminKind = ForceQuarantine | ForceRelease | Disable | Enable

  datatype Evidence =
    | Live(providerId: string, live: LiveKind, detail: string)
    | Admin(providerId: string, act: AdminKind, actor: string, reason: string)
    | Priors(providerId: string, prior: real, priorsVersion: int)

  datatype Thresholds = Thresholds(degrade: int, quarantine: int, recover: int)

  const DEFAULT_THRESHOLDS := Thresholds(1, 3, 2)

  datatype Carry = Carry(state: Health, cf: nat, cs: nat, disabled: bool, reliability: real, priorsVersion: Option<int>)

  const INITIAL := Carry(Healthy, 0, 0, false, 0.5, None)

  /** Who may go from where to where. */
  type Legality = (string, Health, Health) -> bool

  function Effective(c: Carry): Health {
    if c.disabled then Unavailable else c.state
  }

  /** The state live evidence asks for, with the counters already moved. */
  function Proposed(state: Health, cf: nat, cs: nat, kind: LiveKind, t: Thresholds): Health {
    if kind != ExecCompleted then
      if state == Recovering then Quarantined
      else if state == Recovered then (if cf >= t.quarantine then Quarantined else Degraded)
      else if cf >= t.quarantine then Quarantined
      else if cf >= t.degrade && state == Healthy then Degraded
      else state
    else
      if state == Quarantined then Recovering
      else if state == Recovering && cs >= t.recover then Recovered
      else if state == Recovered || state == Degraded then Healthy
      else state
  }

  function Step(c: Carry, e: Evidence, t: Thresholds, legal: Legality, providerId: string): Carry {
    match e
    case Priors(_, prior, version) => c.(reliability := prior, priorsVersion := Some(version))
    case Admin(_, act, _, _) =>
      (match act
       case Disable => c.(disabled := true)
       case Enable => c.(disabled := false)
       case ForceQuarantine => c.(state := Quarantined, cf := 0, cs := 0)
       case ForceRelease => c.(state := Healthy, cf := 0, cs := 0))
    case Live(_, kind, _) =>
      var cf := if kind == ExecCompleted then 0 else c.cf + 1;
      var cs := if kind == ExecCompleted then c.cs + 1 else 0;
      var proposed := Proposed(c.state, cf, cs, kind, t);
      var state := if proposed != c.state && legal(providerId, c.state, proposed) then proposed else c.state;
      c.(state := state, cf := cf, cs := cs)
  }

  /** The from-scratch fold. */
  function Fold(entries: seq<Evidence>, t: Thresholds, legal: Legality, providerId: string): Carry {
    if entries == [] then INITIAL
    else Step(Fold(entries[..|entries| - 1], t, legal, providerId), entries[|entries| - 1], t, legal, providerId)
  }

  // -- legality ---------------------------------------------------------------------------

  const HEALTH_TRANSITIONS: set<(Health, Health)> := {
    (Healthy, Degraded), (Healthy, Quarantined), (Degraded, Quarantined), (Degraded, Healthy), (Quarantined, Recovering),
    (Recovering, Quarantined), (Recovering, Recovered), (Recovered, Quarantined), (Recovered, Degraded), (Recovered, Healthy)
  }

  /** The evidence-derived state is never Unavailable; that is the disabled flag's. */
  lemma {:induction false} NeverUnderlyingUnavailable(entries: seq<Evidence>, t: Thresholds, legal: Legality, providerId: string)
    ensures Fold(entries, t, legal, providerId).state != Unavailable
  {
    if entries != [] {
      NeverUnderlyingUnavailable(entries[..|entries| - 1], t, legal, providerId);
    }
  }

  /** Some evidence under some thresholds asks for this transition. */
  ghost predicate Proposable(from: Health, to: Health) {
    exists cf: nat, cs: nat, kind, t :: from != to && from != Unavailable && Proposed(from, cf, cs, kind, t) == to
  }

  lemma Witnessed(from: Health, to: Health, cf: nat, kind: LiveKind, t: Thresholds)
    requires from != to && from != Unavailable && Proposed(from, cf, 5, kind, t) == to
    ensures Proposable(from, to)
  {
  }

  /** The default table holds exactly the transitions the step can propose. */
  lemma TableIsExact(from: Health, to: Health)
    ensures (from, to) in HEALTH_TRANSITIONS <==> Proposable(from, to)
  {
    if Proposable(from, to) {
      var cf: nat, cs: nat, kind, t :| from != to && from != Unavailable && Proposed(from, cf, cs, kind, t) == to;
    }
    var t := DEFAULT_THRESHOLDS;
    Witnessed(Healthy, Degraded, 1, ExecFailed, t);
    Witnessed(Healthy, Quarantined, 3, ExecFailed, t);
    Witnessed(Degraded, Quarantined, 3, ExecFailed, t);
    Witnessed(Degraded, Healthy, 0, ExecCompleted, t);
    Witnessed(Quarantined, Recovering, 0, ExecCompleted, t);
    Witnessed(Recovering, Quarantined, 1, ExecTimeout, t);
    Witnessed(Recovering, Recovered, 0, ExecCompleted, t);
    Witnessed(Recovered, Quarantined, 3, ExecFailed, t);
    Witnessed(Recovered, Degraded, 1, ExecFailed, t);
    Witnessed(Recovered, Healthy, 0, ExecCompleted, t);
  }

  /** Two legalities that agree wherever the step can propose. */
  ghost predicate Agree(a: Legality, b: Legality) {
    forall who, from, to :: (from, to) in HEALTH_TRANSITIONS ==> a(who, from, to) == b(who, from, to)
  }

  lemma StepAgrees(c: Carry, e: Evidence, t: Thresholds, a: Legality, b: Legality, providerId: string)
    requires Agree(a, b) && c.state != Unavailable
    ensures Step(c, e, t, a, providerId) == Step(c, e, t, b, providerId)
    ensures Step(c, e, t, a, providerId).state != Unavailable
  {
    if e.Live? {
      var cf := if e.live == ExecCompleted then 0 else c.cf + 1;
      var cs := if e.live == ExecCompleted then c.cs + 1 else 0;
      var proposed := Proposed(c.state, cf, cs, e.live, t);
      if proposed != c.state {
        assert (c.state, proposed) in HEALTH_TRANSITIONS;
      }
    }
  }

  /** So a legality outside the table's pairs is of no consequence: overrides granted on
      top of the default table never change any provider's health. */
  lemma {:induction false} FoldAgrees(entries: seq<Evidence>, t: Thresholds, a: Legality, b: Legality, providerId: string)
    requires Agree(a, b)
    ensures Fold(entries, t, a, providerId) == Fold(entries, t, b, providerId)
  {
    if entries != [] {
      FoldAgrees(entries[..|entries| - 1], t, a, b, providerId);
      NeverUnderlyingUnavailable(entries[..|entries| - 1], t, a, providerId);
      StepAgrees(Fold(entries[..|entries| - 1], t, a, providerId), entries[|entries| - 1], t, a, b, providerId);
    }
  }

  // -- healing is guaranteed, and takes no longer than it must ---------------------------------

  /** Nothing the step proposes is refused. */
  ghost predicate Permissive(legal: Legality) {
    forall who, from, to :: (from, to) in HEALTH_TRANSITIONS ==> legal(who, from, to)
  }

  function AfterCompletions(c: Carry, n: nat, t: Thresholds, legal: Legality, providerId: string): Carry {
    if n == 0 then c
    else Step(AfterCompletions(c, n - 1, t, legal, providerId), Live(providerId, ExecCompleted, ""), t, legal, providerId)
  }

  function Max(a: int, b: int): int {
    if a < b then b else a
  }

  /** How many completions certainly heal. */
  function HealingTime(t: Thresholds): nat {
    Max(2, t.recover) + 1
  }

  lemma {:induction false} HealingProgress(c: Carry, n: nat, t: Thresholds, legal: Legality, providerId: string)
    requires Permissive(legal) && c.state != Unavailable && n > 0
    ensures var after := AfterCompletions(c, n, t, legal, providerId);
            && after.cs == c.cs + n && after.cf == 0 && after.state !in {Unavailable, Quarantined, Degraded}
            && (n >= HealingTime(t) ==> after.state == Healthy)
            && (n >= HealingTime(t) - 1 ==> after.state != Recovering)
    decreases n
  {
    if n > 1 {
      HealingProgress(c, n - 1, t, legal, providerId);
    }
    var before := AfterCompletions(c, n - 1, t, legal, providerId);
    var proposed := Proposed(before.state, 0, before.cs + 1, ExecCompleted, t);
    assert proposed != before.state ==> (before.state, proposed) in HEALTH_TRANSITIONS;
  }

  /** From any state, max(2, successes_to_recover) + 1 consecutive completions, or more,
      leave the provider healthy underneath. */
  lemma CompletionsHeal(c: Carry, n: nat, t: Thresholds, legal: Legality, providerId: string)
    requires Permissive(legal) && c.state != Unavailable && n >= HealingTime(t)
    ensures AfterCompletions(c, n, t, legal, providerId).state == Healthy
  {
    HealingProgress(c, n, t, legal, providerId);
  }

  lemma {:induction false} StillRecovering(c: Carry, n: nat, t: Thresholds, legal: Legality, providerId: string)
    requires Permissive(legal) && c.state == Quarantined && c.cs == 0 && 0 < n < HealingTime(t) - 1
    ensures AfterCompletions(c, n, t, legal, providerId).state == Recovering
    ensures AfterCompletions(c, n, t, legal, providerId).cs == n
    decreases n
  {
    assert (Quarantined, Recovering) in HEALTH_TRANSITIONS;
    if n > 1 {
      StillRecovering(c, n - 1, t, legal, providerId);
    }
  }

  /** The bound is the best there is: a freshly quarantined provider needs all of it. */
  lemma HealingTimeIsTight(c: Carry, t: Thresholds, legal: Legality, providerId: string)
    requires Permissive(legal) && c.state == Quarantined && c.cs == 0
    ensures AfterCompletions(c, HealingTime(t) - 1, t, legal, providerId).state != Healthy
  {
    var n := HealingTime(t) - 1;
    StillRecovering(c, n - 1, t, legal, providerId);
  }

  // -- and falling takes exactly as many failures as configured -------------------------------

  predicate AllFailures(kinds: seq<LiveKind>) {
    forall i :: 0 <= i < |kinds| ==> kinds[i] != ExecCompleted
  }

  function AfterLive(c: Carry, kinds: seq<LiveKind>, t: Thresholds, legal: Legality, providerId: string): Carry {
    if kinds == [] then c
    else
      var before := AfterLive(c, kinds[..|kinds| - 1], t, legal, providerId);
      Step(before, Live(providerId, kinds[|kinds| - 1], ""), t, legal, providerId)
  }

  /** A healthy provider's consecutive failures, errors or timeouts alike, degrade it at
      one threshold and quarantine it at the other, neither sooner nor later. */
  lemma {:induction false} FailuresFall(c: Carry, kinds: seq<LiveKind>, t: Thresholds, legal: Legality, providerId: string)
    requires Permissive(legal) && c.state == Healthy && kinds != [] && AllFailures(kinds)
    ensures var after := AfterLive(c, kinds, t, legal, providerId);
            && after.cf == c.cf + |kinds| && after.cs == 0
            && (after.state == Quarantined <==> c.cf + |kinds| >= t.quarantine)
            && (after.state == Degraded <==> t.degrade <= c.cf + |kinds| < t.quarantine)
            && (after.state == Healthy <==> c.cf + |kinds| < t.quarantine && c.cf + |kinds| < t.degrade)
  {
    var n := |kinds| - 1;
    if n > 0 {
      FailuresFall(c, kinds[..n], t, legal, providerId);
    } else {
      assert AfterLive(c, kinds[..n], t, legal, providerId) == c;
    }
    var before := AfterLive(c, kinds[..n], t, legal, providerId);
    var proposed := Proposed(before.state, before.cf + 1, 0, kinds[n], t);
    assert proposed != before.state ==> (before.state, proposed) in HEALTH_TRANSITIONS;
  }

  /** One failure while recovering undoes the recovery, whatever the thresholds. */
  lemma RelapseQuarantines(c: Carry, kind: LiveKind, detail: string, t: Thresholds, legal: Legality, providerId: string)
    requires Permissive(legal) && c.state == Recovering && kind != ExecCompleted
    ensures Step(c, Live(providerId, kind, detail), t, legal, providerId).state == Quarantined
  {
    assert (Recovering, Quarantined) in HEALTH_TRANSITIONS;
  }
}
