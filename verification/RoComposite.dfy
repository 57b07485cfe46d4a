/** Composites: one parent envelope threaded through several governed runs, and the
    aggregation of their final records. */
module RoComposite {
  import opened RoOutcome
  import opened RoInvocation
  import opened RoReplay
  import opened Voting
  import opened Wrappers

  // -- budget allocation ------------------------------------------------------------

  datatype BudgetError = BadCeiling | Exhausted

  /** allocate_budget from a parent: the child's ceiling, or the refusal. */
  function Allocate(ceiling: int, parent: int, already: int): Result<int, BudgetError> {
    if ceiling <= 0 then Err(BadCeiling)
    else if ceiling > parent - already then Err(Exhausted)
    else Ok(ceiling)
  }

  // -- aggregation ---------------------------------------------------------------------

  datatype Rule = FirstConforming | MajorityOfConforming

  predicate Conforming(finals: seq<Sealed>, i: nat)
    requires i < |finals|
  {
    finals[i].kind.Returned?
  }

  /** What a final votes for: its output if it conforms. */
  function Ballot(final: Sealed): Option<Option<Fields>> {
    if final.kind.Returned? then Some(final.output) else None
  }

  function Ballots(finals: seq<Sealed>): (bs: seq<Option<Option<Fields>>>)
    ensures |bs| == |finals|
    ensures forall i :: 0 <= i < |bs| ==> bs[i] == Ballot(finals[i])
  {
    seq(|finals|, i requires 0 <= i < |finals| => Ballot(finals[i]))
  }

  /** _aggregate over the finals. */
  method Aggregate(rule: Rule, finals: seq<Sealed>) returns (winner: Option<nat>)
    ensures winner.None? <==> forall i :: 0 <= i < |finals| ==> !Conforming(finals, i)
    ensures winner.Some? && rule.FirstConforming? ==>
      winner.value < |finals| && Conforming(finals, winner.value)
      && forall j :: 0 <= j < winner.value ==> !Conforming(finals, j)
    ensures winner.Some? && rule.MajorityOfConforming? ==> MajorityWinner(Ballots(finals), winner.value)
  {
    if rule.FirstConforming? {
      for i := 0 to |finals|
        invariant forall j :: 0 <= j < i ==> !Conforming(finals, j)
      {
        if finals[i].kind.Returned? {
          assert Conforming(finals, i);
          return Some(i);
        }
      }
      return None;
    }
    winner := Majority(Ballots(finals));
    assert forall i :: 0 <= i < |finals| ==> (Ballots(finals)[i].Some? <==> Conforming(finals, i));
  }

  // -- running a composite -----------------------------------------------------------------

  datatype Semantics = AllRequired | AnySufficient | Quorum(k: int)

  function ReturnedCount(finals: seq<Sealed>): nat {
    if finals == [] then 0 else ReturnedCount(finals[..|finals| - 1]) + if finals[|finals| - 1].kind.Returned? then 1 else 0
  }

  /** _verdict. */
  predicate Satisfied(semantics: Semantics, finals: seq<Sealed>) {
    match semantics
    case AllRequired => ReturnedCount(finals) == |finals|
    case AnySufficient => ReturnedCount(finals) >= 1
    case Quorum(k) => ReturnedCount(finals) >= k
  }

  /** The positions of the returned finals. */
  function ReturnedAt(finals: seq<Sealed>): set<nat> {
    set i: nat | i < |finals| && Conforming(finals, i)
  }

  lemma ReturnedAtLast(finals: seq<Sealed>)
    requires finals != []
    ensures var n := |finals| - 1;
            && n !in ReturnedAt(finals[..n])
            && ReturnedAt(finals) == ReturnedAt(finals[..n]) + if finals[n].kind.Returned? then {n} else {}
  {
    var n := |finals| - 1;
    assert forall i :: 0 <= i < n ==> (Conforming(finals, i) <==> Conforming(finals[..n], i));
  }

  /** What a quorum is compared with is the number of returned finals. */
  lemma {:induction false} ReturnedCountMeaning(finals: seq<Sealed>)
    ensures ReturnedCount(finals) == |ReturnedAt(finals)|
  {
    if finals != [] {
      ReturnedCountMeaning(finals[..|finals| - 1]);
      ReturnedAtLast(finals);
    }
  }

  /** The numbers below n. */
  function Below(n: nat): (s: set<nat>)
    ensures |s| == n && forall i: nat :: i in s <==> i < n
  {
    if n == 0 then {} else Below(n - 1) + {n - 1}
  }

  lemma FullExactly(n: nat, s: set<nat>)
    requires s <= Below(n)
    ensures |s| == n <==> s == Below(n)
  {
    assert Below(n) == s + (Below(n) - s);
    if |s| == n {
      assert Below(n) - s == {};
    }
  }

  /** So each failure semantics asks of the finals what its name says. */
  lemma SatisfiedMeaning(semantics: Semantics, finals: seq<Sealed>)
    ensures Satisfied(semantics, finals) <==>
            match semantics
            case AllRequired => forall i: nat :: i < |finals| ==> i in ReturnedAt(finals)
            case AnySufficient => exists i: nat :: i in ReturnedAt(finals)
            case Quorum(k) => |ReturnedAt(finals)| >= k
  {
    ReturnedCountMeaning(finals);
    match semantics
    case AllRequired =>
      FullExactly(|finals|, ReturnedAt(finals));
      assert ReturnedAt(finals) == Below(|finals|) <==> forall i: nat :: i in Below(|finals|) ==> i in ReturnedAt(finals);
    case AnySufficient =>
      assert ReturnedAt(finals) != {} <==> exists i: nat :: i in ReturnedAt(finals);
    case Quorum(k) =>
  }

  function Sum(xs: seq<int>): int {
    if xs == [] then 0 else Sum(xs[..|xs| - 1]) + xs[|xs| - 1]
  }

  /** What a constituent prepares once it knows its envelope and the finals it may see. */
  type Preparer = (nat, int, seq<Sealed>) -> Context

  datatype CompositeRefusal = Budget(cause: BudgetError) | Invocation(refusal: Refusal)

  datatype Outcome = Outcome(runs: seq<Run>, finals: seq<Sealed>, satisfied: bool)

  /** What the governor's callers guarantee, for every constituent: its request carries
      the child envelope it was given. */
  ghost predicate Prepares(prepare: Preparer) {
    forall i: nat, ceiling: int, finals: seq<Sealed> :: ceiling > 0 ==>
      WellFormed(prepare(i, ceiling, finals)) && prepare(i, ceiling, finals).Ceiling() <= ceiling
  }

  function Spent(runs: seq<Run>): int {
    if runs == [] then 0 else Spent(runs[..|runs| - 1]) + TotalConsumed(runs[|runs| - 1].records)
  }

  /** The finals a constituent may see: those before it, if the pattern is sequential. */
  function Inputs(finals: seq<Sealed>, i: nat, sequential: bool): seq<Sealed>
    requires i <= |finals|
  {
    if sequential then finals[..i] else []
  }

  /** A constituent's run and its final record. */
  ghost predicate Ran(ctx: Context, run: Run, final: Sealed) {
    RunAttempts(ctx) == Ok(run) && run.records != [] && final == run.records[|run.records| - 1]
  }

  method RunConstituent(ctx: Context) returns (r: Result<(Run, Sealed), Refusal>)
    requires WellFormed(ctx)
    ensures r.Ok? ==> Ran(ctx, r.value.0, r.value.1) && 0 <= TotalConsumed(r.value.0.records) <= ctx.Ceiling()
    ensures r.Err? ==> RunAttempts(ctx) == Err(r.error)
  {
    var run := Govern(ctx);
    if run.Err? {
      return Err(run.error);
    }
    RunSpendsWithinEnvelope(ctx);
    HasFinal(ctx);
    return Ok((run.value, run.value.records[|run.value.records| - 1]));
  }

  /** run_composite with run_attempts as the constituent runner. Whenever it finishes,
      the child ceilings fit in the parent's envelope together, and so does everything
      all attempts of all constituents have consumed. */
  method RunComposite(ceilings: seq<int>, parent: int, semantics: Semantics, sequential: bool, prepare: Preparer)
    returns (r: Result<Outcome, CompositeRefusal>)
    requires Prepares(prepare) && parent >= 0
    ensures r.Ok? ==> Sum(ceilings) <= parent && |r.value.runs| == |r.value.finals| == |ceilings|
    ensures r.Ok? ==> 0 <= Spent(r.value.runs) <= Sum(ceilings)
    ensures r.Ok? ==> r.value.satisfied == Satisfied(semantics, r.value.finals)
    ensures r.Ok? ==> AllRan(ceilings, sequential, prepare, r.value.runs, r.value.finals)
    ensures r.Ok? ==> forall i :: 0 <= i < |ceilings| ==>
      RanAt(ceilings, prepare, r.value.runs[i], r.value.finals[i], if sequential then r.value.finals[..i] else [], i)
    ensures r.Err? && r.error == Budget(Exhausted) ==> Sum(ceilings) > parent || exists i :: 0 <= i < |ceilings| && ceilings[i] <= 0
    ensures r.Err? ==> exists i: nat :: i < |ceilings| && StopsAt(ceilings, parent, i, r.error)
  {
    var already := 0;
    var finals: seq<Sealed>, runs: seq<Run> := [], [];
    for i := 0 to |ceilings|
      invariant |finals| == |runs| == i
      invariant already == Sum(ceilings[..i]) <= parent
      invariant 0 <= Spent(runs) <= already
      invariant AllRan(ceilings, sequential, prepare, runs, finals)
    {
      assert ceilings[..i + 1][..i] == ceilings[..i];
      var child := Allocate(ceilings[i], parent, already);
      if child.Err? {
        assert StopsAt(ceilings, parent, i, Budget(child.error));
        if child.error == Exhausted {
          RestTooLarge(ceilings, i + 1, parent);
        }
        return Err(Budget(child.error));
      }
      already := already + ceilings[i];
      var ctx := prepare(i, ceilings[i], Inputs(finals, i, sequential));
      var ran := RunConstituent(ctx);
      if ran.Err? {
        assert StopsAt(ceilings, parent, i, Invocation(ran.error));
        return Err(Invocation(ran.error));
      }
      OneMoreRan(ceilings, sequential, prepare, runs, finals, ran.value.0, ran.value.1);
      SpentAppend(runs, ran.value.0);
      finals, runs := finals + [ran.value.1], runs + [ran.value.0];
    }
    assert ceilings[..|ceilings|] == ceilings;
    return Ok(Outcome(runs, finals, Satisfied(semantics, finals)));
  }

  /** Why a composite stops at constituent i, those before it having had their envelopes: its
      ceiling is not positive, or more than what is left, or its own run was refused. */
  predicate StopsAt(ceilings: seq<int>, parent: int, i: nat, why: CompositeRefusal)
    requires i < |ceilings|
  {
    var left := parent - Sum(ceilings[..i]);
    left >= 0 && match why
                 case Budget(BadCeiling) => ceilings[i] <= 0
                 case Budget(Exhausted) => ceilings[i] > 0 && ceilings[i] > left
                 case Invocation(_) => 0 < ceilings[i] <= left
  }

  /** Constituent i got its own envelope, saw the inputs its pattern allows, and ran. */
  ghost predicate RanAt(ceilings: seq<int>, prepare: Preparer, run: Run, final: Sealed, inputs: seq<Sealed>, i: nat)
    requires i < |ceilings|
  {
    ceilings[i] > 0 && Ran(prepare(i, ceilings[i], inputs), run, final)
  }

  ghost predicate AllRan(ceilings: seq<int>, sequential: bool, prepare: Preparer, runs: seq<Run>, finals: seq<Sealed>) {
    && |runs| == |finals| <= |ceilings|
    && forall i :: 0 <= i < |runs| ==>
      RanAt(ceilings, prepare, runs[i], finals[i], Inputs(finals, i, sequential), i)
  }

  lemma OneMoreRan(ceilings: seq<int>, sequential: bool, prepare: Preparer, runs: seq<Run>, finals: seq<Sealed>, run: Run, final: Sealed)
    requires AllRan(ceilings, sequential, prepare, runs, finals) && |runs| < |ceilings|
    requires RanAt(ceilings, prepare, run, final, Inputs(finals, |runs|, sequential), |runs|)
    ensures AllRan(ceilings, sequential, prepare, runs + [run], finals + [final])
  {
    var rs, fs := runs + [run], finals + [final];
    forall i | 0 <= i < |rs|
      ensures RanAt(ceilings, prepare, rs[i], fs[i], Inputs(fs, i, sequential), i)
    {
      assert fs[..i] == finals[..i];
      assert Inputs(fs, i, sequential) == Inputs(finals, i, sequential);
      if i < |runs| {
        assert rs[i] == runs[i] && fs[i] == finals[i];
      }
    }
  }

  lemma SpentAppend(runs: seq<Run>, run: Run)
    ensures Spent(runs + [run]) == Spent(runs) + TotalConsumed(run.records)
  {
    assert (runs + [run])[..|runs|] == runs;
  }

  lemma HasFinal(ctx: Context)
    requires WellFormed(ctx) && RunAttempts(ctx).Ok?
    ensures RunAttempts(ctx).value.records != []
  {
    if Initiated(ctx) {
      GovernedRun(ctx);
    }
  }

  lemma {:induction false} RestTooLarge(ceilings: seq<int>, n: nat, parent: int)
    requires n <= |ceilings| && Sum(ceilings[..n]) > parent
    ensures Sum(ceilings) > parent || exists i :: 0 <= i < |ceilings| && ceilings[i] <= 0
    decreases |ceilings| - n
  {
    if n == |ceilings| {
      assert ceilings[..n] == ceilings;
    } else {
      assert ceilings[..n + 1][..n] == ceilings[..n];
      if ceilings[n] > 0 {
        RestTooLarge(ceilings, n + 1, parent);
      }
    }
  }
}
