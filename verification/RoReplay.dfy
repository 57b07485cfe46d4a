/** The independent checker of a sealed record chain, and the proof that whatever
    the governor produces is what the checker accepts. */
module RoReplay {
  import opened RoOutcome
  import opened RoInvocation
  import opened Wrappers

  // -- what an acceptable chain is -------------------------------------------------

  /** Record i counts from 1, bears the hashes of the first record, and cites the
      hashes of all records before it. */
  predicate Link(records: seq<Sealed>, i: nat, h: Hasher)
    requires i < |records|
  {
    && records[i].attemptIndex == i + 1
    && records[i].requestHash == records[0].requestHash
    && records[i].resolutionHash == records[0].resolutionHash
    && records[i].historyRefs == Hashes(h, records[..i])
  }

  ghost predicate Chained(records: seq<Sealed>, h: Hasher) {
    forall i :: 0 <= i < |records| ==> Link(records, i, h)
  }

  /** At record i nothing is negative, and spent-so-far plus remaining is the ceiling. */
  predicate AddsUp(records: seq<Sealed>, i: nat, ceiling: int)
    requires i < |records|
  {
    && 0 <= records[i].consumed && 0 <= records[i].remaining
    && TotalConsumed(records[..i + 1]) + records[i].remaining == ceiling
  }

  ghost predicate Balanced(records: seq<Sealed>, ceiling: int) {
    forall i :: 0 <= i < |records| ==> AddsUp(records, i, ceiling)
  }

  predicate WouldRetry(r: Sealed, policy: Policy) {
    || (r.kind.Failed? && r.failureClass.Some? && r.failureClass.value in policy.retryable)
    || (r.kind.Expired? && F7 in policy.retryable)
  }

  /** The run stopped although it should have gone on. */
  predicate Premature(records: seq<Sealed>, policy: Policy)
    requires records != []
  {
    var final := records[|records| - 1];
    WouldRetry(final, policy) && |records| < policy.attemptCeiling && final.remaining > 0
  }

  ghost predicate Acceptable(records: seq<Sealed>, policy: Option<Policy>, h: Hasher) {
    && records != []
    && Chained(records, h)
    && Balanced(records, records[0].consumed + records[0].remaining)
    && (policy.Some? ==> !Premature(records, policy.value))
  }

  // -- the checker as it runs --------------------------------------------------------

  /** replay_attempts: true where it returns, false where it raises. */
  method ReplayAttempts(records: seq<Sealed>, policy: Option<Policy>, h: Hasher) returns (ok: bool)
    ensures ok <==> Acceptable(records, policy, h)
  {
    if records == [] {
      return false;
    }
    var ceiling: Option<int> := None;
    var total := 0;
    ghost var expected := records[0].consumed + records[0].remaining;
    for i := 0 to |records|
      invariant total == TotalConsumed(records[..i])
      invariant ceiling == if i == 0 then None else Some(records[0].consumed + records[0].remaining)
      invariant forall j :: 0 <= j < i ==> Link(records, j, h)
      invariant forall j :: 0 <= j < i ==> AddsUp(records, j, expected)
    {
      var rec := records[i];
      if rec.attemptIndex != i + 1
         || rec.requestHash != records[0].requestHash || rec.resolutionHash != records[0].resolutionHash
         || rec.historyRefs != Hashes(h, records[..i]) {
        assert !Link(records, i, h);
        return false;
      }
      if rec.consumed < 0 || rec.remaining < 0 {
        assert !AddsUp(records, i, expected);
        return false;
      }
      total := total + rec.consumed;
      assert records[..i + 1][..i] == records[..i];
      if ceiling.None? {
        ceiling := Some(total + rec.remaining);
      } else if total + rec.remaining != ceiling.value {
        assert !AddsUp(records, i, expected);
        return false;
      }
    }
    if policy.Some? {
      var final := records[|records| - 1];
      if WouldRetry(final, policy.value) {
        if !(|records| >= policy.value.attemptCeiling || final.remaining <= 0) {
          return false;
        }
      }
    }
    return true;
  }

  // -- what the governor produces ------------------------------------------------------

  /** The records the loop holds when it is about to make attempt `index`. */
  ghost predicate Underway(ctx: Context, run: Run, total: int, index: int) {
    && index == |run.records| + 1 && 1 <= index <= ctx.policy.attemptCeiling
    && Recorded(ctx, run.records)
    && TotalConsumed(run.records) == total && 0 <= total < ctx.Ceiling()
    && (forall i :: 0 <= i < |run.records| ==> run.records[i].kind.Failed? || run.records[i].kind.Expired?)
    && |run.crossings| == |run.records|
    && (forall i :: 0 <= i < |run.crossings| ==> run.crossings[i].attempt == i + 1 && run.crossings[i].remaining > 0)
  }

  /** A chain of records of this request and resolution that adds up to its ceiling. */
  ghost predicate Recorded(ctx: Context, records: seq<Sealed>) {
    && (forall i :: 0 <= i < |records| ==>
          records[i].requestHash == ctx.request.hash && records[i].resolutionHash == ctx.resolution.hash)
    && Chained(records, ctx.h) && Balanced(records, ctx.Ceiling())
  }

  /** A finished run. */
  ghost predicate Finished(ctx: Context, run: Run) {
    var n := |run.records|;
    && 1 <= n <= ctx.policy.attemptCeiling
    && Recorded(ctx, run.records)
    && (forall i :: 0 <= i < n - 1 ==> run.records[i].kind.Failed? || run.records[i].kind.Expired?)
    && !Premature(run.records, ctx.policy)
    && n - 1 <= |run.crossings| <= n
    && (forall i :: 0 <= i < |run.crossings| ==> run.crossings[i].attempt == i + 1 && run.crossings[i].remaining > 0)
  }

  lemma RecordedGrows(ctx: Context, records: seq<Sealed>, rec: Sealed)
    requires Recorded(ctx, records)
    requires rec.requestHash == ctx.request.hash && rec.resolutionHash == ctx.resolution.hash
    requires rec.attemptIndex == |records| + 1 && rec.historyRefs == Hashes(ctx.h, records)
    requires 0 <= rec.consumed && 0 <= rec.remaining
    requires TotalConsumed(records) + rec.consumed + rec.remaining == ctx.Ceiling()
    ensures Recorded(ctx, records + [rec])
  {
    var all := records + [rec];
    TotalAppend(records, rec);
    forall i | 0 <= i < |all| ensures Link(all, i, ctx.h) && AddsUp(all, i, ctx.Ceiling()) {
      if i < |records| {
        assert Link(records, i, ctx.h) && AddsUp(records, i, ctx.Ceiling());
        assert all[..i] == records[..i] && all[..i + 1] == records[..i + 1];
      } else {
        assert all[..i] == records && all[..i + 1] == all;
      }
    }
  }

  /** What one settled attempt adds: legal, non-negative, paid out of the envelope. */
  lemma SettleSpends(ctx: Context, reply: Reply, total: int, index: int, records: seq<Sealed>)
    requires 0 <= total <= ctx.Ceiling() && index >= 1
    requires Settle(ctx, reply, total, index, records).Ok?
    ensures var s := Settle(ctx, reply, total, index, records).value;
            && Build(s.rec) == Some(s.rec)
            && s.total == total + s.rec.consumed && s.rec.remaining == ctx.Ceiling() - s.total
            && total <= s.total <= ctx.Ceiling()
            && s.rec.attemptIndex == index && s.rec.historyRefs == Hashes(ctx.h, records)
            && s.rec.requestHash == ctx.request.hash && s.rec.resolutionHash == ctx.resolution.hash
    ensures var s := Settle(ctx, reply, total, index, records).value;
            if s.retryOn.Some? then
              (s.rec.kind.Failed? || s.rec.kind.Expired?) && s.rec.failureClass == s.retryOn
            else s.rec.kind.Returned? || s.rec.kind.Cancelled? || s.rec.remaining == 0
    ensures Settle(ctx, reply, total, index, records) != Err(SealRefused)
  {
  }

  lemma SettleRefusals(ctx: Context, reply: Reply, total: int, index: int, records: seq<Sealed>)
    ensures Settle(ctx, reply, total, index, records) != Err(SealRefused)
  {
  }

  /** One attempt: the records grow to a finished run, or to the next attempt's start. */
  lemma AttemptAdvances(ctx: Context, run: Run, total: int, index: int, s: Settled)
    requires Underway(ctx, run, total, index)
    requires Settle(ctx, ctx.engine(Crossing(index, ctx.Ceiling() - total)), total, index, run.records) == Ok(s)
    ensures var next := Run(run.records + [s.rec], run.crossings + [Crossing(index, ctx.Ceiling() - total)]);
            && Build(s.rec) == Some(s.rec)
            && Recorded(ctx, next.records) && TotalConsumed(next.records) == s.total <= ctx.Ceiling()
            && (s.retryOn.None? ==> Finished(ctx, next))
            && (s.retryOn.Some? ==>
                  match Dispose(s.retryOn.value, ctx.policy, index, s.total, ctx.Ceiling())
                  case Terminal => Finished(ctx, next)
                  case Retry => Underway(ctx, next, s.total, index + 1)
                  case ExhaustedBudget => s.total == ctx.Ceiling() && index < ctx.policy.attemptCeiling
                                          && (s.rec.kind.Failed? || s.rec.kind.Expired?))
  {
    var crossing := Crossing(index, ctx.Ceiling() - total);
    SettleSpends(ctx, ctx.engine(crossing), total, index, run.records);
    RecordedGrows(ctx, run.records, s.rec);
    TotalAppend(run.records, s.rec);
  }

  lemma ExhaustionFinishes(ctx: Context, run: Run, index: int)
    requires Recorded(ctx, run.records) && TotalConsumed(run.records) == ctx.Ceiling() >= 0
    requires |run.records| == index < ctx.policy.attemptCeiling && index >= 1
    requires forall i :: 0 <= i < |run.records| ==> run.records[i].kind.Failed? || run.records[i].kind.Expired?
    requires |run.crossings| == |run.records|
    requires forall i :: 0 <= i < |run.crossings| ==> run.crossings[i].attempt == i + 1 && run.crossings[i].remaining > 0
    ensures var last := Exhaustion(ctx, run.records, index + 1);
            Build(last) == Some(last) && Finished(ctx, Run(run.records + [last], run.crossings))
  {
    RecordedGrows(ctx, run.records, Exhaustion(ctx, run.records, index + 1));
  }

  /** The loop ends in a finished run or stops at an answer the boundary may not give;
      it never asks for a record whose construction is refused. */
  lemma {:induction false} LoopFinishes(ctx: Context, run: Run, total: int, index: int)
    requires Underway(ctx, run, total, index)
    ensures Loop(ctx, run, total, index).Ok? ==> Finished(ctx, Loop(ctx, run, total, index).value)
    ensures Loop(ctx, run, total, index) != Err(SealRefused)
    decreases ctx.policy.attemptCeiling - index
  {
    var crossing := Crossing(index, ctx.Ceiling() - total);
    var settled := Settle(ctx, ctx.engine(crossing), total, index, run.records);
    if settled.Err? {
      SettleRefusals(ctx, ctx.engine(crossing), total, index, run.records);
    } else {
      var s := settled.value;
      AttemptAdvances(ctx, run, total, index, s);
      var next := Run(run.records + [s.rec], run.crossings + [crossing]);
      if s.retryOn.Some? {
        match Dispose(s.retryOn.value, ctx.policy, index, s.total, ctx.Ceiling())
        case Terminal =>
        case Retry => LoopFinishes(ctx, next, s.total, index + 1);
        case ExhaustedBudget => ExhaustionFinishes(ctx, next, index);
      }
    }
  }

  /** With a passed initiation: at most `attempt_ceiling` records, indices, hash links
      and budget all in order, nothing RETURNED or CANCELLED before the last, no stop
      before the policy allows it, and never a crossing without budget. */
  lemma GovernedRun(ctx: Context)
    requires WellFormed(ctx) && Initiated(ctx)
    ensures RunAttempts(ctx).Ok? ==> Finished(ctx, RunAttempts(ctx).value)
    ensures RunAttempts(ctx) != Err(SealRefused)
  {
    LoopFinishes(ctx, Run([], []), 0, 1);
  }

  lemma InitiationRun(ctx: Context)
    requires WellFormed(ctx) && !Initiated(ctx)
    ensures RunAttempts(ctx) == Ok(Run([InitiationRecord(ctx)], []))
    ensures Acceptable([InitiationRecord(ctx)], Some(ctx.policy), ctx.h) <==>
            !(F6 in ctx.policy.retryable && ctx.policy.attemptCeiling > 1 && ctx.Ceiling() > 0)
  {
    var rec := InitiationRecord(ctx);
    assert [rec][..0] == [] && [rec][..1] == [rec];
    assert Link([rec], 0, ctx.h) && AddsUp([rec], 0, rec.consumed + rec.remaining);
  }

  lemma FinishedIsAcceptable(ctx: Context, run: Run)
    requires Finished(ctx, run)
    ensures Acceptable(run.records, Some(ctx.policy), ctx.h) && Acceptable(run.records, None, ctx.h)
  {
    var r := run.records;
    assert r[..1] == [r[0]] && r[..0] == [] && [r[0]][..0] == [];
    assert AddsUp(r, 0, ctx.Ceiling()) && TotalConsumed(r[..1]) == r[0].consumed;
  }

  /** Generator meets checker, for every engine and every hash: the checker accepts
      what run_attempts returns under the same policy, except in exactly one case --
      a refused initiation (class F6, nothing spent) under a policy that declares F6
      retryable and tolerates more than one attempt. */
  lemma GeneratorMeetsChecker(ctx: Context)
    requires WellFormed(ctx) && RunAttempts(ctx).Ok?
    ensures Acceptable(RunAttempts(ctx).value.records, Some(ctx.policy), ctx.h) <==>
            (Initiated(ctx) || F6 !in ctx.policy.retryable || ctx.policy.attemptCeiling == 1 || ctx.request.budget.None?)
  {
    if Initiated(ctx) {
      GovernedRun(ctx);
      FinishedIsAcceptable(ctx, RunAttempts(ctx).value);
    } else {
      InitiationRun(ctx);
    }
  }

  /** The case does occur: a resolution made for another request, under a policy of two
      attempts that would retry F6. The one record sealed, before any engine is crossed,
      is refused as a premature stop. */
  lemma RefusedInitiationIsRejected(engine: Engine, h: Hasher, budget: int)
    requires budget > 0
    ensures var request := Request("q", map[], Some(budget), set c | c in CATEGORIES, []);
            var ctx := Context(request, Resolution("n", "p", map[], "other"), Policy.Policy(2, {F6}), engine, [], h);
            && WellFormed(ctx) && RunAttempts(ctx).Ok? && RunAttempts(ctx).value.crossings == []
            && !Acceptable(RunAttempts(ctx).value.records, Some(ctx.policy), h)
  {
    var request := Request("q", map[], Some(budget), set c | c in CATEGORIES, []);
    var ctx := Context(request, Resolution("n", "p", map[], "other"), Policy.Policy(2, {F6}), engine, [], h);
    assert "resolution_not_for_request" in InitiationReasons(ctx);
    InitiationRun(ctx);
    GeneratorMeetsChecker(ctx);
  }

  /** No run ever asks for a record that build_sealed_outcome refuses. */
  lemma NeverRefusedBySealing(ctx: Context)
    requires WellFormed(ctx)
    ensures RunAttempts(ctx) != Err(SealRefused)
  {
    if Initiated(ctx) {
      GovernedRun(ctx);
    } else {
      InitiationRun(ctx);
    }
  }

  // -- spending --------------------------------------------------------------------------

  lemma {:induction false} SpentWithin(records: seq<Sealed>, ceiling: int)
    requires records != [] && Balanced(records, ceiling)
    ensures 0 <= TotalConsumed(records) <= ceiling
    ensures TotalConsumed(records) + records[|records| - 1].remaining == ceiling
  {
    assert records[..|records|] == records && AddsUp(records, |records| - 1, ceiling);
    NonNegative(records, ceiling);
  }

  lemma {:induction false} NonNegative(records: seq<Sealed>, ceiling: int)
    requires Balanced(records, ceiling)
    ensures TotalConsumed(records) >= 0
  {
    if records != [] {
      var front := records[..|records| - 1];
      forall i | 0 <= i < |front| ensures AddsUp(front, i, ceiling) {
        assert AddsUp(records, i, ceiling) && front[..i + 1] == records[..i + 1];
      }
      assert AddsUp(records, |front|, ceiling);
      NonNegative(front, ceiling);
    }
  }

  /** Whatever the engine reports, a run spends no more than its envelope. */
  lemma RunSpendsWithinEnvelope(ctx: Context)
    requires WellFormed(ctx) && RunAttempts(ctx).Ok?
    ensures 0 <= TotalConsumed(RunAttempts(ctx).value.records) <= ctx.Ceiling()
  {
    var records := RunAttempts(ctx).value.records;
    if Initiated(ctx) {
      GovernedRun(ctx);
      SpentWithin(records, ctx.Ceiling());
    } else {
      InitiationRun(ctx);
      assert records[..0] == [];
    }
  }

  // -- the chain is tied to its last record -------------------------------------------------

  /** Under a collision-free hash an accepted chain is determined by its last record:
      changing any earlier record, in any field, is always caught. */
  lemma LastRecordDeterminesChain(a: seq<Sealed>, b: seq<Sealed>, pa: Option<Policy>, pb: Option<Policy>, h: Hasher)
    requires Injective(h)
    requires Acceptable(a, pa, h) && Acceptable(b, pb, h)
    requires a[|a| - 1] == b[|b| - 1]
    ensures a == b
  {
    var n := |a| - 1;
    assert Link(a, n, h) && Link(b, |b| - 1, h);
    assert |a| == |b|;
    forall i | 0 <= i < n ensures a[i] == b[i] {
      assert Hashes(h, a[..n])[i] == h(a[..n][i]) == h(a[i]);
      assert Hashes(h, b[..n])[i] == h(b[..n][i]) == h(b[i]);
    }
  }
}
