/** What a governed run seals, told by the engine's replies and the request alone: which
    kind and class each reply gets, what it is charged, and when the run tries again. */
module RoSealing {
  import opened RoOutcome
  import opened RoInvocation
  import opened RoReplay
  import opened Wrappers

  /** The output is text that parsed to this object, and every required name is a key of it. */
  predicate Delivers(output: RawOutput, required: seq<string>, fields: Fields) {
    output.Text? && output.parsed == Some(Object(fields)) && forall n :: n in required ==> n in fields
  }

  /** Why it does not: it is not text, it is no object, or some required names, exactly
      these, are no keys of it. */
  ghost predicate Objects(output: RawOutput, required: seq<string>, why: Nonconformance) {
    match output
    case Missing => why == MissingOutput
    case Undecodable => why == UndecodableBytes
    case NotText => why == NotBytesOrText
    case Text(_, None) => why == Unparseable
    case Text(_, Some(NotObject(_))) => why == NotAnObject
    case Text(_, Some(Object(fields))) =>
      why.MissingFields? && why.names != [] && forall n :: n in why.names <==> n in required && n !in fields
  }

  lemma {:induction false} MissingNamesMean(required: seq<string>, fields: Fields)
    ensures forall n :: n in MissingNames(required, fields) <==> n in required && n !in fields
  {
    if required != [] {
      MissingNamesMean(required[1..], fields);
      assert required == [required[0]] + required[1..];
    }
  }

  lemma ConformMeans(output: RawOutput, required: seq<string>)
    ensures match Conform(output, required)
            case Ok(fields) => Delivers(output, required, fields)
            case Err(why) => Objects(output, required, why) && forall fields :: !Delivers(output, required, fields)
  {
    if output.Text? && output.parsed.Some? && output.parsed.value.Object? {
      var fields := output.parsed.value.fields;
      var missing := MissingNames(required, fields);
      MissingNamesMean(required, fields);
      if missing != [] {
        assert missing[0] in missing;
        assert missing[0] in required && missing[0] !in fields;
      }
    }
  }

  /** Answers the boundary may give: what was consumed is a natural number, a failure has a
      class other than F7, a cancellation an origin. */
  predicate Lawful(reply: Reply) {
    && reply.consumed.Some? && reply.consumed.value >= 0
    && (reply.ReplyFailed? ==> reply.failureClass.Some? && reply.failureClass != Some(F7))
    && (reply.ReplyCancelled? ==> reply.origin.Some?)
  }

  /** What breaks the run off. */
  predicate Offends(reply: Reply, refusal: Refusal) {
    if reply.ReplyFailed? && (reply.failureClass == None || reply.failureClass == Some(F7)) then refusal == BadFailureClass
    else if reply.ReplyCancelled? && reply.origin == None then refusal == BadOrigin
    else refusal == BadConsumed && (reply.consumed == None || reply.consumed.value < 0)
  }

  /** Some crossing the run could make, within its attempts and its envelope, was answered so. */
  ghost predicate Offended(ctx: Context, refusal: Refusal) {
    exists crossing: Crossing ::
      1 <= crossing.attempt <= ctx.policy.attemptCeiling && 0 < crossing.remaining <= ctx.Ceiling() && Offends(ctx.engine(crossing), refusal)
  }

  /** It claims more than there was, and is no cancellation. */
  predicate Overdraws(reply: Reply, available: int) {
    reply.consumed.Some? && reply.consumed.value > available && !reply.ReplyCancelled?
  }

  /** What a reply is sealed as when this much of the envelope was left. */
  ghost predicate SealedAs(ctx: Context, reply: Reply, available: int, rec: Sealed) {
    && Lawful(reply)
    && rec.provider == ctx.resolution.provider && rec.coordinates == ctx.request.coordinates
    && rec.consumed == (if reply.consumed.value > available then available else reply.consumed.value)
    && rec.remaining == available - rec.consumed
    && if Overdraws(reply, available) then
         && rec.kind == Failed && rec.failureClass == Some(F3) && rec.output == None && rec.origin == None
         && rec.metadata == BoundaryOverdraft(if reply.ReplyFailed? then reply.failureClass else None)
       else
         && rec.timing == reply.timing
         && match reply
            case ReplyReturned(_, output, _) =>
              && rec.origin == None
              && (rec.kind == Returned || rec.kind == Failed)
              && (rec.kind == Returned <==> exists fields :: Delivers(output, ctx.request.requiredFields, fields))
              && (rec.kind == Returned ==> rec.failureClass == None && rec.output.Some?
                                           && Delivers(output, ctx.request.requiredFields, rec.output.value))
              && (rec.kind == Failed ==> rec.failureClass == Some(F8) && rec.output == None && rec.metadata.Nonconforming?
                                         && rec.metadata.raw == output && Objects(output, ctx.request.requiredFields, rec.metadata.reason))
            case ReplyFailed(cls, _, _, facts) =>
              rec.kind == Failed && rec.failureClass == cls && rec.output == None && rec.origin == None && rec.metadata == EngineFacts(facts)
            case ReplyExpired(_, partial, _) =>
              rec.kind == Expired && rec.failureClass == Some(F7) && rec.output == None && rec.origin == None
              && rec.metadata == PartialOutput(partial, None)
            case ReplyCancelled(origin, _, partial, _) =>
              && rec.kind == Cancelled && rec.failureClass == None && rec.output == None && rec.origin == origin
              && rec.metadata == PartialOutput(partial, if ctx.signals == [] then None else Some(Race(ctx.signals, false)))
  }

  /** The attempt failed in a way the policy tries again, and may. */
  predicate Wanted(ctx: Context, reply: Reply, crossing: Crossing, rec: Sealed) {
    && !Overdraws(reply, crossing.remaining)
    && rec.failureClass.Some? && rec.failureClass.value in ctx.policy.retryable && crossing.attempt < ctx.policy.attemptCeiling
  }

  /** Crossing i and its record. */
  ghost predicate SealedAt(ctx: Context, records: seq<Sealed>, crossings: seq<Crossing>, i: nat)
    requires i < |crossings| <= |records|
  {
    && crossings[i].attempt == i + 1
    && crossings[i].remaining == (if i == 0 then ctx.Ceiling() else records[i - 1].remaining)
    && SealedAs(ctx, ctx.engine(crossings[i]), crossings[i].remaining, records[i])
  }

  ghost predicate AllSealed(ctx: Context, records: seq<Sealed>, crossings: seq<Crossing>) {
    |crossings| <= |records| && forall i: nat :: i < |crossings| ==> SealedAt(ctx, records, crossings, i)
  }

  /** Every crossing but the last was wanted again, with something left to spend. */
  ghost predicate AllWanted(ctx: Context, records: seq<Sealed>, crossings: seq<Crossing>, n: nat) {
    && n <= |crossings| <= |records|
    && forall i: nat :: i < n ==> WantedAt(ctx, records, crossings, i) && records[i].remaining > 0
  }

  predicate WantedAt(ctx: Context, records: seq<Sealed>, crossings: seq<Crossing>, i: nat)
    requires i < |crossings| <= |records|
  {
    Wanted(ctx, ctx.engine(crossings[i]), crossings[i], records[i])
  }

  /** How a run ends: the last attempt is not wanted again; or it is, but nothing is left,
      and one more record of class F3 says so. */
  ghost predicate Ended(ctx: Context, records: seq<Sealed>, crossings: seq<Crossing>)
    requires 0 < |crossings| <= |records|
  {
    var n := |crossings|;
    if WantedAt(ctx, records, crossings, n - 1) then
      && records[n - 1].remaining == 0 && |records| == n + 1
      && records[n].kind == Failed && records[n].failureClass == Some(F3) && records[n].metadata == BudgetExhaustedBeforeRetry
      && records[n].consumed == records[n].remaining == 0
    else |records| == n
  }

  lemma SettleSeals(ctx: Context, reply: Reply, total: int, index: int, records: seq<Sealed>)
    requires total <= ctx.Ceiling()
    ensures Settle(ctx, reply, total, index, records).Ok? <==> Lawful(reply)
    ensures var r := Settle(ctx, reply, total, index, records);
            r.Err? ==> Offends(reply, r.error)
    ensures var r := Settle(ctx, reply, total, index, records);
            r.Ok? ==>
              && SealedAs(ctx, reply, ctx.Ceiling() - total, r.value.rec)
              && r.value.rec.remaining == ctx.Ceiling() - r.value.total
              && (r.value.retryOn.Some? <==> r.value.rec.failureClass.Some? && !Overdraws(reply, ctx.Ceiling() - total))
              && (r.value.retryOn.Some? ==> r.value.retryOn == r.value.rec.failureClass)
  {
    if reply.ReplyReturned? {
      ConformMeans(reply.output, ctx.request.requiredFields);
    }
  }

  lemma SealedGrows(ctx: Context, records: seq<Sealed>, crossings: seq<Crossing>, rec: Sealed, crossing: Crossing)
    requires |crossings| == |records| && AllSealed(ctx, records, crossings)
    requires crossing.attempt == |crossings| + 1
    requires crossing.remaining == if records == [] then ctx.Ceiling() else records[|records| - 1].remaining
    requires SealedAs(ctx, ctx.engine(crossing), crossing.remaining, rec)
    ensures AllSealed(ctx, records + [rec], crossings + [crossing])
  {
    var rs, cs := records + [rec], crossings + [crossing];
    forall i: nat | i < |cs| ensures SealedAt(ctx, rs, cs, i) {
      if i < |crossings| {
        assert SealedAt(ctx, records, crossings, i);
      }
    }
  }

  lemma WantedGrows(ctx: Context, records: seq<Sealed>, crossings: seq<Crossing>, rec: Sealed, crossing: Crossing)
    requires |crossings| == |records| && AllWanted(ctx, records, crossings, |crossings|)
    ensures AllWanted(ctx, records + [rec], crossings + [crossing], |crossings|)
    ensures Wanted(ctx, ctx.engine(crossing), crossing, rec) && rec.remaining > 0 ==>
      AllWanted(ctx, records + [rec], crossings + [crossing], |crossings| + 1)
  {
    var rs, cs := records + [rec], crossings + [crossing];
    forall i: nat | i < |crossings| ensures WantedAt(ctx, rs, cs, i) && rs[i].remaining > 0 {
      assert WantedAt(ctx, records, crossings, i);
    }
  }

  lemma OneMoreRecord(ctx: Context, records: seq<Sealed>, crossings: seq<Crossing>, last: Sealed)
    requires AllSealed(ctx, records, crossings) && crossings != [] && AllWanted(ctx, records, crossings, |crossings| - 1)
    ensures AllSealed(ctx, records + [last], crossings) && AllWanted(ctx, records + [last], crossings, |crossings| - 1)
    ensures WantedAt(ctx, records + [last], crossings, |crossings| - 1) <==> WantedAt(ctx, records, crossings, |crossings| - 1)
  {
    var rs := records + [last];
    forall i: nat | i < |crossings| ensures SealedAt(ctx, rs, crossings, i) {
      assert SealedAt(ctx, records, crossings, i);
    }
    forall i: nat | i < |crossings| - 1 ensures WantedAt(ctx, rs, crossings, i) && rs[i].remaining > 0 {
      assert WantedAt(ctx, records, crossings, i);
    }
  }

  ghost predicate Told(ctx: Context, run: Run) {
    && run.crossings != [] && AllSealed(ctx, run.records, run.crossings)
    && AllWanted(ctx, run.records, run.crossings, |run.crossings| - 1) && Ended(ctx, run.records, run.crossings)
  }

  /** Where the loop stands before an attempt. */
  ghost predicate Midway(ctx: Context, run: Run, total: int, index: int) {
    && |run.crossings| == |run.records| == index - 1
    && ctx.Ceiling() - total == (if run.records == [] then ctx.Ceiling() else run.records[|run.records| - 1].remaining)
    && AllSealed(ctx, run.records, run.crossings) && AllWanted(ctx, run.records, run.crossings, |run.crossings|)
  }

  /** One attempt: the run ends as told, or stands before the next. */
  lemma AttemptSeals(ctx: Context, run: Run, total: int, index: int, s: Settled)
    requires Underway(ctx, run, total, index) && Midway(ctx, run, total, index)
    requires Settle(ctx, ctx.engine(Crossing(index, ctx.Ceiling() - total)), total, index, run.records) == Ok(s)
    ensures var next := Run(run.records + [s.rec], run.crossings + [Crossing(index, ctx.Ceiling() - total)]);
            if s.retryOn.None? then Told(ctx, next)
            else match Dispose(s.retryOn.value, ctx.policy, index, s.total, ctx.Ceiling())
                 case Terminal => Told(ctx, next)
                 case Retry => Midway(ctx, next, s.total, index + 1)
                 case ExhaustedBudget => Told(ctx, Run(next.records + [Exhaustion(ctx, next.records, index + 1)], next.crossings))
  {
    var crossing := Crossing(index, ctx.Ceiling() - total);
    var reply := ctx.engine(crossing);
    SettleSeals(ctx, reply, total, index, run.records);
    SettleSpends(ctx, reply, total, index, run.records);
    var next := Run(run.records + [s.rec], run.crossings + [crossing]);
    SealedGrows(ctx, run.records, run.crossings, s.rec, crossing);
    WantedGrows(ctx, run.records, run.crossings, s.rec, crossing);
    assert WantedAt(ctx, next.records, next.crossings, index - 1) <==> Wanted(ctx, reply, crossing, s.rec);
    OneMoreRecord(ctx, next.records, next.crossings, Exhaustion(ctx, next.records, index + 1));
  }

  lemma {:induction false} LoopSeals(ctx: Context, run: Run, total: int, index: int)
    requires Underway(ctx, run, total, index) && Midway(ctx, run, total, index)
    ensures Loop(ctx, run, total, index).Ok? ==> Told(ctx, Loop(ctx, run, total, index).value)
    ensures Loop(ctx, run, total, index).Err? ==> Offended(ctx, Loop(ctx, run, total, index).error)
    decreases ctx.policy.attemptCeiling - index
  {
    var crossing := Crossing(index, ctx.Ceiling() - total);
    var settled := Settle(ctx, ctx.engine(crossing), total, index, run.records);
    if settled.Err? {
      SettleSeals(ctx, ctx.engine(crossing), total, index, run.records);
      assert Offends(ctx.engine(crossing), settled.error);
    } else {
      var s := settled.value;
      AttemptAdvances(ctx, run, total, index, s);
      AttemptSeals(ctx, run, total, index, s);
      var next := Run(run.records + [s.rec], run.crossings + [crossing]);
      if s.retryOn.Some? {
        match Dispose(s.retryOn.value, ctx.policy, index, s.total, ctx.Ceiling())
        case Terminal =>
        case Retry => LoopSeals(ctx, next, s.total, index + 1);
        case ExhaustedBudget => ExhaustionFinishes(ctx, next, index);
      }
    }
  }

  /** A request the engine is asked about: it has a budget and every category of
      constraints, and was resolved for just this request at its coordinates. */
  predicate Ready(ctx: Context) {
    && ctx.request.budget.Some?
    && "allowed_scope" in ctx.request.constraints && "output_form" in ctx.request.constraints
    && "forbidden_behaviors" in ctx.request.constraints && "determinism_expectations" in ctx.request.constraints
    && "policy_constraints" in ctx.request.constraints && "verification_expectations" in ctx.request.constraints
    && ctx.resolution.coordinates == ctx.request.coordinates && ctx.resolution.forRequest == ctx.request.hash
  }

  lemma {:induction false} MissingCategoriesMean(names: seq<string>, present: set<string>)
    ensures MissingCategories(names, present) == [] <==> forall n :: n in names ==> n in present
  {
    if names != [] {
      MissingCategoriesMean(names[1..], present);
      assert names == [names[0]] + names[1..];
    }
  }

  lemma ReadyExactly(ctx: Context)
    ensures Initiated(ctx) <==> Ready(ctx)
  {
    MissingCategoriesMean(CATEGORIES, ctx.request.constraints);
    assert CATEGORIES[0] in CATEGORIES && CATEGORIES[1] in CATEGORIES && CATEGORIES[2] in CATEGORIES
           && CATEGORIES[3] in CATEGORIES && CATEGORIES[4] in CATEGORIES && CATEGORIES[5] in CATEGORIES;
  }

  /** For every engine: each reply is sealed as what it is and charged what it claims, up
      to what was left; every attempt but the last was wanted again by the policy and
      affordable; the last was not wanted, or no longer affordable, and then a record of
      class F3 closes the chain. The run breaks off only over a reply
      the boundary may not give. */
  lemma RepliesAreSealed(ctx: Context)
    requires WellFormed(ctx) && Ready(ctx)
    ensures RunAttempts(ctx).Ok? ==> Told(ctx, RunAttempts(ctx).value)
    ensures RunAttempts(ctx).Err? ==> Offended(ctx, RunAttempts(ctx).error)
  {
    ReadyExactly(ctx);
    LoopSeals(ctx, Run([], []), 0, 1);
  }

  /** The reasons, as four flags. */
  lemma FlaggedReasons(a: bool, b: bool, c: bool, d: bool)
    ensures var reasons := (if a then ["missing_budget"] else []) + (if b then ["missing_constraints"] else [])
                           + (if c then ["coordinates_mismatch"] else []) + (if d then ["resolution_not_for_request"] else []);
            && ("missing_budget" in reasons <==> a) && ("missing_constraints" in reasons <==> b)
            && ("coordinates_mismatch" in reasons <==> c) && ("resolution_not_for_request" in reasons <==> d)
  {
    assert |"missing_budget"| == 14 && |"missing_constraints"| == 19 && |"coordinates_mismatch"| == 20
           && |"resolution_not_for_request"| == 26;
  }

  /** A request that is not ready reaches no engine: one record of class F6, nothing spent,
      naming each thing that is wrong and nothing else. */
  lemma UnreadyIsRefused(ctx: Context)
    requires WellFormed(ctx) && !Ready(ctx)
    ensures RunAttempts(ctx).Ok? && RunAttempts(ctx).value.crossings == [] && |RunAttempts(ctx).value.records| == 1
    ensures var rec := RunAttempts(ctx).value.records[0];
            && rec.kind == Failed && rec.failureClass == Some(F6) && rec.consumed == 0
            && rec.remaining == (if ctx.request.budget.Some? then ctx.request.budget.value else 0)
            && rec.metadata.InitiationRefused?
            && ("missing_budget" in rec.metadata.reasons <==> ctx.request.budget.None?)
            && ("missing_constraints" in rec.metadata.reasons <==> exists c :: c in CATEGORIES && c !in ctx.request.constraints)
            && ("coordinates_mismatch" in rec.metadata.reasons <==> ctx.resolution.coordinates != ctx.request.coordinates)
            && ("resolution_not_for_request" in rec.metadata.reasons <==> ctx.resolution.forRequest != ctx.request.hash)
  {
    ReadyExactly(ctx);
    InitiationRun(ctx);
    MissingCategoriesMean(CATEGORIES, ctx.request.constraints);
    FlaggedReasons(ctx.request.budget.None?, MissingCategories(CATEGORIES, ctx.request.constraints) != [],
                   ctx.resolution.coordinates != ctx.request.coordinates, ctx.resolution.forRequest != ctx.request.hash);
  }

  // -- what may be sealed at all ----------------------------------------------------------

  /** A record is sealed, as it is, if and only if it counts from one, nothing in it is
      negative, it has a failure class just when it failed or expired, and F7 just when it
      expired, an origin just when it was cancelled, and an output only if it returned. */
  lemma SealedLegally(rec: Sealed)
    ensures Build(rec) == Some(rec) <==>
            && rec.attemptIndex >= 1 && rec.consumed >= 0 && rec.remaining >= 0
            && (rec.failureClass.Some? <==> rec.kind == Failed || rec.kind == Expired)
            && (rec.failureClass == Some(F7) <==> rec.kind == Expired)
            && (rec.origin.Some? <==> rec.kind == Cancelled)
            && (rec.output.Some? ==> rec.kind == Returned)
    ensures Build(rec).Some? ==> Build(rec) == Some(rec)
  {
  }

  // -- truncated chains ------------------------------------------------------------------

  lemma PrefixInOrder(ctx: Context, records: seq<Sealed>, n: nat)
    requires Recorded(ctx, records) && 0 < n <= |records|
    ensures Chained(records[..n], ctx.h) && Balanced(records[..n], ctx.Ceiling())
    ensures Balanced(records[..n], records[0].consumed + records[0].remaining)
  {
    var part := records[..n];
    forall i | 0 <= i < n ensures Link(part, i, ctx.h) && AddsUp(part, i, ctx.Ceiling()) {
      assert Link(records, i, ctx.h) && AddsUp(records, i, ctx.Ceiling());
      assert part[..i] == records[..i] && part[..i + 1] == records[..i + 1];
    }
    assert part[..1] == [records[0]] && [records[0]][..0] == [];
    assert AddsUp(part, 0, ctx.Ceiling()) && TotalConsumed(part[..1]) == records[0].consumed;
  }

  /** A chain cut short anywhere within the attempts is refused by the checker under the
      policy: it stops although it should have gone on. Only the closing record of class F3
      can be cut off unnoticed, which adds nothing. */
  lemma TruncationIsCaught(ctx: Context, n: nat)
    requires WellFormed(ctx) && Ready(ctx) && RunAttempts(ctx).Ok? && 0 < n < |RunAttempts(ctx).value.records|
    ensures var run := RunAttempts(ctx).value;
            Acceptable(run.records[..n], Some(ctx.policy), ctx.h) <==> n == |run.crossings|
  {
    var run := RunAttempts(ctx).value;
    RepliesAreSealed(ctx);
    ReadyExactly(ctx);
    GovernedRun(ctx);
    PrefixInOrder(ctx, run.records, n);
    var part := run.records[..n];
    assert part[|part| - 1] == run.records[n - 1];
    if n < |run.crossings| {
      assert WantedAt(ctx, run.records, run.crossings, n - 1);
      assert SealedAt(ctx, run.records, run.crossings, n - 1);
    }
  }
}
