/** The invocation governor: a bounded retry loop around an engine nothing is
    assumed about. */
module RoInvocation {
  import opened RoOutcome
  import opened Wrappers

  // -- inputs ----------------------------------------------------------------

  datatype Policy = Policy(attemptCeiling: int, retryable: set<FailureClass>)

  datatype Request = Request(
    hash: string, coordinates: Fields, budget: Option<int>,
    constraints: set<string>, requiredFields: seq<string>)

  datatype Resolution = Resolution(hash: string, provider: string, coordinates: Fields, forRequest: string)

  /** One of the closed four answers of the boundary. A `consumed` of None is a
      value that is not an integer; a class or origin of None is outside its vocabulary. */
  datatype Reply =
    | ReplyReturned(consumed: Option<int>, output: RawOutput, timing: Fields)
    | ReplyFailed(failureClass: Option<FailureClass>, consumed: Option<int>, timing: Fields, facts: Fields)
    | ReplyExpired(consumed: Option<int>, partial: Option<string>, timing: Fields)
    | ReplyCancelled(origin: Option<Origin>, consumed: Option<int>, partial: Option<string>, timing: Fields)

  datatype Crossing = Crossing(attempt: int, remaining: int)

  /** The engine: any answer to any crossing. */
  type Engine = Crossing -> Reply

  datatype Refusal = BadConsumed | BadFailureClass | BadOrigin | SealRefused

  /** What a run of the loop is given and never changes. */
  datatype Context = Context(
    request: Request, resolution: Resolution, policy: Policy, engine: Engine, signals: seq<string>, h: Hasher)
  {
    function Ceiling(): int {
      if request.budget.Some? then request.budget.value else 0
    }

    function RaceWon(returnedFirst: bool): Option<Race> {
      if signals == [] then None else Some(Race(signals, returnedFirst))
    }

    /** A record for the attempt that follows `records`. */
    function Blank(records: seq<Sealed>, index: int): Sealed {
      Sealed(request.hash, resolution.hash, request.coordinates, index, Hashes(h, records),
             Returned, None, map[], 0, 0, None, resolution.provider, None, NoMetadata)
    }
  }

  /** What the callers guarantee: envelopes are allocated with a positive ceiling
      and policies are built with a ceiling of at least one attempt. */
  predicate WellFormed(ctx: Context) {
    && ctx.policy.attemptCeiling >= 1
    && (ctx.request.budget.Some? ==> ctx.request.budget.value > 0)
  }

  const CATEGORIES := ["allowed_scope", "output_form", "forbidden_behaviors",
                       "determinism_expectations", "policy_constraints", "verification_expectations"]

  function MissingCategories(names: seq<string>, present: set<string>): seq<string> {
    if names == [] then []
    else (if names[0] in present then [] else [names[0]]) + MissingCategories(names[1..], present)
  }

  /** _check_initiation. */
  function InitiationReasons(ctx: Context): seq<string> {
    (if ctx.request.budget.None? then ["missing_budget"] else []) +
    (if MissingCategories(CATEGORIES, ctx.request.constraints) != [] then ["missing_constraints"] else []) +
    (if ctx.resolution.coordinates != ctx.request.coordinates then ["coordinates_mismatch"] else []) +
    (if ctx.resolution.forRequest != ctx.request.hash then ["resolution_not_for_request"] else [])
  }

  predicate Initiated(ctx: Context) {
    InitiationReasons(ctx) == []
  }

  // -- mechanical conformance ---------------------------------------------------

  function MissingNames(required: seq<string>, fields: Fields): seq<string> {
    if required == [] then []
    else (if required[0] in fields then [] else [required[0]]) + MissingNames(required[1..], fields)
  }

  /** _parse_f8. */
  function Conform(raw: RawOutput, required: seq<string>): Result<Fields, Nonconformance> {
    match raw
    case Missing => Err(MissingOutput)
    case Undecodable => Err(UndecodableBytes)
    case NotText => Err(NotBytesOrText)
    case Text(_, parsed) =>
      if parsed.None? then Err(Unparseable)
      else if parsed.value.NotObject? then Err(NotAnObject)
      else if MissingNames(required, parsed.value.fields) != [] then Err(MissingFields(MissingNames(required, parsed.value.fields)))
      else Ok(parsed.value.fields)
  }

  // -- budget ----------------------------------------------------------------------

  datatype Charge = Charge(actual: int, overdraft: bool, total: int)

  /** _apply_consumption: never more than the ceiling in total. */
  function ApplyConsumption(consumed: Option<int>, total: int, ceiling: int): Option<Charge> {
    if consumed.None? || consumed.value < 0 then None
    else if total + consumed.value > ceiling then
      Some(Charge(if ceiling - total > 0 then ceiling - total else 0, true, ceiling))
    else Some(Charge(consumed.value, false, total + consumed.value))
  }

  // -- one attempt ------------------------------------------------------------------

  /** The record one reply is sealed as, the running total, and the failure class the
      retry decision looks at (None when the attempt ends the run whatever it was). */
  datatype Settled = Settled(rec: Sealed, total: int, retryOn: Option<FailureClass>)

  function Settle(ctx: Context, reply: Reply, total: int, index: int, records: seq<Sealed>): Result<Settled, Refusal> {
    var ceiling := ctx.Ceiling();
    var blank := ctx.Blank(records, index);
    if reply.ReplyFailed? && (reply.failureClass.None? || reply.failureClass == Some(F7)) then Err(BadFailureClass)
    else if reply.ReplyCancelled? && reply.origin.None? then Err(BadOrigin)
    else
      var charge := ApplyConsumption(reply.consumed, total, ceiling);
      if charge.None? then Err(BadConsumed)
      else
        var paid := blank.(consumed := charge.value.actual, remaining := ceiling - charge.value.total, timing := reply.timing);
        if charge.value.overdraft && !reply.ReplyCancelled? then
          Ok(Settled(blank.(kind := Failed, failureClass := Some(F3), consumed := charge.value.actual, remaining := 0,
                            metadata := BoundaryOverdraft(if reply.ReplyFailed? then reply.failureClass else None)),
                     charge.value.total, None))
        else
          match reply
          case ReplyReturned(_, output, _) =>
            var race := ctx.RaceWon(true);
            (match Conform(output, ctx.request.requiredFields)
             case Ok(fields) =>
               Ok(Settled(paid.(kind := Returned, output := Some(fields), metadata := RaceOnly(race)), charge.value.total, None))
             case Err(reason) =>
               Ok(Settled(paid.(kind := Failed, failureClass := Some(F8), metadata := Nonconforming(reason, output, race)),
                          charge.value.total, Some(F8))))
          case ReplyFailed(cls, _, _, facts) =>
            Ok(Settled(paid.(kind := Failed, failureClass := cls, metadata := EngineFacts(facts)), charge.value.total, cls))
          case ReplyExpired(_, partial, _) =>
            Ok(Settled(paid.(kind := Expired, failureClass := Some(F7), metadata := PartialOutput(partial, None)),
                       charge.value.total, Some(F7)))
          case ReplyCancelled(origin, _, partial, _) =>
            Ok(Settled(paid.(kind := Cancelled, origin := origin, metadata := PartialOutput(partial, ctx.RaceWon(false))),
                       charge.value.total, None))
  }

  datatype Disposition = Retry | ExhaustedBudget | Terminal

  /** _retry_disposition. */
  function Dispose(cls: FailureClass, policy: Policy, index: int, total: int, ceiling: int): Disposition {
    if !(cls in policy.retryable && index < policy.attemptCeiling) then Terminal
    else if total < ceiling then Retry else ExhaustedBudget
  }

  function Exhaustion(ctx: Context, records: seq<Sealed>, index: int): Sealed {
    ctx.Blank(records, index).(kind := Failed, failureClass := Some(F3), metadata := BudgetExhaustedBeforeRetry)
  }

  // -- the loop ------------------------------------------------------------------------

  /** The records of a run and the crossings it made. */
  datatype Run = Run(records: seq<Sealed>, crossings: seq<Crossing>)

  function Loop(ctx: Context, run: Run, total: int, index: int): Result<Run, Refusal>
    decreases ctx.policy.attemptCeiling - index
  {
    var crossing := Crossing(index, ctx.Ceiling() - total);
    var settled := Settle(ctx, ctx.engine(crossing), total, index, run.records);
    if settled.Err? then Err(settled.error)
    else
      var s := settled.value;
      var next := Run(run.records + [s.rec], run.crossings + [crossing]);
      if Build(s.rec).None? then Err(SealRefused)
      else if s.retryOn.None? then Ok(next)
      else
        match Dispose(s.retryOn.value, ctx.policy, index, s.total, ctx.Ceiling())
        case Terminal => Ok(next)
        case Retry => Loop(ctx, next, s.total, index + 1)
        case ExhaustedBudget =>
          var last := Exhaustion(ctx, next.records, index + 1);
          if Build(last).None? then Err(SealRefused) else Ok(Run(next.records + [last], next.crossings))
  }

  function InitiationRecord(ctx: Context): Sealed {
    ctx.Blank([], 1).(kind := Failed, failureClass := Some(F6), remaining := ctx.Ceiling(),
                      metadata := InitiationRefused(InitiationReasons(ctx)))
  }

  /** run_attempts. */
  function RunAttempts(ctx: Context): Result<Run, Refusal> {
    if Initiated(ctx) then Loop(ctx, Run([], []), 0, 1)
    else if Build(InitiationRecord(ctx)).None? then Err(SealRefused)
    else Ok(Run([InitiationRecord(ctx)], []))
  }

  // -- the loop as it runs ---------------------------------------------------------------

  /** Seals a record and counts what happens when construction refuses it. */
  method Seal(rec: Sealed, records: seq<Sealed>) returns (r: Result<seq<Sealed>, Refusal>)
    ensures r == if Build(rec).None? then Err(SealRefused) else Ok(records + [rec])
  {
    if Build(rec).None? {
      return Err(SealRefused);
    }
    return Ok(records + [rec]);
  }

  /** The while loop of run_attempts, with its running total, attempt index and
      growing record list. */
  method Govern(ctx: Context) returns (r: Result<Run, Refusal>)
    ensures r == RunAttempts(ctx)
  {
    if !Initiated(ctx) {
      var sealed := Seal(InitiationRecord(ctx), []);
      if sealed.Err? {
        return Err(sealed.error);
      }
      assert [] + [InitiationRecord(ctx)] == [InitiationRecord(ctx)];
      return Ok(Run(sealed.value, []));
    }
    var ceiling := ctx.Ceiling();
    var total, index := 0, 1;
    var records: seq<Sealed>, crossings: seq<Crossing> := [], [];
    while true
      invariant Loop(ctx, Run(records, crossings), total, index) == RunAttempts(ctx)
      decreases ctx.policy.attemptCeiling - index
    {
      var crossing := Crossing(index, ceiling - total);
      crossings := crossings + [crossing];
      var reply := ctx.engine(crossing);
      var blank := ctx.Blank(records, index);
      if reply.ReplyFailed? && (reply.failureClass.None? || reply.failureClass == Some(F7)) {
        return Err(BadFailureClass);
      }
      if reply.ReplyCancelled? && reply.origin.None? {
        return Err(BadOrigin);
      }
      var charge := ApplyConsumption(reply.consumed, total, ceiling);
      if charge.None? {
        return Err(BadConsumed);
      }
      total := charge.value.total;
      var rec := blank.(consumed := charge.value.actual, remaining := ceiling - total, timing := reply.timing);
      var retryOn: Option<FailureClass> := None;
      if charge.value.overdraft && !reply.ReplyCancelled? {
        rec := blank.(kind := Failed, failureClass := Some(F3), consumed := charge.value.actual, remaining := 0,
                      metadata := BoundaryOverdraft(if reply.ReplyFailed? then reply.failureClass else None));
      } else {
        match reply {
          case ReplyReturned(_, output, _) =>
            var conforms := Conform(output, ctx.request.requiredFields);
            if conforms.Ok? {
              rec := rec.(kind := Returned, output := Some(conforms.value), metadata := RaceOnly(ctx.RaceWon(true)));
            } else {
              rec := rec.(kind := Failed, failureClass := Some(F8),
                          metadata := Nonconforming(conforms.error, output, ctx.RaceWon(true)));
              retryOn := Some(F8);
            }
          case ReplyFailed(cls, _, _, facts) =>
            rec := rec.(kind := Failed, failureClass := cls, metadata := EngineFacts(facts));
            retryOn := cls;
          case ReplyExpired(_, partial, _) =>
            rec := rec.(kind := Expired, failureClass := Some(F7), metadata := PartialOutput(partial, None));
            retryOn := Some(F7);
          case ReplyCancelled(origin, _, partial, _) =>
            rec := rec.(kind := Cancelled, origin := origin, metadata := PartialOutput(partial, ctx.RaceWon(false)));
        }
      }
      var sealed := Seal(rec, records);
      if sealed.Err? {
        return Err(sealed.error);
      }
      records := sealed.value;
      if retryOn.None? {
        return Ok(Run(records, crossings));
      }
      var disposition := Dispose(retryOn.value, ctx.policy, index, total, ceiling);
      if disposition.Terminal? {
        return Ok(Run(records, crossings));
      }
      index := index + 1;
      if disposition.ExhaustedBudget? {
        var last := Seal(Exhaustion(ctx, records, index), records);
        if last.Err? {
          return Err(last.error);
        }
        return Ok(Run(last.value, crossings));
      }
    }
  }
}
