/** The sealed outcome record of one attempt, and the legality its construction enforces. */
module RoOutcome {
  import opened Wrappers

  datatype Kind = Returned | Failed | Expired | Cancelled
  datatype FailureClass = F1 | F2 | F3 | F4 | F5 | F6 | F7 | F8
  datatype Origin = User | Kernel | Policy | Workflow

  type Fields = map<string, string>

  /** What a parsed engine output can be, as far as mechanical conformance looks. */
  datatype Json = Object(fields: Fields) | NotObject(text: string)
  datatype RawOutput = Missing | Undecodable | NotText | Text(text: string, parsed: Option<Json>)

  datatype Nonconformance =
    | MissingOutput | UndecodableBytes | NotBytesOrText | Unparseable | NotAnObject | MissingFields(names: seq<string>)

  /** How a pending cancellation raced with the engine's answer. */
  datatype Race = Race(signals: seq<string>, returnedFirst: bool)

  datatype Metadata =
    | NoMetadata
    | InitiationRefused(reasons: seq<string>)
    | BoundaryOverdraft(reported: Option<FailureClass>)
    | BudgetExhaustedBeforeRetry
    | Nonconforming(reason: Nonconformance, raw: RawOutput, race: Option<Race>)
    | RaceOnly(race: Option<Race>)
    | EngineFacts(facts: Fields)
    | PartialOutput(partial: Option<string>, race: Option<Race>)

  datatype Sealed = Sealed(
    requestHash: string, resolutionHash: string, coordinates: Fields,
    attemptIndex: int, historyRefs: seq<string>,
    kind: Kind, failureClass: Option<FailureClass>, timing: Fields,
    consumed: int, remaining: int, origin: Option<Origin>,
    provider: string, output: Option<Fields>, metadata: Metadata)

  /** The content hash of a record: any function; injective where a result needs it. */
  type Hasher = Sealed -> string

  ghost predicate Injective(h: Hasher) {
    forall a, b :: h(a) == h(b) ==> a == b
  }

  /** The combinations of recovery kind, failure class, origin and output that may be sealed. */
  predicate Legal(kind: Kind, failureClass: Option<FailureClass>, origin: Option<Origin>, output: Option<Fields>) {
    match kind
    case Returned => failureClass.None? && origin.None?
    case Failed => failureClass.Some? && failureClass != Some(F7) && origin.None? && output.None?
    case Expired => failureClass == Some(F7) && origin.None? && output.None?
    case Cancelled => failureClass.None? && origin.Some? && output.None?
  }

  /** build_sealed_outcome: the record itself, or None where it raises. */
  function Build(rec: Sealed): Option<Sealed> {
    if rec.attemptIndex < 1 || rec.consumed < 0 || rec.remaining < 0 then None
    else if !Legal(rec.kind, rec.failureClass, rec.origin, rec.output) then None
    else Some(rec)
  }

  function Hashes(h: Hasher, records: seq<Sealed>): (refs: seq<string>)
    ensures |refs| == |records|
    ensures forall i :: 0 <= i < |refs| ==> refs[i] == h(records[i])
  {
    seq(|records|, i requires 0 <= i < |records| => h(records[i]))
  }

  function TotalConsumed(records: seq<Sealed>): int {
    if records == [] then 0 else TotalConsumed(records[..|records| - 1]) + records[|records| - 1].consumed
  }

  lemma TotalAppend(records: seq<Sealed>, r: Sealed)
    ensures TotalConsumed(records + [r]) == TotalConsumed(records) + r.consumed
  {
    assert (records + [r])[..|records|] == records;
  }
}
