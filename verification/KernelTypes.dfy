/** The kernel's vocabulary: envelopes, configuration snapshots, ledger entries,
    transition-log records and the messages that leave the coordinator. */
module KernelTypes {
  import opened Orders
  import opened Wrappers

  // -- names ---------------------------------------------------------------

  datatype Event =
    | RequestReceived | RequestCancelled
    | PlanCreated | PlanRejected
    | TaskCompleted | TaskFailed
    | VerifyPassed | VerifyFailed
    | ConfigChanged | SessionWake | SessionSleep
    | Routing              // "__routing__", the chained trigger
    | Cleanup              // "__cleanup__", the eviction record
    | OtherEvent(name: string)

  datatype Phase =
    | Created | Initialized | Scheduled | Executing | Verifying
    | Completed | Failed | Cancelled
    | OtherPhase(name: string)
  {
    predicate Active() {
      Created? || Initialized? || Scheduled? || Executing? || Verifying?
    }

    predicate Terminal() {
      Completed? || Failed? || Cancelled?
    }
  }

  datatype Outbound =
    | GateEnforced | RoutingDirective | RequestRejected | RequestFailed | RequestCancelledAck
    | OtherOutbound(name: string)

  // -- configuration -------------------------------------------------------

  datatype Guard = Gate(name: string) | ReplansRemaining | OtherGuard(name: string)

  datatype Action = RecordVerdict | IncrementReplan | SetCancelFlag | SetRoutingTarget | OtherAction(name: string)

  datatype Row = Row(
    when: Option<Guard>, next: Phase, emit: seq<Outbound>, gate: string,
    decision: string,            // "" when the row declares none
    actions: seq<Action>, chain: Option<Event>)

  datatype GateDef = GateDef(check: string, verdict: Option<string>)

  /** A routing-table entry: one owner, or several (which never routes). */
  datatype Owner = One(name: string) | Many(names: seq<string>)

  datatype Config = Config(
    version: int,
    inbound: set<Event>,
    schemas: map<Event, seq<string>>,
    routing: map<string, Owner>,
    gates: map<string, GateDef>,
    transitions: map<(Phase, Event), seq<Row>>,
    maxReplans: int,
    maxActive: int)
  {
    function Rows(phase: Phase, event: Event): Option<seq<Row>> {
      if (phase, event) in transitions then Some(transitions[(phase, event)]) else None
    }
  }

  /** What a config.changed payload may carry: no mapping of the right shape, or one. */
  datatype Snapshot = Malformed(reason: string) | Snap(cfg: Config)

  /** config_view.validate on a snapshot. */
  predicate SnapshotValid(s: Snapshot) {
    s.Snap? && ConfigValid(s.cfg)
  }

  predicate ConfigValid(c: Config) {
    && 0 <= c.maxReplans && 0 <= c.maxActive
    && forall k :: k in c.transitions ==> c.transitions[k] != []
  }

  // -- envelopes -----------------------------------------------------------

  datatype Envelope =
    | Junk                                                      // not a mapping
    | Incomplete(givenId: Option<string>, rid: Option<string>)  // a required field missing or ill-typed
    | Envelope(id: string, event: Event, rid: Option<string>,
               payload: map<string, string>, snapshot: Option<Snapshot>)

  // -- ledger --------------------------------------------------------------

  datatype RequestState = RequestState(
    rid: string, declaredType: string, phase: Phase, cfgVersion: int,
    verdicts: map<string, bool>, target: Option<string>, cancelled: bool,
    sequence: nat, lastEvent: Option<string>, replans: nat)

  /** The request ledger: a dictionary together with its insertion order. */
  datatype Ledger = Ledger(order: seq<string>, entries: map<string, RequestState>) {
    ghost predicate Valid() {
      && (forall r :: r in order <==> r in entries)
      && Distinct(order)
      && (forall r :: r in entries ==> entries[r].rid == r)
    }

    function Put(e: RequestState): Ledger {
      Ledger(if e.rid in entries then order else order + [e.rid], entries[e.rid := e])
    }

    function Evict(r: string): Ledger {
      Ledger(Without(order, r), map k | k in entries && k != r :: entries[k])
    }

    function ActiveIds(): set<string> {
      set r | r in entries && entries[r].phase.Active()
    }

    function ActiveCount(): nat {
      |ActiveIds()|
    }
  }

  function Without(s: seq<string>, r: string): seq<string> {
    if s == [] then [] else (if s[0] == r then [] else [s[0]]) + Without(s[1..], r)
  }

  lemma {:induction false} WithoutMembers(s: seq<string>, r: string)
    ensures forall x :: x in Without(s, r) <==> x in s && x != r
    ensures Distinct(s) ==> Distinct(Without(s, r))
  {
    if s != [] {
      WithoutMembers(s[1..], r);
      assert s == [s[0]] + s[1..];
      if Distinct(s) {
        assert Distinct(s[1..]);
        assert s[0] !in s[1..];
      }
    }
  }

  lemma PutValid(l: Ledger, e: RequestState)
    requires l.Valid()
    ensures l.Put(e).Valid()
  {
  }

  lemma EvictValid(l: Ledger, r: string)
    requires l.Valid()
    ensures l.Evict(r).Valid()
  {
    WithoutMembers(l.order, r);
  }

  // -- transition log ------------------------------------------------------

  datatype InfoKey = DeclaredType | Reason | RoutingTarget | OtherKey(name: string)
  type Info = map<InfoKey, string>

  /** One record of the transition log, as the coordinator writes it. */
  datatype Rec = Rec(
    rid: Option<string>, eventId: Option<string>, sequence: int, prior: Option<Phase>,
    event: Event, guard: bool, next: Option<Phase>, cfgVersion: int, emitted: seq<Outbound>,
    info: Option<Info>, verdict: Option<string>, snapshot: Option<Snapshot>)

  // -- outbound messages ---------------------------------------------------

  datatype Payload =
    | GatePayload(rid: string, gate: string, decision: string)
    | RoutingPayload(rid: string, declaredType: string, target: Option<string>, cfgVersion: int)
    | ReasonPayload(rid: string, phase: Phase, reason: string)
    | AckPayload(rid: string)
    | PhasePayload(rid: string, phase: Phase)

  datatype FaultReason =
    | BadEnvelope | Unmatched(phase: Phase, event: Event) | NoRow(phase: Phase, event: Event)
    | UnknownRequest(event: Event) | MissingId | ConfigInvalid
    | CommunicationUnavailable | ReplayDeviation(sequence: int)

  /** A published message. Row-driven events carry the deterministic id
      (request, sequence, index); faults carry a counter. */
  datatype Message =
    | LogMessage(rec: Rec)
    | RowMessage(rid: string, sequence: nat, index: nat, name: Outbound, payload: Payload, cfgVersion: int)
    | FaultMessage(counter: nat, reason: FaultReason, eventId: Option<string>, about: Option<string>, cfgVersion: int)

  /** One call of bus.publish and whether it went through. */
  datatype Attempt = Attempt(message: Message, delivered: bool)
}
