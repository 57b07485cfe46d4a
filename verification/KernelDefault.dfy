/** The default transition table as data, and what recovery needs of a table. */
module KernelDefault {
  import opened KernelTypes
  import opened KernelMachine
  import opened KernelRecovery
  import opened Wrappers

  function Plain(next: Phase): Row {
    Row(None, next, [], "", "", [], None)
  }

  const CANCEL_ROWS := [Row(None, Cancelled, [RequestCancelledAck, GateEnforced], "cancellation", "", [SetCancelFlag], None)]

  /** TRANSITIONS, one lookup at a time; [] where the table has no key. */
  function DefaultRows(phase: Phase, event: Event): seq<Row> {
    match (phase, event)
    case (Created, RequestReceived) =>
      [Row(Some(OtherGuard("admission_ok")), Initialized, [OtherOutbound("request.admitted"), GateEnforced], "admission", "", [],
           Some(Routing)),
       Row(None, Failed, [RequestRejected, GateEnforced], "admission", "block", [], None)]
    case (Initialized, Routing) =>
      [Row(Some(OtherGuard("routing_ok")), Scheduled, [RoutingDirective], "routing", "", [SetRoutingTarget], None),
       Row(None, Failed, [RequestRejected, GateEnforced], "routing", "block", [], None)]
    case (Scheduled, PlanCreated) => [Plain(Executing)]
    case (Scheduled, PlanRejected) => [Plain(Scheduled)]
    case (Executing, VerifyPassed) => [Plain(Executing).(actions := [RecordVerdict])]
    case (Executing, VerifyFailed) => [Plain(Executing).(actions := [RecordVerdict])]
    case (Executing, TaskCompleted) =>
      [Row(Some(Gate("completion")), Completed, [OtherOutbound("request.completed"), GateEnforced], "completion", "", [], None),
       Row(None, Verifying, [GateEnforced], "completion", "block", [], None)]
    case (Executing, TaskFailed) =>
      [Row(Some(ReplansRemaining), Scheduled, [], "", "", [IncrementReplan], None),
       Row(None, Failed, [RequestFailed], "", "block", [], None)]
    case (Verifying, VerifyPassed) =>
      [Row(None, Completed, [OtherOutbound("request.completed"), GateEnforced], "completion", "", [RecordVerdict], None)]
    case (Verifying, VerifyFailed) =>
      [Row(None, Scheduled, [GateEnforced], "completion", "block", [RecordVerdict], None)]
    case (_, RequestCancelled) =>
      if phase.Active() then CANCEL_ROWS else if phase.Terminal() then [Plain(phase)] else []
    case _ => []
  }

  const PHASES := {Created, Initialized, Scheduled, Executing, Verifying, Completed, Failed, Cancelled}
  const TABLE_EVENTS := {RequestReceived, RequestCancelled, PlanCreated, PlanRejected, TaskCompleted, TaskFailed,
                         VerifyPassed, VerifyFailed, Routing}

  /** The rows of a table, gathered into the dictionary a snapshot holds. */
  function Table(ps: set<Phase>, es: set<Event>, rows: (Phase, Event) -> seq<Row>): map<(Phase, Event), seq<Row>> {
    map p, e | p in ps && e in es && rows(p, e) != [] :: (p, e) := rows(p, e)
  }

  lemma TableKeys(ps: set<Phase>, es: set<Event>, rows: (Phase, Event) -> seq<Row>, p: Phase, e: Event)
    ensures (p, e) in Table(ps, es, rows) <==> p in ps && e in es && rows(p, e) != []
    ensures (p, e) in Table(ps, es, rows) ==> Table(ps, es, rows)[(p, e)] == rows(p, e)
  {
  }

  const DEFAULT_TRANSITIONS := Table(PHASES, TABLE_EVENTS, DefaultRows)

  const DEFAULT_INBOUND := {RequestReceived, RequestCancelled, PlanCreated, PlanRejected, TaskCompleted, TaskFailed,
                            VerifyPassed, VerifyFailed, ConfigChanged, SessionWake, SessionSleep}

  const COMPLETION_GATE := GateDef("verdict_true", Some("verification"))

  const DEFAULT := Config(
    1, DEFAULT_INBOUND,
    map[RequestReceived := ["declared_type"], ConfigChanged := ["snapshot"]],
    map["type.alpha" := One("planning"), "type.beta" := One("scheduling")],
    map["completion" := COMPLETION_GATE],
    DEFAULT_TRANSITIONS, 2, 1000)

  /** A dictionary that holds these rows, and no others. */
  ghost predicate Tabulates(t: map<(Phase, Event), seq<Row>>, rows: (Phase, Event) -> seq<Row>) {
    forall k: (Phase, Event) {:trigger k in t} ::
      (k in t <==> rows(k.0, k.1) != []) && (k in t ==> t[k] == rows(k.0, k.1))
  }

  /** A snapshot that keeps the default table and takes no event for the log's own;
      routing, schemas, gates and limits are free. */
  ghost predicate DefaultTable(cfg: Config) {
    Tabulates(cfg.transitions, DefaultRows) && Cleanup !in cfg.inbound && 0 <= cfg.maxReplans && 0 <= cfg.maxActive
  }

  lemma KeyPhases(p: Phase, e: Event)
    requires DefaultRows(p, e) != []
    ensures p in PHASES
  {
    assert p.Active() || p.Terminal();
  }

  lemma KeyEvents(p: Phase, e: Event)
    requires DefaultRows(p, e) != []
    ensures e in TABLE_EVENTS
  {
  }

  /** The default snapshot's dictionary does. */
  lemma DefaultTabulated()
    ensures Tabulates(DEFAULT_TRANSITIONS, DefaultRows)
  {
    forall k: (Phase, Event)
      ensures (k in DEFAULT_TRANSITIONS <==> DefaultRows(k.0, k.1) != [])
      ensures k in DEFAULT_TRANSITIONS ==> DEFAULT_TRANSITIONS[k] == DefaultRows(k.0, k.1)
    {
      TableKeys(PHASES, TABLE_EVENTS, DefaultRows, k.0, k.1);
      if DefaultRows(k.0, k.1) != [] {
        KeyPhases(k.0, k.1);
        KeyEvents(k.0, k.1);
      }
    }
  }

  lemma DefaultKeys(cfg: Config, p: Phase, e: Event)
    requires DefaultTable(cfg)
    ensures (p, e) in cfg.transitions <==> DefaultRows(p, e) != []
    ensures DefaultRows(p, e) != [] ==> cfg.transitions[(p, e)] == DefaultRows(p, e)
  {
    assert (p, e) in cfg.transitions <==> DefaultRows(p, e) != [];
  }

  lemma RowsReplayable(p: Phase, e: Event, i: nat)
    requires i < |DefaultRows(p, e)|
    ensures DefaultRows(p, e)[ReplayIndex(DefaultRows(p, e), i)] == DefaultRows(p, e)[i]
  {
    var rows := DefaultRows(p, e);
    if |rows| == 2 {
      assert !Permits(rows, 1);
      assert Permits(rows, 0);
    }
  }

  lemma RowReplayable(cfg: Config, k: (Phase, Event), i: nat)
    requires DefaultTable(cfg) && k in cfg.transitions && i < |cfg.transitions[k]|
    ensures SameEffect(cfg.transitions[k][i], cfg.transitions[k][ReplayIndex(cfg.transitions[k], i)])
  {
    DefaultKeys(cfg, k.0, k.1);
    RowsReplayable(k.0, k.1, i);
  }

  lemma RowsListed(cfg: Config, k: (Phase, Event))
    requires DefaultTable(cfg) && k in cfg.transitions
    ensures cfg.transitions[k] != [] && !Reserved(k.1)
  {
    DefaultKeys(cfg, k.0, k.1);
  }

  lemma DefaultUsable(cfg: Config)
    requires DefaultTable(cfg)
    ensures Usable(cfg)
  {
    forall k | k in cfg.transitions ensures cfg.transitions[k] != [] && !Reserved(k.1) {
      RowsListed(cfg, k);
    }
    DefaultKeys(cfg, Created, RequestReceived);
    DefaultKeys(cfg, Initialized, Routing);
  }

  lemma DefaultReplayable(cfg: Config)
    requires DefaultTable(cfg) && Usable(cfg)
    ensures Replayable(cfg)
  {
    forall k, i | k in cfg.transitions && 0 <= i < |cfg.transitions[k]| && Pickable(cfg.transitions[k], i)
      ensures SameEffect(cfg.transitions[k][i], cfg.transitions[k][ReplayIndex(cfg.transitions[k], i)])
    {
      RowReplayable(cfg, k, i);
    }
  }

  /** The default table meets the condition under which recovery is exact. */
  lemma DefaultTableSound(cfg: Config)
    requires DefaultTable(cfg)
    ensures Sound(cfg)
  {
    DefaultUsable(cfg);
    DefaultReplayable(cfg);
  }
}
