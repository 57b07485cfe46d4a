/** The coordinator as a function of its state: what one envelope does, and what
    replaying one log record does. Live handling and replay are written
    separately, as in the program; KernelRecovery proves that they agree. */
module KernelMachine {
  import opened KernelTypes
  import opened Orders
  import opened Wrappers

  /** What recovery has to rebuild. */
  datatype Core = Core(ledger: Ledger, configs: map<int, Config>, config: Config)

  /** Everything about publishing; never consulted by replay. */
  datatype Io = Io(halted: bool, outSeq: nat, wire: seq<Attempt>)

  /** One logged record, the state once its effects are applied, and the
      row-driven events published for it. */
  datatype Frame = Frame(rec: Rec, core: Core, emitted: seq<Message>)

  datatype Kernel = Kernel(core: Core, io: Io, frames: seq<Frame>)

  /** Which calls of bus.publish raise: any schedule whatever. */
  type Outage = nat -> bool

  const EMPTY_LEDGER := Ledger([], map[])

  function Install(core: Core, cfg: Config): Core {
    Core(core.ledger, core.configs[cfg.version := cfg], cfg)
  }

  function FreshCore(cfg: Config): Core {
    Core(EMPTY_LEDGER, map[cfg.version := cfg], cfg)
  }

  function FreshKernel(cfg: Config, wire: seq<Attempt>): Kernel {
    Kernel(FreshCore(cfg), Io(false, 0, wire), [])
  }

  function Log(frames: seq<Frame>): (log: seq<Rec>)
    ensures |log| == |frames|
    ensures forall i :: 0 <= i < |log| ==> log[i] == frames[i].rec
  {
    seq(|frames|, i requires 0 <= i < |frames| => frames[i].rec)
  }

  // -- publishing ----------------------------------------------------------

  /** _safe_publish: a first failure halts admission and raises one alert. */
  function SafePublish(io: Io, m: Message, version: int, down: Outage): Io {
    var ok := !down(|io.wire|);
    var sent := io.(wire := io.wire + [Attempt(m, ok)]);
    if ok || io.halted then sent
    else
      var n := io.outSeq + 1;
      var alert := FaultMessage(n, CommunicationUnavailable, None, None, version);
      Io(true, n, sent.wire + [Attempt(alert, !down(|sent.wire|))])
  }

  function PublishAll(io: Io, ms: seq<Message>, version: int, down: Outage): Io
    decreases |ms|
  {
    if ms == [] then io
    else PublishAll(SafePublish(io, ms[0], version, down), ms[1..], version, down)
  }

  function Fault(k: Kernel, reason: FaultReason, eventId: Option<string>, about: Option<string>, down: Outage): Kernel {
    var n := k.io.outSeq + 1;
    var version := k.core.config.version;
    k.(io := SafePublish(k.io.(outSeq := n), FaultMessage(n, reason, eventId, about, version), version, down))
  }

  /** Log, then publish: every change of the core goes through here. */
  function Commit(k: Kernel, f: Frame, down: Outage): Kernel {
    var version := f.core.config.version;
    var io := SafePublish(k.io, LogMessage(f.rec), version, down);
    Kernel(f.core, PublishAll(io, f.emitted, version, down), k.frames + [f])
  }

  // -- rows, guards, actions -----------------------------------------------

  function DecisionOf(row: Row, otherwise: string): string {
    if row.decision != "" then row.decision else otherwise
  }

  predicate Evaluate(e: RequestState, g: GateDef) {
    && g.check == "verdict_true"
    && var key := if g.verdict.Some? then g.verdict.value else "verification";
    && key in e.verdicts && e.verdicts[key]
  }

  predicate GuardHolds(g: Guard, e: RequestState, cfg: Config) {
    match g
    case Gate(name) => name in cfg.gates && Evaluate(e, cfg.gates[name])
    case ReplansRemaining => e.replans < cfg.maxReplans
    case OtherGuard(_) => false
  }

  /** Would the live machine log a permit for row i of its list? */
  predicate Permits(rows: seq<Row>, i: nat)
    requires i < |rows|
  {
    DecisionOf(rows[i], if i == 0 then "permit" else "block") == "permit"
  }

  /** _pick_row: the first row whose guard holds. */
  function PickRow(rows: seq<Row>, e: RequestState, cfg: Config): (i: Option<nat>)
    ensures i.Some? ==> i.value < |rows|
  {
    PickFrom(rows, 0, e, cfg)
  }

  function PickFrom(rows: seq<Row>, from: nat, e: RequestState, cfg: Config): (i: Option<nat>)
    ensures i.Some? ==> from <= i.value < |rows|
    ensures i.Some? ==> rows[i.value].when.Some? ==> GuardHolds(rows[i.value].when.value, e, cfg)
    ensures forall j :: from <= j < (if i.Some? then i.value else |rows|) ==>
      rows[j].when.Some? && !GuardHolds(rows[j].when.value, e, cfg)
    decreases |rows| - from
  {
    if from >= |rows| then None
    else if rows[from].when.Some? && !GuardHolds(rows[from].when.value, e, cfg) then PickFrom(rows, from + 1, e, cfg)
    else Some(from)
  }

  function DoAction(a: Action, e: RequestState, event: Event, info: Info): RequestState {
    match a
    case RecordVerdict => e.(verdicts := e.verdicts["verification" := event == VerifyPassed])
    case IncrementReplan => e.(replans := e.replans + 1)
    case SetCancelFlag => e.(cancelled := true)
    case SetRoutingTarget => e.(target := if RoutingTarget in info then Some(info[RoutingTarget]) else None)
    case OtherAction(_) => e
  }

  function DoActions(actions: seq<Action>, e: RequestState, event: Event, info: Info): (r: RequestState)
    ensures r.rid == e.rid && r.phase == e.phase && r.sequence == e.sequence && r.cfgVersion == e.cfgVersion
    ensures r.declaredType == e.declaredType && r.lastEvent == e.lastEvent
  {
    if actions == [] then e
    else DoActions(actions[1..], DoAction(actions[0], e, event, info), event, info)
  }

  /** The entry once a row has been applied to it. */
  function Applied(e: RequestState, event: Event, eventId: Option<string>, row: Row, info: Info): (r: RequestState)
    ensures r.rid == e.rid && r.phase == row.next && r.sequence == e.sequence + 1 && r.lastEvent == eventId
    ensures r.cfgVersion == e.cfgVersion && r.declaredType == e.declaredType
  {
    DoActions(row.actions, e, event, info).(phase := row.next, sequence := e.sequence + 1, lastEvent := eventId)
  }

  function PayloadFor(name: Outbound, e: RequestState, decision: string, row: Row, cfg: Config, info: Info): Payload {
    match name
    case GateEnforced => GatePayload(e.rid, row.gate, decision)
    case RoutingDirective => RoutingPayload(e.rid, e.declaredType, e.target, cfg.version)
    case RequestRejected => ReasonPayload(e.rid, e.phase, if Reason in info then info[Reason] else "")
    case RequestFailed => ReasonPayload(e.rid, e.phase, if Reason in info then info[Reason] else "")
    case RequestCancelledAck => AckPayload(e.rid)
    case OtherOutbound(_) => PhasePayload(e.rid, e.phase)
  }

  function RowMessages(e: RequestState, row: Row, decision: string, cfg: Config, info: Info): seq<Message> {
    seq(|row.emit|, i requires 0 <= i < |row.emit| =>
      RowMessage(e.rid, e.sequence, i, row.emit[i], PayloadFor(row.emit[i], e, decision, row, cfg, info), cfg.version))
  }

  function Truthy(info: Info): Info {
    map k | k in info && info[k] != "" :: info[k]
  }

  /** _transition: the record it logs, the ledger it leaves, the events it publishes. */
  function TransitionFrame(core: Core, e: RequestState, event: Event, eventId: string, row: Row, guard: bool,
                           cfg: Config, rawInfo: Info): Frame
  {
    var info := Truthy(rawInfo);
    var rec := Rec(Some(e.rid), Some(eventId), e.sequence + 1, Some(e.phase), event, guard, Some(row.next),
                   cfg.version, row.emit, if info == map[] then None else Some(info), None, None);
    var e' := Applied(e, event, Some(eventId), row, info);
    Frame(rec, core.(ledger := core.ledger.Put(e')),
          RowMessages(e', row, DecisionOf(row, if guard then "permit" else "block"), cfg, info))
  }

  // -- admission and routing -----------------------------------------------

  predicate HasKey(env: Envelope, key: string)
    requires env.Envelope?
  {
    key in env.payload || (key == "snapshot" && env.snapshot.Some?)
  }

  function FirstMissing(required: seq<string>, env: Envelope): Option<string>
    requires env.Envelope?
  {
    if required == [] then None
    else if !HasKey(env, required[0]) then Some(required[0])
    else FirstMissing(required[1..], env)
  }

  /** admission.decide: the refusal, if any. */
  function Decide(env: Envelope, cfg: Config, halted: bool, active: nat): Option<string>
    requires env.Envelope?
  {
    if halted then Some("admission.halted")
    else if active >= cfg.maxActive then Some("admission.exhausted")
    else
      var required := if env.event in cfg.schemas then cfg.schemas[env.event] else [];
      var missing := FirstMissing(required, env);
      if missing.Some? then Some("admission.schema_invalid:" + missing.value) else None
  }

  /** router.route: an owner, or the reason there is none. */
  function Route(declaredType: string, cfg: Config): Result<string, string> {
    if declaredType !in cfg.routing then Err("routing.unknown_type")
    else if cfg.routing[declaredType].Many? then Err("routing.ambiguous_type")
    else Ok(cfg.routing[declaredType].name)
  }

  function NewEntry(rid: string, declaredType: string, version: int): RequestState {
    RequestState(rid, declaredType, Created, version, map[], None, false, 0, None, 0)
  }

  predicate Reserved(e: Event) {
    e.ConfigChanged? || e.SessionWake? || e.SessionSleep? || e.Cleanup?
  }

  /** What the live code takes from its configuration without checking: admission
      finds its rows, a chained trigger finds its rows, and no table row or inbound
      event bears a name that the log uses for its own records. */
  ghost predicate Usable(cfg: Config) {
    && ConfigValid(cfg)
    && (forall k :: k in cfg.transitions ==> !Reserved(k.1))
    && Cleanup !in cfg.inbound
    && (Created, RequestReceived) in cfg.transitions
    && var row := cfg.transitions[(Created, RequestReceived)][0];
       row.chain.Some? ==> (row.next, row.chain.value) in cfg.transitions
  }

  predicate Accepted(env: Envelope, cfg: Config) {
    env.Envelope? && env.id != "" && env.event in cfg.inbound
  }

  function DeclaredTypeOf(env: Envelope): string
    requires env.Envelope?
  {
    if "declared_type" in env.payload then env.payload["declared_type"] else ""
  }

  function AdmitFrame(core: Core, env: Envelope, refusal: Option<string>): Frame
    requires env.Envelope? && env.rid.Some?
    requires Usable(core.config)
  {
    var cfg := core.config;
    var e := NewEntry(env.rid.value, DeclaredTypeOf(env), cfg.version);
    var rows := cfg.transitions[(Created, RequestReceived)];
    var row := if refusal.None? then rows[0] else rows[|rows| - 1];
    TransitionFrame(core.(ledger := core.ledger.Put(e)), e, RequestReceived, env.id, row, refusal.None?, cfg,
                    map[DeclaredType := e.declaredType, Reason := if refusal.Some? then refusal.value else ""])
  }

  function ChainFrame(core: Core, e: RequestState, eventId: string, chain: Event): Frame
    requires Usable(core.config) && (e.phase, chain) in core.config.transitions
  {
    var cfg := core.config;
    var owner := Route(e.declaredType, cfg);
    var rows := cfg.transitions[(e.phase, chain)];
    var row := if owner.Ok? then rows[0] else rows[|rows| - 1];
    TransitionFrame(core, e, chain, eventId, row, owner.Ok?, cfg,
                    map[RoutingTarget := if owner.Ok? then owner.value else "",
                        Reason := if owner.Ok? then "" else owner.error])
  }

  function Admit(k: Kernel, env: Envelope, down: Outage): Kernel
    requires env.Envelope?
    requires Usable(k.core.config)
  {
    if env.rid.None? || env.rid.value == "" then Fault(k, MissingId, Some(env.id), env.rid, down)
    else
      var cfg := k.core.config;
      var refusal := Decide(env, cfg, k.io.halted, k.core.ledger.ActiveCount());
      var f := AdmitFrame(k.core, env, refusal);
      var k1 := Commit(k, f, down);
      var row := cfg.transitions[(Created, RequestReceived)][0];
      if refusal.None? && row.chain.Some? then
        Commit(k1, ChainFrame(f.core, f.core.ledger.entries[env.rid.value], env.id, row.chain.value), down)
      else k1
  }

  // -- the other events ----------------------------------------------------

  /** In-flight requests stay pinned to the snapshot they started under. */
  function PinnedConfig(core: Core, e: RequestState): Config {
    if e.cfgVersion in core.configs then core.configs[e.cfgVersion] else core.config
  }

  /** The frame of row i of the list looked up for an in-flight request. */
  function ApplyFrame(core: Core, e: RequestState, event: Event, eventId: string, rows: seq<Row>, i: nat): Frame
    requires i < |rows|
  {
    TransitionFrame(core, e, event, eventId, rows[i], Permits(rows, i), PinnedConfig(core, e), map[])
  }

  function Apply(k: Kernel, e: RequestState, env: Envelope, down: Outage): Kernel
    requires env.Envelope?
  {
    var cfg := PinnedConfig(k.core, e);
    var rows := cfg.Rows(e.phase, env.event);
    if rows.None? then Fault(k, Unmatched(e.phase, env.event), Some(env.id), env.rid, down)
    else
      var i := PickRow(rows.value, e, cfg);
      if i.None? then Fault(k, NoRow(e.phase, env.event), Some(env.id), env.rid, down)
      else
        Commit(k, ApplyFrame(k.core, e, env.event, env.id, rows.value, i.value), down)
  }

  function NoopFrame(core: Core, e: RequestState, env: Envelope): Frame
    requires env.Envelope?
  {
    Frame(Rec(Some(e.rid), Some(env.id), e.sequence, Some(e.phase), env.event, false, Some(e.phase), e.cfgVersion, [],
              None, Some("duplicate"), None), core, [])
  }

  function ConfigFrame(core: Core, cfg: Config): Frame {
    Frame(Rec(None, None, 0, None, ConfigChanged, true, None, cfg.version, [], None, None, Some(Snap(cfg))),
          Install(core, cfg), [])
  }

  function SessionFrame(core: Core, event: Event): Frame {
    Frame(Rec(None, None, 0, None, event, true, None, core.config.version, [], None, None, None), core, [])
  }

  function CleanupFrame(core: Core, e: RequestState): Frame {
    Frame(Rec(Some(e.rid), None, e.sequence + 1, Some(e.phase), Cleanup, true, Some(OtherPhase("cleanup")),
              e.cfgVersion, [], None, None, None),
          core.(ledger := core.ledger.Evict(e.rid)), [])
  }

  /** Eviction at the session boundary, over the ids listed when it began. */
  function EvictTerminal(k: Kernel, ids: seq<string>, down: Outage): Kernel
    decreases |ids|
  {
    if ids == [] then k
    else
      var r := ids[0];
      var k1 := if r in k.core.ledger.entries && k.core.ledger.entries[r].phase.Terminal()
                then Commit(k, CleanupFrame(k.core, k.core.ledger.entries[r]), down) else k;
      EvictTerminal(k1, ids[1..], down)
  }

  function Session(k: Kernel, event: Event, down: Outage): Kernel {
    var k1 := Commit(k, SessionFrame(k.core, event), down);
    if event.SessionSleep? then EvictTerminal(k1, k1.core.ledger.order, down) else k1
  }

  function Reconfigure(k: Kernel, env: Envelope, down: Outage): Kernel
    requires env.Envelope?
  {
    if env.snapshot.Some? && SnapshotValid(env.snapshot.value) then
      Commit(k, ConfigFrame(k.core, env.snapshot.value.cfg), down)
    else Fault(k, ConfigInvalid, Some(env.id), env.rid, down)
  }

  /** A well-formed envelope about one request. */
  function HandleRequest(k: Kernel, env: Envelope, down: Outage): Kernel
    requires Usable(k.core.config) && env.Envelope?
  {
    var entries := k.core.ledger.entries;
    if env.rid.Some? && env.rid.value in entries then
      var e := entries[env.rid.value];
      if e.lastEvent == Some(env.id) then Commit(k, NoopFrame(k.core, e, env), down)
      else if env.event.RequestReceived? then Fault(k, Unmatched(e.phase, env.event), Some(env.id), env.rid, down)
      else Apply(k, e, env, down)
    else if env.event.RequestReceived? then Admit(k, env, down)
    else Fault(k, UnknownRequest(env.event), Some(env.id), env.rid, down)
  }

  function Reject(k: Kernel, env: Envelope, down: Outage): Kernel {
    match env
    case Junk => Fault(k, BadEnvelope, None, None, down)
    case Incomplete(id, rid) => Fault(k, BadEnvelope, id, rid, down)
    case Envelope(id, _, rid, _, _) => Fault(k, BadEnvelope, Some(id), rid, down)
  }

  /** handle: one envelope. */
  function Handle(k: Kernel, env: Envelope, down: Outage): Kernel
    requires Usable(k.core.config)
  {
    if !Accepted(env, k.core.config) then Reject(k, env, down)
    else if env.event.ConfigChanged? then Reconfigure(k, env, down)
    else if env.event.SessionWake? || env.event.SessionSleep? then Session(k, env.event, down)
    else HandleRequest(k, env, down)
  }

  // -- recovery by replay --------------------------------------------------

  /** What replay finds for a transition record: the configuration, the entry, the row. */
  datatype Found = Found(cfg: Config, e: RequestState, row: Row)

  /** The checks of `recover` on a transition record: recompute and compare. Err
      carries the state a deviation leaves behind. */
  function Locate(core: Core, rec: Rec): Result<Found, Core> {
    if rec.rid.None? || rec.cfgVersion !in core.configs then Err(core)
    else
      var cfg := core.configs[rec.cfgVersion];
      var rid := rec.rid.value;
      var known := rid in core.ledger.entries;
      if !known && !rec.event.RequestReceived? then Err(core)
      else
        var declared := if rec.info.Some? && DeclaredType in rec.info.value then rec.info.value[DeclaredType] else "";
        var e := if known then core.ledger.entries[rid] else NewEntry(rid, declared, rec.cfgVersion);
        var core1 := core.(ledger := core.ledger.Put(e));
        var rows := cfg.Rows(e.phase, rec.event);
        if rows.None? || rows.value == [] || rec.prior != Some(e.phase) || rec.sequence != e.sequence + 1 then Err(core1)
        else
          var row := if rec.guard then rows.value[0] else rows.value[|rows.value| - 1];
          var expected := Rec(Some(rid), rec.eventId, e.sequence + 1, Some(e.phase), rec.event, rec.guard,
                              Some(row.next), cfg.version, row.emit, rec.info, None, None);
          if expected != rec then Err(core1) else Ok(Found(cfg, e, row))
  }

  /** Applying a transition record that passed the checks. */
  function ReplayFrame(core: Core, rec: Rec, at: Found): Frame {
    var info := if rec.info.Some? then rec.info.value else map[];
    var e' := Applied(at.e, rec.event, rec.eventId, at.row, info);
    Frame(rec, core.(ledger := core.ledger.Put(at.e).Put(e')),
          RowMessages(e', at.row, DecisionOf(at.row, if rec.guard then "permit" else "block"), at.cfg, info))
  }

  function ReplayTransition(core: Core, rec: Rec): Result<Frame, Core> {
    match Locate(core, rec)
    case Err(left) => Err(left)
    case Ok(at) => Ok(ReplayFrame(core, rec, at))
  }

  function ReplayRecord(core: Core, rec: Rec): Result<Frame, Core> {
    if rec.event.ConfigChanged? then
      if rec.snapshot.Some? && SnapshotValid(rec.snapshot.value)
      then Ok(Frame(rec, Install(core, rec.snapshot.value.cfg), [])) else Err(core)
    else if rec.event.SessionWake? || rec.event.SessionSleep? then Ok(Frame(rec, core, []))
    else if rec.event.Cleanup? then
      Ok(Frame(rec, if rec.rid.Some? then core.(ledger := core.ledger.Evict(rec.rid.value)) else core, []))
    else if rec.verdict.Some? then Ok(Frame(rec, core, []))
    else ReplayTransition(core, rec)
  }

  type Published = Option<set<(string, int)>>

  /** The events re-published for a replayed record. */
  function ToPublish(f: Frame, published: Published): seq<Message> {
    if published.Some? && f.rec.rid.Some? && (f.rec.rid.value, f.rec.sequence) !in published.value then f.emitted
    else []
  }

  /** How one record is replayed: the frame it yields, or the state a deviation leaves. */
  type Replayer = (Core, Rec) -> Result<Frame, Core>

  /** The loop of `recover`. */
  function Replay(step: Replayer, k: Kernel, records: seq<Rec>, published: Published, down: Outage): (bool, Kernel)
    decreases |records|
  {
    if records == [] then (true, k)
    else
      match step(k.core, records[0])
      case Err(core) =>
        (false, Fault(k.(core := core, io := k.io.(halted := true)), ReplayDeviation(records[0].sequence), None, None, down))
      case Ok(f) => Replay(step, Republish(k, f, published, down), records[1..], published, down)
  }

  function Republish(k: Kernel, f: Frame, published: Published, down: Outage): Kernel {
    Kernel(f.core, PublishAll(k.io, ToPublish(f, published), f.core.config.version, down), k.frames + [f])
  }

  function Recover(k: Kernel, records: seq<Rec>, published: Published, down: Outage): (bool, Kernel) {
    Replay(ReplayRecord, Kernel(k.core.(ledger := EMPTY_LEDGER), k.io.(halted := false), []), records, published, down)
  }
}
