/** Crash recovery is exact: replaying any prefix of the log a run has written
    rebuilds the state as it stood there, and re-publishes exactly the row-driven
    events that were not acknowledged. */
module KernelRecovery {
  import opened KernelTypes
  import opened KernelMachine
  import opened Orders
  import opened Wrappers

  // -- the condition on transition tables -----------------------------------

  /** The row replay chooses for a record the live machine logged from row i. */
  function ReplayIndex(rows: seq<Row>, i: nat): (j: nat)
    requires i < |rows|
    ensures j < |rows|
  {
    if Permits(rows, i) then 0 else |rows| - 1
  }

  /** Rows the live machine can pick: nothing unconditional stands before them. */
  predicate Pickable(rows: seq<Row>, i: nat)
    requires i < |rows|
  {
    forall j :: 0 <= j < i ==> rows[j].when.Some?
  }

  /** Two rows that differ at most in guard and chained trigger. */
  predicate SameEffect(a: Row, b: Row) {
    a.next == b.next && a.emit == b.emit && a.actions == b.actions && a.gate == b.gate && a.decision == b.decision
  }

  /** A row logged with a true guard is first, one logged with false is last
      (or does the same as the one that is). */
  ghost predicate Replayable(cfg: Config) {
    forall k, i :: k in cfg.transitions && 0 <= i < |cfg.transitions[k]| && Pickable(cfg.transitions[k], i) ==>
      SameEffect(cfg.transitions[k][i], cfg.transitions[k][ReplayIndex(cfg.transitions[k], i)])
  }

  ghost predicate Sound(cfg: Config) {
    Usable(cfg) && Replayable(cfg)
  }

  // -- invariant of the live machine -----------------------------------------

  ghost predicate CoreOk(c: Core) {
    && c.ledger.Valid()
    && Sound(c.config)
    && (forall v :: v in c.configs ==> c.configs[v].version == v && Sound(c.configs[v]))
    && c.config.version in c.configs && c.configs[c.config.version] == c.config
    && (forall r :: r in c.ledger.entries ==> c.ledger.entries[r].cfgVersion in c.configs)
  }

  /** The state after a stretch of the log that began in `start`. */
  function Last(start: Core, frames: seq<Frame>): Core {
    if frames == [] then start else frames[|frames| - 1].core
  }

  /** Replaying the record of each frame on the state before it gives that frame. */
  ghost predicate ChainOf(step: Replayer, start: Core, frames: seq<Frame>)
    decreases |frames|
  {
    frames == [] || (step(start, frames[0].rec) == Ok(frames[0]) && ChainOf(step, frames[0].core, frames[1..]))
  }

  ghost predicate Chain(start: Core, frames: seq<Frame>) {
    ChainOf(ReplayRecord, start, frames)
  }

  ghost predicate Cores(frames: seq<Frame>) {
    forall i :: 0 <= i < |frames| ==> CoreOk(frames[i].core)
  }

  ghost predicate KernelOk(start: Core, k: Kernel) {
    && CoreOk(k.core) && Cores(k.frames)
    && Chain(start, k.frames)
    && k.core == Last(start, k.frames)
  }

  /** Every snapshot the envelope could install satisfies the table condition. */
  ghost predicate EnvSound(env: Envelope) {
    env.Envelope? && env.snapshot.Some? && SnapshotValid(env.snapshot.value) ==> Sound(env.snapshot.value.cfg)
  }

  // -- one record at a time ----------------------------------------------------

  lemma SameEffectApplied(a: Row, b: Row, e: RequestState, event: Event, eventId: Option<string>, info: Info,
                          decision: string, cfg: Config)
    requires SameEffect(a, b)
    ensures Applied(e, event, eventId, a, info) == Applied(e, event, eventId, b, info)
    ensures RowMessages(e, a, decision, cfg, info) == RowMessages(e, b, decision, cfg, info)
  {
    forall i | 0 <= i < |a.emit|
      ensures RowMessages(e, a, decision, cfg, info)[i] == RowMessages(e, b, decision, cfg, info)[i]
    {
    }
  }

  /** A transition the live machine logs from row i of the list it looked up is
      replayed to the same frame, when replay's row does the same. */
  lemma TransitionReplays(core: Core, base: Core, e: RequestState, event: Event, eventId: string, rows: seq<Row>, row: Row,
                          guard: bool, cfg: Config, info: Info)
    requires rows != [] && cfg.Rows(e.phase, event) == Some(rows)
    requires cfg.version in base.configs && base.configs[cfg.version] == cfg
    requires !Reserved(event)
    requires SameEffect(row, if guard then rows[0] else rows[|rows| - 1])
    requires core == base.(ledger := base.ledger.Put(e))
    requires if e.rid in base.ledger.entries then base.ledger.entries[e.rid] == e
             else event == RequestReceived
                  && e == NewEntry(e.rid, if DeclaredType in Truthy(info) then Truthy(info)[DeclaredType] else "", cfg.version)
    ensures ReplayRecord(base, TransitionFrame(core, e, event, eventId, row, guard, cfg, info).rec)
            == Ok(TransitionFrame(core, e, event, eventId, row, guard, cfg, info))
  {
    var f := TransitionFrame(core, e, event, eventId, row, guard, cfg, info);
    var chosen := if guard then rows[0] else rows[|rows| - 1];
    var kept := Truthy(info);
    var decision := DecisionOf(row, if guard then "permit" else "block");
    SameEffectApplied(row, chosen, e, event, Some(eventId), kept, decision, cfg);
    SameEffectApplied(row, chosen, Applied(e, event, Some(eventId), row, kept), event, Some(eventId), kept, decision, cfg);
    assert (if f.rec.info.Some? then f.rec.info.value else map[]) == kept;
  }

  lemma PutSame(l: Ledger, e: RequestState)
    requires e.rid in l.entries && l.entries[e.rid] == e
    ensures l.Put(e) == l
  {
    assert l.entries[e.rid := e] == l.entries;
  }

  lemma PutTwice(l: Ledger, a: RequestState, b: RequestState)
    requires a.rid == b.rid
    ensures l.Put(a).Put(b) == l.Put(b)
  {
    assert l.entries[a.rid := a][b.rid := b] == l.entries[b.rid := b];
  }

  // -- the machine keeps the chain ----------------------------------------------

  lemma {:induction false} ChainAppend(step: Replayer, start: Core, frames: seq<Frame>, f: Frame)
    requires ChainOf(step, start, frames) && step(Last(start, frames), f.rec) == Ok(f)
    ensures ChainOf(step, start, frames + [f])
    decreases |frames|
  {
    if frames == [] {
      assert ([f])[1..] == [];
    } else {
      assert Last(frames[0].core, frames[1..]) == Last(start, frames);
      ChainAppend(step, frames[0].core, frames[1..], f);
      assert (frames + [f])[1..] == frames[1..] + [f];
    }
  }

  lemma {:induction false} ChainPrefix(step: Replayer, start: Core, frames: seq<Frame>, n: nat)
    requires ChainOf(step, start, frames) && n <= |frames|
    ensures ChainOf(step, start, frames[..n])
    decreases |frames|
  {
    if n > 0 {
      ChainPrefix(step, frames[0].core, frames[1..], n - 1);
      assert frames[..n][1..] == frames[1..][..n - 1];
    }
  }

  lemma CommitKeeps(start: Core, k: Kernel, f: Frame, down: Outage)
    requires KernelOk(start, k)
    requires CoreOk(f.core) && ReplayRecord(k.core, f.rec) == Ok(f)
    ensures KernelOk(start, Commit(k, f, down))
  {
    ChainAppend(ReplayRecord, start, k.frames, f);
  }

  lemma TransitionKeepsCore(core: Core, e: RequestState, event: Event, eventId: string, row: Row, guard: bool,
                            cfg: Config, info: Info)
    requires CoreOk(core) && e.cfgVersion in core.configs
    ensures CoreOk(TransitionFrame(core, e, event, eventId, row, guard, cfg, info).core)
  {
  }

  lemma ApplyFrameReplays(core: Core, e: RequestState, event: Event, eventId: string, rows: seq<Row>, i: nat)
    requires CoreOk(core)
    requires e.rid in core.ledger.entries && core.ledger.entries[e.rid] == e
    requires PinnedConfig(core, e).Rows(e.phase, event) == Some(rows)
    requires i < |rows| && Pickable(rows, i)
    ensures ReplayRecord(core, ApplyFrame(core, e, event, eventId, rows, i).rec) == Ok(ApplyFrame(core, e, event, eventId, rows, i))
    ensures CoreOk(ApplyFrame(core, e, event, eventId, rows, i).core)
  {
    var cfg := PinnedConfig(core, e);
    assert Sound(cfg) && cfg == core.configs[e.cfgVersion] && cfg.version == e.cfgVersion;
    assert (e.phase, event) in cfg.transitions && rows == cfg.transitions[(e.phase, event)];
    PutSame(core.ledger, e);
    TransitionReplays(core, core, e, event, eventId, rows, rows[i], Permits(rows, i), cfg, map[]);
    TransitionKeepsCore(core, e, event, eventId, rows[i], Permits(rows, i), cfg, map[]);
  }

  lemma ApplyKeeps(start: Core, k: Kernel, e: RequestState, env: Envelope, down: Outage)
    requires KernelOk(start, k)
    requires env.Envelope?
    requires e.rid in k.core.ledger.entries && k.core.ledger.entries[e.rid] == e
    ensures KernelOk(start, Apply(k, e, env, down))
  {
    var cfg := PinnedConfig(k.core, e);
    var rows := cfg.Rows(e.phase, env.event);
    if rows.Some? {
      var i := PickRow(rows.value, e, cfg);
      if i.Some? {
        ApplyFrameReplays(k.core, e, env.event, env.id, rows.value, i.value);
        CommitKeeps(start, k, ApplyFrame(k.core, e, env.event, env.id, rows.value, i.value), down);
      }
    }
  }

  lemma AdmitFrameReplays(core: Core, env: Envelope, refusal: Option<string>)
    requires CoreOk(core)
    requires env.Envelope? && env.rid.Some? && env.rid.value !in core.ledger.entries
    ensures ReplayRecord(core, AdmitFrame(core, env, refusal).rec) == Ok(AdmitFrame(core, env, refusal))
    ensures CoreOk(AdmitFrame(core, env, refusal).core)
  {
    var cfg := core.config;
    var e := NewEntry(env.rid.value, DeclaredTypeOf(env), cfg.version);
    var rows := cfg.transitions[(Created, RequestReceived)];
    var row := if refusal.None? then rows[0] else rows[|rows| - 1];
    var base := core.(ledger := core.ledger.Put(e));
    var info: Info := map[DeclaredType := e.declaredType, Reason := if refusal.Some? then refusal.value else ""];
    assert CoreOk(base);
    TransitionReplays(base, core, e, RequestReceived, env.id, rows, row, refusal.None?, cfg, info);
    TransitionKeepsCore(base, e, RequestReceived, env.id, row, refusal.None?, cfg, info);
  }

  lemma ChainFrameReplays(core: Core, e: RequestState, eventId: string, chain: Event)
    requires CoreOk(core) && (e.phase, chain) in core.config.transitions
    requires e.rid in core.ledger.entries && core.ledger.entries[e.rid] == e
    ensures ReplayRecord(core, ChainFrame(core, e, eventId, chain).rec) == Ok(ChainFrame(core, e, eventId, chain))
    ensures CoreOk(ChainFrame(core, e, eventId, chain).core)
  {
    var cfg := core.config;
    var owner := Route(e.declaredType, cfg);
    var rows := cfg.transitions[(e.phase, chain)];
    var row := if owner.Ok? then rows[0] else rows[|rows| - 1];
    var info: Info := map[RoutingTarget := if owner.Ok? then owner.value else "",
                          Reason := if owner.Ok? then "" else owner.error];
    PutSame(core.ledger, e);
    TransitionReplays(core, core, e, chain, eventId, rows, row, owner.Ok?, cfg, info);
    TransitionKeepsCore(core, e, chain, eventId, row, owner.Ok?, cfg, info);
  }

  lemma AdmitKeeps(start: Core, k: Kernel, env: Envelope, down: Outage)
    requires KernelOk(start, k)
    requires env.Envelope? && (env.rid.Some? ==> env.rid.value !in k.core.ledger.entries)
    ensures KernelOk(start, Admit(k, env, down))
  {
    if env.rid.Some? && env.rid.value != "" {
      var cfg := k.core.config;
      var refusal := Decide(env, cfg, k.io.halted, k.core.ledger.ActiveCount());
      var f := AdmitFrame(k.core, env, refusal);
      AdmitFrameReplays(k.core, env, refusal);
      CommitKeeps(start, k, f, down);
      var row := cfg.transitions[(Created, RequestReceived)][0];
      if refusal.None? && row.chain.Some? {
        var e := f.core.ledger.entries[env.rid.value];
        ChainFrameReplays(f.core, e, env.id, row.chain.value);
        CommitKeeps(start, Commit(k, f, down), ChainFrame(f.core, e, env.id, row.chain.value), down);
      }
    }
  }

  lemma {:induction false} EvictKeeps(start: Core, k: Kernel, ids: seq<string>, down: Outage)
    requires KernelOk(start, k)
    ensures KernelOk(start, EvictTerminal(k, ids, down))
    decreases |ids|
  {
    if ids != [] {
      var r := ids[0];
      if r in k.core.ledger.entries && k.core.ledger.entries[r].phase.Terminal() {
        var f := CleanupFrame(k.core, k.core.ledger.entries[r]);
        EvictValid(k.core.ledger, r);
        CommitKeeps(start, k, f, down);
        EvictKeeps(start, Commit(k, f, down), ids[1..], down);
      } else {
        EvictKeeps(start, k, ids[1..], down);
      }
    }
  }

  lemma NoopKeeps(start: Core, k: Kernel, e: RequestState, env: Envelope, down: Outage)
    requires KernelOk(start, k)
    requires env.Envelope? && !Reserved(env.event)
    ensures KernelOk(start, Commit(k, NoopFrame(k.core, e, env), down))
  {
    CommitKeeps(start, k, NoopFrame(k.core, e, env), down);
  }

  lemma BoundaryKeeps(start: Core, k: Kernel, env: Envelope, down: Outage)
    requires KernelOk(start, k) && EnvSound(env)
    requires env.Envelope?
    ensures KernelOk(start, Reconfigure(k, env, down))
    ensures env.event.SessionWake? || env.event.SessionSleep? ==> KernelOk(start, Session(k, env.event, down))
  {
    if env.snapshot.Some? && SnapshotValid(env.snapshot.value) {
      CommitKeeps(start, k, ConfigFrame(k.core, env.snapshot.value.cfg), down);
    }
    if env.event.SessionWake? || env.event.SessionSleep? {
      var f := SessionFrame(k.core, env.event);
      CommitKeeps(start, k, f, down);
      EvictKeeps(start, Commit(k, f, down), f.core.ledger.order, down);
    }
  }

  lemma FaultKeeps(start: Core, k: Kernel, reason: FaultReason, eventId: Option<string>, about: Option<string>, down: Outage)
    requires KernelOk(start, k)
    ensures KernelOk(start, Fault(k, reason, eventId, about, down))
  {
  }

  lemma RequestKeeps(start: Core, k: Kernel, env: Envelope, down: Outage)
    requires KernelOk(start, k)
    requires env.Envelope? && !Reserved(env.event)
    ensures KernelOk(start, HandleRequest(k, env, down))
  {
    if env.rid.Some? && env.rid.value in k.core.ledger.entries {
      var e := k.core.ledger.entries[env.rid.value];
      if e.lastEvent == Some(env.id) {
        NoopKeeps(start, k, e, env, down);
      } else if env.event.RequestReceived? {
        FaultKeeps(start, k, Unmatched(e.phase, env.event), Some(env.id), env.rid, down);
      } else {
        ApplyKeeps(start, k, e, env, down);
      }
    } else if env.event.RequestReceived? {
      AdmitKeeps(start, k, env, down);
    } else {
      FaultKeeps(start, k, UnknownRequest(env.event), Some(env.id), env.rid, down);
    }
  }

  /** One envelope, whatever it is and whatever the bus does, keeps the log replayable. */
  lemma HandleKeeps(start: Core, k: Kernel, env: Envelope, down: Outage)
    requires KernelOk(start, k) && EnvSound(env)
    ensures KernelOk(start, Handle(k, env, down))
  {
    if Accepted(env, k.core.config) {
      if env.event.ConfigChanged? || env.event.SessionWake? || env.event.SessionSleep? {
        BoundaryKeeps(start, k, env, down);
      } else {
        assert !Reserved(env.event);
        RequestKeeps(start, k, env, down);
      }
    } else {
      assert Handle(k, env, down).(io := k.io) == k;
    }
  }

  // -- row-driven events on the wire ---------------------------------------------

  function RowEvents(wire: seq<Attempt>): seq<Message> {
    if wire == [] then []
    else
      var last := wire[|wire| - 1].message;
      RowEvents(wire[..|wire| - 1]) + if last.RowMessage? then [last] else []
  }

  predicate RowOnly(ms: seq<Message>) {
    forall m :: m in ms ==> m.RowMessage?
  }

  /** What replay re-publishes of a stretch of the log, and everything that stretch published. */
  function Emissions(frames: seq<Frame>, published: Published): seq<Message> {
    if frames == [] then [] else ToPublish(frames[0], published) + Emissions(frames[1..], published)
  }

  function Emitted(frames: seq<Frame>): seq<Message> {
    if frames == [] then [] else frames[0].emitted + Emitted(frames[1..])
  }

  lemma {:induction false} EmittedAppend(frames: seq<Frame>, f: Frame)
    ensures Emitted(frames + [f]) == Emitted(frames) + f.emitted
  {
    if frames == [] {
      assert frames + [f] == [f];
    } else {
      EmittedAppend(frames[1..], f);
      assert (frames + [f])[1..] == frames[1..] + [f];
    }
  }

  lemma SafePublishRows(io: Io, m: Message, version: int, down: Outage)
    ensures RowEvents(SafePublish(io, m, version, down).wire) == RowEvents(io.wire) + if m.RowMessage? then [m] else []
  {
    var one := io.wire + [Attempt(m, !down(|io.wire|))];
    assert one[..|one| - 1] == io.wire;
    var two := SafePublish(io, m, version, down).wire;
    if two != one {
      assert two[..|two| - 1] == one;
    }
  }

  lemma {:induction false} PublishAllRows(io: Io, ms: seq<Message>, version: int, down: Outage)
    requires RowOnly(ms)
    ensures RowEvents(PublishAll(io, ms, version, down).wire) == RowEvents(io.wire) + ms
    decreases |ms|
  {
    if ms != [] {
      SafePublishRows(io, ms[0], version, down);
      PublishAllRows(SafePublish(io, ms[0], version, down), ms[1..], version, down);
      assert ms == [ms[0]] + ms[1..];
    }
  }

  /** The wire of a life without restarts shows, in order, what its log says. */
  ghost predicate Wired(k: Kernel) {
    && RowEvents(k.io.wire) == Emitted(k.frames)
    && forall i :: 0 <= i < |k.frames| ==> RowOnly(k.frames[i].emitted)
  }

  /** Same log, same row-driven events on the wire. */
  lemma WiredStays(k: Kernel, next: Kernel)
    requires Wired(k) && next.frames == k.frames && RowEvents(next.io.wire) == RowEvents(k.io.wire)
    ensures Wired(next)
  {
  }

  /** One more frame, and its events on the wire. */
  lemma WiredGrows(k: Kernel, next: Kernel, f: Frame)
    requires Wired(k) && RowOnly(f.emitted)
    requires next.frames == k.frames + [f] && RowEvents(next.io.wire) == RowEvents(k.io.wire) + f.emitted
    ensures Wired(next)
  {
    EmittedAppend(k.frames, f);
  }

  lemma FaultRows(k: Kernel, reason: FaultReason, eventId: Option<string>, about: Option<string>, down: Outage)
    ensures RowEvents(Fault(k, reason, eventId, about, down).io.wire) == RowEvents(k.io.wire)
  {
    var version := k.core.config.version;
    var io, m := k.io.(outSeq := k.io.outSeq + 1), FaultMessage(k.io.outSeq + 1, reason, eventId, about, version);
    SafePublishRows(io, m, version, down);
    assert Fault(k, reason, eventId, about, down).io == SafePublish(io, m, version, down);
    assert !m.RowMessage? && RowEvents(io.wire) + [] == RowEvents(k.io.wire);
  }

  lemma FaultWired(k: Kernel, reason: FaultReason, eventId: Option<string>, about: Option<string>, down: Outage)
    requires Wired(k)
    ensures Wired(Fault(k, reason, eventId, about, down))
  {
    FaultRows(k, reason, eventId, about, down);
    WiredStays(k, Fault(k, reason, eventId, about, down));
  }

  lemma CommitRows(k: Kernel, f: Frame, down: Outage)
    requires RowOnly(f.emitted)
    ensures RowEvents(Commit(k, f, down).io.wire) == RowEvents(k.io.wire) + f.emitted
  {
    var version := f.core.config.version;
    SafePublishRows(k.io, LogMessage(f.rec), version, down);
    PublishAllRows(SafePublish(k.io, LogMessage(f.rec), version, down), f.emitted, version, down);
  }

  lemma CommitWired(k: Kernel, f: Frame, down: Outage)
    requires Wired(k) && RowOnly(f.emitted)
    ensures Wired(Commit(k, f, down))
  {
    CommitRows(k, f, down);
    WiredGrows(k, Commit(k, f, down), f);
  }

  lemma {:induction false} EvictWired(k: Kernel, ids: seq<string>, down: Outage)
    requires Wired(k)
    ensures Wired(EvictTerminal(k, ids, down))
    decreases |ids|
  {
    if ids != [] {
      var r := ids[0];
      if r in k.core.ledger.entries && k.core.ledger.entries[r].phase.Terminal() {
        CommitWired(k, CleanupFrame(k.core, k.core.ledger.entries[r]), down);
      }
      EvictWired(if r in k.core.ledger.entries && k.core.ledger.entries[r].phase.Terminal()
                 then Commit(k, CleanupFrame(k.core, k.core.ledger.entries[r]), down) else k, ids[1..], down);
    }
  }

  lemma AdmitWired(k: Kernel, env: Envelope, down: Outage)
    requires Wired(k) && env.Envelope? && Usable(k.core.config)
    ensures Wired(Admit(k, env, down))
  {
    if env.rid.None? || env.rid.value == "" {
      FaultWired(k, MissingId, Some(env.id), env.rid, down);
    } else {
      var refusal := Decide(env, k.core.config, k.io.halted, k.core.ledger.ActiveCount());
      var f := AdmitFrame(k.core, env, refusal);
      CommitWired(k, f, down);
      var row := k.core.config.transitions[(Created, RequestReceived)][0];
      if refusal.None? && row.chain.Some? {
        CommitWired(Commit(k, f, down), ChainFrame(f.core, f.core.ledger.entries[env.rid.value], env.id, row.chain.value), down);
      }
    }
  }

  lemma ApplyWired(k: Kernel, e: RequestState, env: Envelope, down: Outage)
    requires Wired(k) && env.Envelope?
    ensures Wired(Apply(k, e, env, down))
  {
    var rows := PinnedConfig(k.core, e).Rows(e.phase, env.event);
    FaultWired(k, Unmatched(e.phase, env.event), Some(env.id), env.rid, down);
    FaultWired(k, NoRow(e.phase, env.event), Some(env.id), env.rid, down);
    if rows.Some? {
      var i := PickRow(rows.value, e, PinnedConfig(k.core, e));
      if i.Some? {
        CommitWired(k, ApplyFrame(k.core, e, env.event, env.id, rows.value, i.value), down);
      }
    }
  }

  lemma RequestWired(k: Kernel, env: Envelope, down: Outage)
    requires Wired(k) && Usable(k.core.config) && env.Envelope?
    ensures Wired(HandleRequest(k, env, down))
  {
    if env.rid.Some? && env.rid.value in k.core.ledger.entries {
      var e := k.core.ledger.entries[env.rid.value];
      if e.lastEvent == Some(env.id) {
        CommitWired(k, NoopFrame(k.core, e, env), down);
      } else if env.event.RequestReceived? {
        FaultWired(k, Unmatched(e.phase, env.event), Some(env.id), env.rid, down);
      } else {
        ApplyWired(k, e, env, down);
      }
    } else if env.event.RequestReceived? {
      AdmitWired(k, env, down);
    } else {
      FaultWired(k, UnknownRequest(env.event), Some(env.id), env.rid, down);
    }
  }

  lemma HandleWired(k: Kernel, env: Envelope, down: Outage)
    requires Wired(k) && Usable(k.core.config)
    ensures Wired(Handle(k, env, down))
  {
    if !Accepted(env, k.core.config) {
      match env
      case Junk => FaultWired(k, BadEnvelope, None, None, down);
      case Incomplete(id, rid) => FaultWired(k, BadEnvelope, id, rid, down);
      case Envelope(id, _, rid, _, _) => FaultWired(k, BadEnvelope, Some(id), rid, down);
    } else if env.event.ConfigChanged? {
      FaultWired(k, ConfigInvalid, Some(env.id), env.rid, down);
      if env.snapshot.Some? && SnapshotValid(env.snapshot.value) {
        CommitWired(k, ConfigFrame(k.core, env.snapshot.value.cfg), down);
      }
    } else if env.event.SessionWake? || env.event.SessionSleep? {
      var f := SessionFrame(k.core, env.event);
      CommitWired(k, f, down);
      EvictWired(Commit(k, f, down), f.core.ledger.order, down);
    } else {
      RequestWired(k, env, down);
    }
  }

  // -- runs ------------------------------------------------------------------------

  /** What can happen to a coordinator: an envelope, or a crash after which a fresh
      coordinator recovers from the first `keep` records of the log. */
  datatype Op = Deliver(env: Envelope) | Restart(keep: nat, published: Published)

  ghost predicate OpSound(op: Op) {
    op.Deliver? ==> EnvSound(op.env)
  }

  ghost predicate OpsSound(ops: seq<Op>) {
    forall i :: 0 <= i < |ops| ==> OpSound(ops[i])
  }

  lemma FreshOk(cfg: Config, wire: seq<Attempt>)
    requires Sound(cfg)
    ensures KernelOk(FreshCore(cfg), FreshKernel(cfg, wire))
  {
  }

  /** Only transitions publish, and what they publish are row-driven events. */
  ghost predicate PublishesRows(step: Replayer) {
    forall core, rec :: step(core, rec).Ok? ==>
      var f := step(core, rec).value; RowOnly(f.emitted) && (f.rec.rid.None? ==> f.emitted == [])
  }

  lemma ReplayPublishesRows()
    ensures PublishesRows(ReplayRecord)
  {
  }

  lemma ReplayOnce(step: Replayer, k: Kernel, frames: seq<Frame>, published: Published, down: Outage)
    requires frames != [] && ChainOf(step, k.core, frames)
    ensures Replay(step, k, Log(frames), published, down)
            == Replay(step, Republish(k, frames[0], published, down), Log(frames[1..]), published, down)
  {
    assert Log(frames)[0] == frames[0].rec && Log(frames)[1..] == Log(frames[1..]);
  }

  lemma RepublishRows(step: Replayer, k: Kernel, f: Frame, published: Published, down: Outage)
    requires step(k.core, f.rec) == Ok(f) && PublishesRows(step)
    ensures RowEvents(Republish(k, f, published, down).io.wire) == RowEvents(k.io.wire) + ToPublish(f, published)
  {
    PublishAllRows(k.io, ToPublish(f, published), f.core.config.version, down);
  }

  lemma LastOfRest(start: Core, frames: seq<Frame>)
    requires frames != []
    ensures Last(start, frames) == Last(frames[0].core, frames[1..])
  {
  }

  /** An accepted replay that ended where the frames end, having re-published theirs. */
  ghost predicate ReplayedTo(r: (bool, Kernel), k: Kernel, frames: seq<Frame>, published: Published) {
    && r.0 && r.1.core == Last(k.core, frames) && r.1.frames == k.frames + frames
    && RowEvents(r.1.io.wire) == RowEvents(k.io.wire) + Emissions(frames, published)
  }

  lemma OneFrameEarlier(r: (bool, Kernel), k: Kernel, next: Kernel, frames: seq<Frame>, published: Published)
    requires frames != [] && next.core == frames[0].core && next.frames == k.frames + [frames[0]]
    requires RowEvents(next.io.wire) == RowEvents(k.io.wire) + ToPublish(frames[0], published)
    requires ReplayedTo(r, next, frames[1..], published)
    ensures ReplayedTo(r, k, frames, published)
  {
    LastOfRest(k.core, frames);
    assert k.frames + [frames[0]] + frames[1..] == k.frames + frames;
    SeqAssociates(RowEvents(k.io.wire), ToPublish(frames[0], published), Emissions(frames[1..], published));
  }

  /** Replaying a chained stretch of the log walks through exactly its frames. */
  lemma {:induction false} ReplayWalks(step: Replayer, k: Kernel, frames: seq<Frame>, published: Published, down: Outage)
    requires ChainOf(step, k.core, frames) && PublishesRows(step)
    ensures ReplayedTo(Replay(step, k, Log(frames), published, down), k, frames, published)
    decreases |frames|
  {
    if frames != [] {
      var next := Republish(k, frames[0], published, down);
      ReplayOnce(step, k, frames, published, down);
      RepublishRows(step, k, frames[0], published, down);
      ReplayWalks(step, next, frames[1..], published, down);
      OneFrameEarlier(Replay(step, next, Log(frames[1..]), published, down), k, next, frames, published);
    }
  }

  lemma SeqAssociates<T>(a: seq<T>, b: seq<T>, c: seq<T>)
    ensures (a + b) + c == a + (b + c)
  {
  }

  lemma RecoverWalks(cfg: Config, wire: seq<Attempt>, frames: seq<Frame>, n: nat, published: Published, down: Outage)
    requires Chain(FreshCore(cfg), frames) && n <= |frames|
    ensures var (ok, r) := Recover(FreshKernel(cfg, wire), Log(frames)[..n], published, down);
            && ok && r.core == Last(FreshCore(cfg), frames[..n]) && r.frames == frames[..n] && Log(r.frames) == Log(frames)[..n]
            && RowEvents(r.io.wire) == RowEvents(wire) + Emissions(frames[..n], published)
  {
    ChainPrefix(ReplayRecord, FreshCore(cfg), frames, n);
    assert Log(frames)[..n] == Log(frames[..n]);
    ReplayPublishesRows();
    ReplayWalks(ReplayRecord, FreshKernel(cfg, wire), frames[..n], published, down);
  }

  /** The state after any run from a fresh coordinator. */
  ghost function Run(cfg: Config, ops: seq<Op>, down: Outage): (k: Kernel)
    requires Sound(cfg) && OpsSound(ops)
    ensures KernelOk(FreshCore(cfg), k)
  {
    FreshOk(cfg, []);
    if ops == [] then FreshKernel(cfg, [])
    else
      var k := Run(cfg, ops[..|ops| - 1], down);
      StepKeeps(cfg, k, ops[|ops| - 1], down);
      Step(cfg, k, ops[|ops| - 1], down)
  }

  ghost function Step(cfg: Config, k: Kernel, op: Op, down: Outage): Kernel
    requires Usable(k.core.config)
  {
    match op
    case Deliver(env) => Handle(k, env, down)
    case Restart(keep, published) =>
      var n := if keep <= |k.frames| then keep else |k.frames|;
      Recover(FreshKernel(cfg, k.io.wire), Log(k.frames)[..n], published, down).1
  }

  lemma StepKeeps(cfg: Config, k: Kernel, op: Op, down: Outage)
    requires Sound(cfg) && OpSound(op) && KernelOk(FreshCore(cfg), k)
    ensures KernelOk(FreshCore(cfg), Step(cfg, k, op, down))
  {
    match op
    case Deliver(env) => HandleKeeps(FreshCore(cfg), k, env, down);
    case Restart(keep, published) => RestartKeeps(cfg, k, if keep <= |k.frames| then keep else |k.frames|, published, down);
  }

  lemma RestartKeeps(cfg: Config, k: Kernel, n: nat, published: Published, down: Outage)
    requires Sound(cfg) && KernelOk(FreshCore(cfg), k) && n <= |k.frames|
    ensures KernelOk(FreshCore(cfg), Recover(FreshKernel(cfg, k.io.wire), Log(k.frames)[..n], published, down).1)
  {
    FreshOk(cfg, []);
    RecoverWalks(cfg, k.io.wire, k.frames, n, published, down);
    ChainPrefix(ReplayRecord, FreshCore(cfg), k.frames, n);
  }

  /** The main result. After any run -- any envelopes, configuration changes,
      duplicates, session boundaries, bus outages, and any number of earlier
      crashes -- `recover` on any prefix of the log, in a fresh coordinator with
      the same initial snapshot and under any outage of its own, accepts the prefix,
      rebuilds ledger and configuration as they stood when its last record was
      written, and re-publishes exactly the row-driven events of the records that
      `published` does not list. */
  lemma RecoveryIsExact(cfg: Config, ops: seq<Op>, down: Outage, n: nat, published: Published, later: Outage, wire: seq<Attempt>)
    requires Sound(cfg) && OpsSound(ops) && n <= |Run(cfg, ops, down).frames|
    ensures var frames := Run(cfg, ops, down).frames;
            var (ok, r) := Recover(FreshKernel(cfg, wire), Log(frames)[..n], published, later);
            && ok
            && r.core == Last(FreshCore(cfg), frames[..n])
            && Log(r.frames) == Log(frames)[..n]
            && RowEvents(r.io.wire) == RowEvents(wire) + Emissions(frames[..n], published)
  {
    var frames := Run(cfg, ops, down).frames;
    RecoverWalks(cfg, wire, frames, n, published, later);
  }

  /** In particular a crash at the end of a run loses nothing: recovery from the
      whole log is the state the run ended in. */
  lemma RecoveryResumes(cfg: Config, ops: seq<Op>, down: Outage, published: Published, later: Outage)
    requires Sound(cfg) && OpsSound(ops)
    ensures var k := Run(cfg, ops, down);
            var (ok, r) := Recover(FreshKernel(cfg, []), Log(k.frames), published, later);
            ok && r.core == k.core
  {
    var k := Run(cfg, ops, down);
    RecoveryIsExact(cfg, ops, down, |k.frames|, published, later, []);
    assert Log(k.frames)[..|k.frames|] == Log(k.frames) && k.frames[..|k.frames|] == k.frames;
  }

  // -- re-publication equals the live publication ---------------------------------------

  ghost predicate AllDelivered(ops: seq<Op>) {
    forall i :: 0 <= i < |ops| ==> ops[i].Deliver?
  }

  lemma {:induction false} RunWired(cfg: Config, ops: seq<Op>, down: Outage)
    requires Sound(cfg) && OpsSound(ops) && AllDelivered(ops)
    ensures Wired(Run(cfg, ops, down))
  {
    if ops != [] {
      var before := ops[..|ops| - 1];
      RunWired(cfg, before, down);
      HandleWired(Run(cfg, before, down), ops[|ops| - 1].env, down);
    }
  }

  lemma {:induction false} EmissionsOfNothingPublished(step: Replayer, start: Core, frames: seq<Frame>)
    requires ChainOf(step, start, frames) && PublishesRows(step)
    ensures Emissions(frames, Some({})) == Emitted(frames)
    decreases |frames|
  {
    if frames != [] {
      EmissionsOfNothingPublished(step, frames[0].core, frames[1..]);
    }
  }

  lemma WholeLogRepublished(cfg: Config, k: Kernel, later: Outage)
    requires KernelOk(FreshCore(cfg), k)
    ensures RowEvents(Recover(FreshKernel(cfg, []), Log(k.frames), Some({}), later).1.io.wire) == Emitted(k.frames)
  {
    RecoverWalks(cfg, [], k.frames, |k.frames|, Some({}), later);
    assert Log(k.frames)[..|k.frames|] == Log(k.frames) && k.frames[..|k.frames|] == k.frames;
    ReplayPublishesRows();
    EmissionsOfNothingPublished(ReplayRecord, FreshCore(cfg), k.frames);
  }

  /** With nothing acknowledged, recovery re-publishes the row-driven events of the
      live run: the same ones, in the same order, with the same ids and payloads. */
  lemma ReplayRepublishesTheRun(cfg: Config, ops: seq<Op>, down: Outage, later: Outage)
    requires Sound(cfg) && OpsSound(ops) && AllDelivered(ops)
    ensures var k := Run(cfg, ops, down);
            RowEvents(Recover(FreshKernel(cfg, []), Log(k.frames), Some({}), later).1.io.wire) == RowEvents(k.io.wire)
  {
    WholeLogRepublished(cfg, Run(cfg, ops, down), later);
    RunWired(cfg, ops, down);
  }
}
