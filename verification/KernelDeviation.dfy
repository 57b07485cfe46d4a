/** Recovery on tables other than the default one: exactly when it rebuilds what was
    there, and two tables that configuration validation accepts on which it does not. */
module KernelDeviation {
  import opened KernelTypes
  import opened KernelMachine
  import opened KernelRecovery
  import opened KernelDefault
  import opened KernelProgress
  import opened Wrappers

  // -- one record ----------------------------------------------------------------

  /** The row a live transition took and the row replay takes for its record lead to the
      same phase, publish the same events with the same content, and act alike. */
  predicate RowsAgree(row: Row, other: Row, guard: bool, e: RequestState, event: Event) {
    var otherwise := if guard then "permit" else "block";
    && other.next == row.next && other.emit == row.emit
    && DoActions(other.actions, e, event, map[]) == DoActions(row.actions, e, event, map[])
    && (GateEnforced in row.emit ==> other.gate == row.gate && DecisionOf(other, otherwise) == DecisionOf(row, otherwise))
  }

  lemma SameMessages(a: Row, b: Row, e: RequestState, guard: bool, cfg: Config)
    requires a.emit == b.emit
    ensures var otherwise := if guard then "permit" else "block";
            RowMessages(e, a, DecisionOf(a, otherwise), cfg, map[]) == RowMessages(e, b, DecisionOf(b, otherwise), cfg, map[])
            <==> (GateEnforced in a.emit ==> a.gate == b.gate && DecisionOf(a, otherwise) == DecisionOf(b, otherwise))
  {
    var otherwise := if guard then "permit" else "block";
    var ms, ns := RowMessages(e, a, DecisionOf(a, otherwise), cfg, map[]), RowMessages(e, b, DecisionOf(b, otherwise), cfg, map[]);
    if i :| 0 <= i < |a.emit| && a.emit[i] == GateEnforced {
      assert ms[i].payload == GatePayload(e.rid, a.gate, DecisionOf(a, otherwise));
      assert ns[i].payload == GatePayload(e.rid, b.gate, DecisionOf(b, otherwise));
    }
    if GateEnforced in a.emit ==> a.gate == b.gate && DecisionOf(a, otherwise) == DecisionOf(b, otherwise) {
      forall i | 0 <= i < |a.emit| ensures ms[i] == ns[i] {
        assert a.emit[i] in a.emit;
      }
    }
  }

  lemma SameEntry(a: Row, b: Row, e: RequestState, event: Event, eventId: Option<string>)
    requires a.next == b.next
    ensures Applied(e, event, eventId, a, map[]) == Applied(e, event, eventId, b, map[])
            <==> DoActions(a.actions, e, event, map[]) == DoActions(b.actions, e, event, map[])
  {
    var x, y := DoActions(a.actions, e, event, map[]), DoActions(b.actions, e, event, map[]);
    if Applied(e, event, eventId, a, map[]) == Applied(e, event, eventId, b, map[]) {
      assert x == Applied(e, event, eventId, a, map[]).(phase := x.phase, sequence := x.sequence, lastEvent := x.lastEvent);
      assert y == Applied(e, event, eventId, b, map[]).(phase := y.phase, sequence := y.sequence, lastEvent := y.lastEvent);
    }
  }

  /** What replay makes of a record logged from row i: accepted exactly when the row it
      takes has the same target and the same events, and then this. */
  lemma AcceptedExactlyWhenTargetsAgree(core: Core, e: RequestState, event: Event, eventId: string, rows: seq<Row>, i: nat)
    requires e.rid in core.ledger.entries && core.ledger.entries[e.rid] == e
    requires e.cfgVersion in core.configs && core.configs[e.cfgVersion].version == e.cfgVersion
    requires core.configs[e.cfgVersion].Rows(e.phase, event) == Some(rows)
    requires i < |rows| && !Reserved(event)
    ensures var f := ApplyFrame(core, e, event, eventId, rows, i);
            var other := rows[ReplayIndex(rows, i)];
            var guard := Permits(rows, i);
            && (ReplayRecord(core, f.rec).Ok? <==> other.next == rows[i].next && other.emit == rows[i].emit)
            && (ReplayRecord(core, f.rec).Ok? ==>
                  var e' := Applied(e, event, Some(eventId), other, map[]);
                  ReplayRecord(core, f.rec).value
                  == Frame(f.rec, core.(ledger := core.ledger.Put(e')),
                           RowMessages(e', other, DecisionOf(other, if guard then "permit" else "block"), PinnedConfig(core, e), map[])))
  {
    PutSame(core.ledger, e);
    assert Truthy(map[]) == map[];
  }

  lemma PutDiffers(l: Ledger, a: RequestState, b: RequestState)
    requires a.rid == b.rid && l.Put(a) == l.Put(b)
    ensures a == b
  {
    assert l.Put(a).entries[a.rid] == a && l.Put(b).entries[b.rid] == b;
  }

  /** A record is replayed to exactly what it recorded -- state and events -- if and only
      if the row replay takes agrees with the row that was taken. */
  lemma ReplaysExactlyWhenRowsAgree(core: Core, e: RequestState, event: Event, eventId: string, rows: seq<Row>, i: nat)
    requires e.rid in core.ledger.entries && core.ledger.entries[e.rid] == e
    requires e.cfgVersion in core.configs && core.configs[e.cfgVersion].version == e.cfgVersion
    requires core.configs[e.cfgVersion].Rows(e.phase, event) == Some(rows)
    requires i < |rows| && !Reserved(event)
    ensures var f := ApplyFrame(core, e, event, eventId, rows, i);
            ReplayRecord(core, f.rec) == Ok(f) <==> RowsAgree(rows[i], rows[ReplayIndex(rows, i)], Permits(rows, i), e, event)
  {
    var f, row, other := ApplyFrame(core, e, event, eventId, rows, i), rows[i], rows[ReplayIndex(rows, i)];
    AcceptedExactlyWhenTargetsAgree(core, e, event, eventId, rows, i);
    assert Truthy(map[]) == map[];
    if other.next == row.next && other.emit == row.emit {
      var a, b := Applied(e, event, Some(eventId), row, map[]), Applied(e, event, Some(eventId), other, map[]);
      SameEntry(row, other, e, event, Some(eventId));
      if ReplayRecord(core, f.rec) == Ok(f) {
        PutDiffers(core.ledger, a, b);
      }
      SameMessages(row, other, a, Permits(rows, i), PinnedConfig(core, e));
    }
  }

  // -- a whole log ---------------------------------------------------------------

  lemma {:induction false} ReplayExtends(step: Replayer, k: Kernel, records: seq<Rec>, published: Published, down: Outage)
    ensures k.frames <= Replay(step, k, records, published, down).1.frames
    decreases |records|
  {
    if records != [] && step(k.core, records[0]).Ok? {
      var next := Republish(k, step(k.core, records[0]).value, published, down);
      assert k.frames <= next.frames;
      ReplayExtends(step, next, records[1..], published, down);
    }
  }

  lemma {:induction false} ReplayIsExactIff(step: Replayer, k: Kernel, frames: seq<Frame>, published: Published, down: Outage)
    ensures var (ok, r) := Replay(step, k, Log(frames), published, down);
            (ok && r.frames == k.frames + frames) <==> ChainOf(step, k.core, frames)
    decreases |frames|
  {
    if frames != [] {
      var log := Log(frames);
      assert log[0] == frames[0].rec && log[1..] == Log(frames[1..]);
      if step(k.core, log[0]).Ok? {
        var g := step(k.core, log[0]).value;
        var next := Republish(k, g, published, down);
        ReplayExtends(step, next, log[1..], published, down);
        var r := Replay(step, next, log[1..], published, down).1;
        ReplayIsExactIff(step, next, frames[1..], published, down);
        assert next.frames == k.frames + [g];
        assert r.frames[|k.frames|] == g;
        assert (k.frames + frames)[|k.frames|] == frames[0];
        if g == frames[0] {
          assert k.frames + [g] + frames[1..] == k.frames + frames;
        }
      }
    }
  }

  /** Over any table and any log: recovery accepts the log and rebuilds the state after
      every record, with its events, if and only if every record replays to exactly what
      it recorded. Rows taken at admission and routing are the first or the last of their
      list by construction, so only rows looked up for an event can disagree. */
  lemma RecoveryIsExactIff(cfg: Config, wire: seq<Attempt>, frames: seq<Frame>, published: Published, down: Outage)
    ensures var (ok, r) := Recover(FreshKernel(cfg, wire), Log(frames), published, down);
            (ok && r.frames == frames) <==> Chain(FreshCore(cfg), frames)
  {
    ReplayIsExactIff(ReplayRecord, FreshKernel(cfg, wire), frames, published, down);
    assert [] + frames == frames;
  }

  /** Replaying one record more than a chained log. */
  lemma {:induction false} ReplayOneMore(step: Replayer, k: Kernel, frames: seq<Frame>, f: Frame, published: Published, down: Outage)
    requires ChainOf(step, k.core, frames)
    ensures var (ok, r) := Replay(step, k, Log(frames + [f]), published, down);
            var last := step(Last(k.core, frames), f.rec);
            && (ok <==> last.Ok?)
            && (ok ==> r.core == last.value.core)
    decreases |frames|
  {
    var log := Log(frames + [f]);
    if frames == [] {
      assert log == [f.rec] && log[1..] == [];
    } else {
      assert (frames + [f])[1..] == frames[1..] + [f];
      assert log[0] == frames[0].rec && log[1..] == Log(frames[1..] + [f]);
      ReplayOneMore(step, Republish(k, frames[0], published, down), frames[1..], f, published, down);
      LastOfRest(k.core, frames);
    }
  }

  // -- two runs that are not recovered ----------------------------------------------

  /** The default snapshot with other rows in the plan.created list. */
  function Planned(rows: seq<Row>): Config {
    DEFAULT.(transitions := DEFAULT_TRANSITIONS[(Scheduled, PlanCreated) := rows])
  }

  const ADMITTED := Envelope("e1", RequestReceived, Some("r"), map["declared_type" := "type.alpha"], None)
  const PLANNED := Envelope("e2", PlanCreated, Some("r"), map[], None)

  /** What of such a snapshot matters to this run. */
  ghost predicate Runs(cfg: Config, rows: seq<Row>) {
    && AdmitsByDefault(cfg) && cfg.Rows(Scheduled, PlanCreated) == Some(rows)
    && RequestReceived in cfg.inbound && PlanCreated in cfg.inbound
    && cfg.maxActive > 0 && cfg.maxReplans > 0 && "absent" !in cfg.gates
    && Complete(ADMITTED, cfg) && "type.alpha" in cfg.routing && cfg.routing["type.alpha"].One?
  }

  lemma PlannedRuns(rows: seq<Row>)
    requires rows != []
    ensures Runs(Planned(rows), rows) && ConfigValid(Planned(rows))
  {
    DefaultTabulated();
    DefaultAdmits(DEFAULT);
  }

  lemma AdmissionRecordReplays(cfg: Config, env: Envelope)
    requires AdmitsByDefault(cfg) && env.Envelope? && env.rid.Some?
    ensures var f := AdmitFrame(FreshCore(cfg), env, None); ReplayRecord(FreshCore(cfg), f.rec) == Ok(f)
  {
    var core := FreshCore(cfg);
    var e := NewEntry(env.rid.value, DeclaredTypeOf(env), cfg.version);
    var rows := DefaultRows(Created, RequestReceived);
    TransitionReplays(core.(ledger := core.ledger.Put(e)), core, e, RequestReceived, env.id, rows, rows[0], true, cfg,
                      map[DeclaredType := e.declaredType, Reason := ""]);
  }

  lemma RoutingRecordReplays(core: Core, e: RequestState, eventId: string)
    requires AdmitsByDefault(core.config) && e.phase == Initialized
    requires core.config.version in core.configs && core.configs[core.config.version] == core.config
    requires e.rid in core.ledger.entries && core.ledger.entries[e.rid] == e
    ensures (e.phase, Routing) in core.config.transitions
    ensures var f := ChainFrame(core, e, eventId, Routing); ReplayRecord(core, f.rec) == Ok(f)
  {
    var rows := DefaultRows(Initialized, Routing);
    var owner := Route(e.declaredType, core.config);
    var info: Info := map[RoutingTarget := if owner.Ok? then owner.value else "", Reason := if owner.Ok? then "" else owner.error];
    PutSame(core.ledger, e);
    TransitionReplays(core, core, e, Routing, eventId, rows, if owner.Ok? then rows[0] else rows[|rows| - 1], owner.Ok?, core.config, info);
  }

  lemma TwoInChain(start: Core, a: Frame, b: Frame)
    requires ReplayRecord(start, a.rec) == Ok(a) && ReplayRecord(a.core, b.rec) == Ok(b)
    ensures Chain(start, [a, b]) && Last(start, [a, b]) == b.core
  {
    assert [a, b][1..] == [b] && [b][1..] == [];
  }

  /** The request is scheduled, and nothing has been replanned. */
  ghost predicate ScheduledIn(c: Core, e: RequestState, cfg: Config) {
    && c.config == cfg && c.configs == map[cfg.version := cfg]
    && e.rid == "r" && e.rid in c.ledger.entries && c.ledger.entries[e.rid] == e
    && e.phase == Scheduled && e.cfgVersion == cfg.version && e.replans == 0 && e.lastEvent == Some("e1")
  }

  /** The request is admitted and scheduled, and its two records replay. */
  lemma FirstRecord(cfg: Config, rows: seq<Row>)
    requires Runs(cfg, rows)
    ensures var core := AdmitFrame(FreshCore(cfg), ADMITTED, None).core;
            && core.config == cfg && core.configs == map[cfg.version := cfg]
            && "r" in core.ledger.entries
            && var e := core.ledger.entries["r"];
               && e.rid == "r" && e.phase == Initialized && e.declaredType == "type.alpha" && e.cfgVersion == cfg.version
               && e.replans == 0 && e.sequence == 1
  {
    AdmittedEntry(FreshCore(cfg), ADMITTED, "r", None);
  }

  lemma SecondRecord(core: Core, e: RequestState, cfg: Config, rows: seq<Row>)
    requires Runs(cfg, rows) && core.config == cfg && core.configs == map[cfg.version := cfg]
    requires e.rid == "r" && e.rid in core.ledger.entries && core.ledger.entries[e.rid] == e
    requires e.phase == Initialized && e.declaredType == "type.alpha" && e.cfgVersion == cfg.version && e.replans == 0
    ensures (e.phase, Routing) in core.config.transitions
    ensures var f := ChainFrame(core, e, "e1", Routing);
            ReplayRecord(core, f.rec) == Ok(f) && ScheduledIn(f.core, f.core.ledger.entries["r"], cfg)
  {
    RoutingRecordReplays(core, e, "e1");
    Routed(core, e, "e1");
  }

  lemma AdmittedTwice(cfg: Config, rows: seq<Row>, down: Outage)
    requires Runs(cfg, rows)
    ensures var a := AdmitFrame(FreshCore(cfg), ADMITTED, None);
            var k := Handle(FreshKernel(cfg, []), ADMITTED, down);
            && "r" in a.core.ledger.entries && a.core.config == cfg
            && a.core.ledger.entries["r"].phase == Initialized
            && k.frames == [a, ChainFrame(a.core, a.core.ledger.entries["r"], "e1", Routing)]
            && k.core == ChainFrame(a.core, a.core.ledger.entries["r"], "e1", Routing).core
  {
    var start := FreshKernel(cfg, []);
    assert start.core.ledger.ActiveIds() == {};
    AdmissibleDecides(start, ADMITTED);
    FirstRecord(cfg, rows);
    assert Handle(start, ADMITTED, down) == Admit(start, ADMITTED, down);
  }

  lemma AdmittedFrames(cfg: Config, rows: seq<Row>, down: Outage) returns (a: Frame, b: Frame)
    requires Runs(cfg, rows)
    ensures var k := Handle(FreshKernel(cfg, []), ADMITTED, down);
            k.frames == [a, b] && k.core == b.core
    ensures ReplayRecord(FreshCore(cfg), a.rec) == Ok(a) && ReplayRecord(a.core, b.rec) == Ok(b)
    ensures exists e :: ScheduledIn(b.core, e, cfg)
  {
    var core := FreshCore(cfg);
    a := AdmitFrame(core, ADMITTED, None);
    FirstRecord(cfg, rows);
    AdmissionRecordReplays(cfg, ADMITTED);
    var e := a.core.ledger.entries["r"];
    SecondRecord(a.core, e, cfg, rows);
    b := ChainFrame(a.core, e, "e1", Routing);
    AdmittedTwice(cfg, rows, down);
  }

  lemma AdmittedRun(cfg: Config, rows: seq<Row>, down: Outage) returns (e: RequestState)
    requires Runs(cfg, rows)
    ensures var k := Handle(FreshKernel(cfg, []), ADMITTED, down);
            && Chain(FreshCore(cfg), k.frames) && k.core == Last(FreshCore(cfg), k.frames)
            && ScheduledIn(k.core, e, cfg)
  {
    var a, b := AdmittedFrames(cfg, rows, down);
    TwoInChain(FreshCore(cfg), a, b);
    e :| ScheduledIn(b.core, e, cfg);
  }

  lemma PlannedStep(k: Kernel, e: RequestState, cfg: Config, rows: seq<Row>, i: nat, down: Outage)
    requires Runs(cfg, rows) && ScheduledIn(k.core, e, cfg) && PickRow(rows, e, cfg) == Some(i)
    ensures Usable(k.core.config)
    ensures var f := ApplyFrame(k.core, e, PlanCreated, "e2", rows, i);
            var after := Handle(k, PLANNED, down);
            after.frames == k.frames + [f] && after.core == f.core
  {
    assert PinnedConfig(k.core, e) == cfg;
    assert Handle(k, PLANNED, down) == Apply(k, e, PLANNED, down);
  }

  /** Both envelopes, one after the other. */
  ghost function TwoEnvelopes(cfg: Config, down: Outage): Kernel
    requires Usable(cfg)
  {
    After(FreshKernel(cfg, []), [ADMITTED, PLANNED], down)
  }

  /** The log of that run is replayed as its last record is. */
  lemma PlannedRun(cfg: Config, rows: seq<Row>, i: nat, published: Published, down: Outage, later: Outage)
    returns (core: Core, e: RequestState)
    requires Runs(cfg, rows) && i < |rows|
    requires forall e: RequestState :: e.replans == 0 ==> PickRow(rows, e, cfg) == Some(i)
    ensures ScheduledIn(core, e, cfg)
    ensures var k := TwoEnvelopes(cfg, down);
            var f := ApplyFrame(core, e, PlanCreated, "e2", rows, i);
            var (ok, r) := Recover(FreshKernel(cfg, []), Log(k.frames), published, later);
            && k.core == f.core
            && (ok <==> ReplayRecord(core, f.rec).Ok?)
            && (ok ==> r.core == ReplayRecord(core, f.rec).value.core)
  {
    var start := FreshKernel(cfg, []);
    e := AdmittedRun(cfg, rows, down);
    var k1 := Handle(start, ADMITTED, down);
    core := k1.core;
    PlannedStep(k1, e, cfg, rows, i, down);
    assert [ADMITTED, PLANNED] == [ADMITTED] + [PLANNED];
    assert [ADMITTED][..0] == [] && After(start, [ADMITTED], down) == k1;
    AfterOneMore(start, [ADMITTED], PLANNED, down);
    ReplayOneMore(ReplayRecord, start, k1.frames, ApplyFrame(core, e, PlanCreated, "e2", rows, i), published, later);
  }

  const THREE_ROWS := [
    Row(Some(Gate("absent")), Completed, [], "", "", [], None),
    Row(Some(ReplansRemaining), Executing, [], "", "", [], None),
    Row(None, Failed, [], "", "", [], None)]

  const QUIET_ROWS := [
    Row(Some(Gate("absent")), Completed, [], "", "", [], None),
    Row(Some(ReplansRemaining), Executing, [], "", "", [IncrementReplan], None),
    Row(None, Executing, [], "", "", [], None)]

  lemma MiddleRowPicked(rows: seq<Row>, e: RequestState, cfg: Config)
    requires rows == THREE_ROWS || rows == QUIET_ROWS
    requires cfg.maxReplans > e.replans && "absent" !in cfg.gates
    ensures PickRow(rows, e, cfg) == Some(1) && !Permits(rows, 1) && ReplayIndex(rows, 1) == 2
  {
    assert !GuardHolds(rows[0].when.value, e, cfg);
    assert GuardHolds(rows[1].when.value, e, cfg);
    assert PickFrom(rows, 1, e, cfg) == Some(1);
  }

  /** A table that configuration validation accepts and recovery does not survive: live
      handling takes the middle of three rows, replay the last, and the log of the run is
      refused as corrupt. */
  lemma MiddleRowDeviates(published: Published, down: Outage, later: Outage)
    ensures ConfigValid(Planned(THREE_ROWS)) && Usable(Planned(THREE_ROWS))
    ensures var k := TwoEnvelopes(Planned(THREE_ROWS), down);
            && "r" in k.core.ledger.entries && k.core.ledger.entries["r"].phase == Executing
            && !Recover(FreshKernel(Planned(THREE_ROWS), []), Log(k.frames), published, later).0
  {
    var cfg := Planned(THREE_ROWS);
    PlannedRuns(THREE_ROWS);
    forall e: RequestState | e.replans == 0 ensures PickRow(THREE_ROWS, e, cfg) == Some(1) {
      MiddleRowPicked(THREE_ROWS, e, cfg);
    }
    var core, e := PlannedRun(cfg, THREE_ROWS, 1, published, down, later);
    MiddleRowPicked(THREE_ROWS, e, cfg);
    AcceptedExactlyWhenTargetsAgree(core, e, PlanCreated, "e2", THREE_ROWS, 1);
  }

  /** And one on which the log is accepted and the ledger silently rebuilt wrong: the
      rows lead to the same phase, and the replan that was counted is not. */
  lemma MiddleRowCorrupts(published: Published, down: Outage, later: Outage)
    ensures ConfigValid(Planned(QUIET_ROWS)) && Usable(Planned(QUIET_ROWS))
    ensures var k := TwoEnvelopes(Planned(QUIET_ROWS), down);
            var (ok, r) := Recover(FreshKernel(Planned(QUIET_ROWS), []), Log(k.frames), published, later);
            && ok && "r" in k.core.ledger.entries && "r" in r.core.ledger.entries
            && k.core.ledger.entries["r"].replans == 1 && r.core.ledger.entries["r"].replans == 0
  {
    var cfg := Planned(QUIET_ROWS);
    PlannedRuns(QUIET_ROWS);
    forall e: RequestState | e.replans == 0 ensures PickRow(QUIET_ROWS, e, cfg) == Some(1) {
      MiddleRowPicked(QUIET_ROWS, e, cfg);
    }
    var core, e := PlannedRun(cfg, QUIET_ROWS, 1, published, down, later);
    MiddleRowPicked(QUIET_ROWS, e, cfg);
    AcceptedExactlyWhenTargetsAgree(core, e, PlanCreated, "e2", QUIET_ROWS, 1);
    OneAction(QUIET_ROWS[1], e, PlanCreated, map[]);
  }
}
