/** The coordinator as it runs: fields updated step by step, loops over rows,
    actions, emissions, ledger ids and log records. Every method is proved against
    the state function of KernelMachine, so the results of KernelRecovery and
    KernelSafety are about this class. */
module CoordinatorClass {
  import opened KernelTypes
  import opened KernelMachine
  import KernelBoundary
  import opened Wrappers

  class Coordinator {
    var ledger: Ledger
    var halted: bool
    var log: seq<Rec>
    var configs: map<int, Config>
    var config: Config
    var outSeq: nat
    var wire: seq<Attempt>        // the calls of bus.publish so far
    const down: nat -> bool       // which of them raise

    ghost var frames: seq<Frame>  // the log with the states its records left

    ghost predicate Valid()
      reads this
    {
      log == Log(frames)
    }

    ghost function TheCore(): Core
      reads this
    {
      Core(ledger, configs, config)
    }

    ghost function TheIo(): Io
      reads this
    {
      Io(halted, outSeq, wire)
    }

    ghost function State(): Kernel
      reads this
    {
      Kernel(TheCore(), TheIo(), frames)
    }

    constructor (cfg: Config, down: nat -> bool)
      ensures Valid() && State() == FreshKernel(cfg, []) && this.down == down
    {
      ledger := EMPTY_LEDGER;
      halted, log, outSeq, wire := false, [], 0, [];
      configs, config := map[cfg.version := cfg], cfg;
      this.down := down;
      frames := [];
    }

    // -- publishing ---------------------------------------------------------

    method Publish(m: Message) returns (ok: bool)
      modifies this`wire
      ensures ok == !down(|old(wire)|) && wire == old(wire) + [Attempt(m, ok)]
    {
      ok := !down(|wire|);
      wire := wire + [Attempt(m, ok)];
    }

    method Send(m: Message)
      modifies this`wire, this`halted, this`outSeq
      ensures TheIo() == SafePublish(old(TheIo()), m, config.version, down)
      decreases if halted then 0 else 1, 0
    {
      var ok := Publish(m);
      if !ok && !halted {
        halted := true;
        Alert(CommunicationUnavailable, None, None);
      }
    }

    method Alert(reason: FaultReason, eventId: Option<string>, about: Option<string>)
      modifies this`wire, this`halted, this`outSeq
      ensures State() == Fault(old(State()), reason, eventId, about, down)
      decreases if halted then 0 else 1, 1
    {
      outSeq := outSeq + 1;
      Send(FaultMessage(outSeq, reason, eventId, about, config.version));
    }

    method AppendToLog(rec: Rec, ghost f: Frame)
      requires Valid() && f.rec == rec
      modifies this`log, this`frames, this`wire, this`halted, this`outSeq
      ensures Valid() && frames == old(frames) + [f]
      ensures TheIo() == SafePublish(old(TheIo()), LogMessage(rec), config.version, down)
    {
      log := log + [rec];
      frames := frames + [f];
      assert Log(frames) == Log(old(frames)) + [f.rec];
      Send(LogMessage(rec));
    }

    method PublishRow(e: RequestState, row: Row, decision: string, cfg: Config, info: Info)
      modifies this`wire, this`halted, this`outSeq
      ensures TheIo() == PublishAll(old(TheIo()), RowMessages(e, row, decision, cfg, info), config.version, down)
    {
      ghost var ms := RowMessages(e, row, decision, cfg, info);
      assert ms[0..] == ms;
      for i := 0 to |row.emit|
        invariant PublishAll(TheIo(), ms[i..], config.version, down) == PublishAll(old(TheIo()), ms, config.version, down)
      {
        assert ms[i..][1..] == ms[i + 1..];
        Send(RowMessage(e.rid, e.sequence, i, row.emit[i], PayloadFor(row.emit[i], e, decision, row, cfg, info), cfg.version));
      }
    }

    // -- transitions --------------------------------------------------------

    static method SelectRow(rows: seq<Row>, e: RequestState, cfg: Config) returns (picked: Option<nat>)
      ensures picked == PickRow(rows, e, cfg)
    {
      for i := 0 to |rows|
        invariant PickFrom(rows, i, e, cfg) == PickRow(rows, e, cfg)
      {
        if rows[i].when.None? || GuardHolds(rows[i].when.value, e, cfg) {
          return Some(i);
        }
      }
      return None;
    }

    static method RunActions(e0: RequestState, event: Event, eventId: Option<string>, row: Row, info: Info) returns (e: RequestState)
      ensures e == Applied(e0, event, eventId, row, info)
    {
      e := e0;
      assert row.actions[0..] == row.actions;
      for i := 0 to |row.actions|
        invariant DoActions(row.actions[i..], e, event, info) == DoActions(row.actions, e0, event, info)
      {
        assert row.actions[i..][1..] == row.actions[i + 1..];
        e := DoAction(row.actions[i], e, event, info);
      }
      e := e.(phase := row.next);
      e := e.(sequence := e.sequence + 1);
      e := e.(lastEvent := eventId);
    }

    method Transition(e: RequestState, event: Event, eventId: string, row: Row, guard: bool, cfg: Config, rawInfo: Info)
      returns (after: RequestState)
      requires Valid()
      modifies this
      ensures Valid()
      ensures State() == Commit(old(State()), TransitionFrame(old(TheCore()), e, event, eventId, row, guard, cfg, rawInfo), down)
      ensures after == Applied(e, event, Some(eventId), row, Truthy(rawInfo))
    {
      ghost var f := TransitionFrame(TheCore(), e, event, eventId, row, guard, cfg, rawInfo);
      var decision := if row.decision != "" then row.decision else if guard then "permit" else "block";
      var info := Truthy(rawInfo);
      var rec := Rec(Some(e.rid), Some(eventId), e.sequence + 1, Some(e.phase), event, guard, Some(row.next), cfg.version,
                     row.emit, if info == map[] then None else Some(info), None, None);
      after := RunActions(e, event, Some(eventId), row, info);
      ledger := ledger.Put(after);
      AppendToLog(rec, f);
      PublishRow(after, row, decision, cfg, info);
    }

    // -- one envelope -------------------------------------------------------

    static method CheckAdmission(env: Envelope, cfg: Config, halted: bool, active: nat) returns (refusal: Option<string>)
      requires env.Envelope?
      ensures refusal == Decide(env, cfg, halted, active)
    {
      if halted {
        return Some("admission.halted");
      }
      if active >= cfg.maxActive {
        return Some("admission.exhausted");
      }
      var required := if env.event in cfg.schemas then cfg.schemas[env.event] else [];
      assert required[0..] == required;
      for i := 0 to |required|
        invariant FirstMissing(required[i..], env) == FirstMissing(required, env)
      {
        assert required[i..][1..] == required[i + 1..];
        if !HasKey(env, required[i]) {
          return Some("admission.schema_invalid:" + required[i]);
        }
      }
      return None;
    }

    method AdmitFirst(env: Envelope, refusal: Option<string>) returns (entry: RequestState)
      requires Valid() && env.Envelope? && env.rid.Some? && Usable(config)
      modifies this
      ensures Valid() && State() == Commit(old(State()), AdmitFrame(old(TheCore()), env, refusal), down)
      ensures entry == AdmitFrame(old(TheCore()), env, refusal).core.ledger.entries[env.rid.value]
    {
      var cfg := config;
      ghost var core := TheCore();
      var created := NewEntry(env.rid.value, DeclaredTypeOf(env), cfg.version);
      var rows := cfg.transitions[(Created, RequestReceived)];
      var row := if refusal.None? then rows[0] else rows[|rows| - 1];
      var info := map[DeclaredType := created.declaredType, Reason := if refusal.Some? then refusal.value else ""];
      ledger := ledger.Put(created);
      assert TheCore() == core.(ledger := core.ledger.Put(created));
      assert TransitionFrame(TheCore(), created, RequestReceived, env.id, row, refusal.None?, cfg, info) == AdmitFrame(core, env, refusal);
      entry := Transition(created, RequestReceived, env.id, row, refusal.None?, cfg, info);
    }

    method RouteChained(entry: RequestState, eventId: string, chain: Event)
      requires Valid() && Usable(config) && (entry.phase, chain) in config.transitions
      modifies this
      ensures Valid() && State() == Commit(old(State()), ChainFrame(old(TheCore()), entry, eventId, chain), down)
    {
      var cfg := config;
      var owner := Route(entry.declaredType, cfg);
      var rows := cfg.transitions[(entry.phase, chain)];
      var row := if owner.Ok? then rows[0] else rows[|rows| - 1];
      var _ := Transition(entry, chain, eventId, row, owner.Ok?, cfg,
                          map[RoutingTarget := if owner.Ok? then owner.value else "",
                              Reason := if owner.Ok? then "" else owner.error]);
    }

    method AdmitRequest(env: Envelope)
      requires Valid() && env.Envelope? && Usable(config)
      modifies this
      ensures Valid() && State() == Admit(old(State()), env, down)
    {
      if env.rid.None? || env.rid.value == "" {
        Alert(MissingId, Some(env.id), env.rid);
        return;
      }
      var refusal := CheckAdmission(env, config, halted, ledger.ActiveCount());
      var row := config.transitions[(Created, RequestReceived)][0];
      var entry := AdmitFirst(env, refusal);
      if refusal.None? && row.chain.Some? {
        RouteChained(entry, env.id, row.chain.value);
      }
    }

    method ApplyEvent(e: RequestState, env: Envelope)
      requires Valid() && env.Envelope?
      modifies this
      ensures Valid() && State() == Apply(old(State()), e, env, down)
    {
      var cfg := if e.cfgVersion in configs then configs[e.cfgVersion] else config;
      var rows := cfg.Rows(e.phase, env.event);
      if rows.None? {
        Alert(Unmatched(e.phase, env.event), Some(env.id), env.rid);
        return;
      }
      var picked := SelectRow(rows.value, e, cfg);
      if picked.None? {
        Alert(NoRow(e.phase, env.event), Some(env.id), env.rid);
        return;
      }
      var row := rows.value[picked.value];
      var decision := if row.decision != "" then row.decision else if picked.value == 0 then "permit" else "block";
      var _ := Transition(e, env.event, env.id, row, decision == "permit", cfg, map[]);
    }

    method HandleConfig(env: Envelope)
      requires Valid() && env.Envelope?
      modifies this
      ensures Valid() && State() == Reconfigure(old(State()), env, down)
    {
      if env.snapshot.None? || !SnapshotValid(env.snapshot.value) {
        Alert(ConfigInvalid, Some(env.id), env.rid);
        return;
      }
      var cfg := env.snapshot.value.cfg;
      ghost var f := ConfigFrame(TheCore(), cfg);
      configs := configs[cfg.version := cfg];
      config := cfg;
      AppendToLog(Rec(None, None, 0, None, ConfigChanged, true, None, cfg.version, [], None, None, Some(env.snapshot.value)), f);
    }

    /** A sleeping session evicts exactly the requests that are over. */
    method HandleSession(event: Event)
      requires Valid()
      modifies this
      ensures Valid() && State() == Session(old(State()), event, down)
      ensures old(ledger.Valid()) && event.SessionSleep? ==>
        && (forall r :: r in ledger.entries <==>
              r in old(ledger.entries) && old(ledger).entries[r].phase !in {Completed, Failed, Cancelled})
        && forall r :: r in ledger.entries ==> ledger.entries[r] == old(ledger).entries[r]
      ensures !event.SessionSleep? ==> ledger == old(ledger)
    {
      if ledger.Valid() && event.SessionSleep? {
        SleepLeaves(State(), event, down);
      }
      AppendToLog(Rec(None, None, 0, None, event, true, None, config.version, [], None, None, None), SessionFrame(TheCore(), event));
      if event.SessionSleep? {
        var ids := ledger.order;
        ghost var whole := EvictTerminal(State(), ids, down);
        assert ids[0..] == ids;
        for i := 0 to |ids|
          invariant Valid() && EvictTerminal(State(), ids[i..], down) == whole
        {
          assert ids[i..][1..] == ids[i + 1..];
          var r := ids[i];
          if r in ledger.entries && ledger.entries[r].phase.Terminal() {
            var e := ledger.entries[r];
            ghost var f := CleanupFrame(TheCore(), e);
            ghost var before := State();
            AppendToLog(Rec(Some(e.rid), None, e.sequence + 1, Some(e.phase), Cleanup, true, Some(OtherPhase("cleanup")),
                            e.cfgVersion, [], None, None, None), f);
            ledger := ledger.Evict(e.rid);
            assert State() == Commit(before, f, down);
          }
        }
      }
    }

    static lemma SleepLeaves(k: Kernel, event: Event, down: Outage)
      requires k.core.ledger.Valid() && event.SessionSleep?
      ensures var before, after := k.core.ledger.entries, Session(k, event, down).core.ledger.entries;
              && (forall r :: r in after <==> r in before && before[r].phase !in {Completed, Failed, Cancelled})
              && forall r :: r in after ==> after[r] == before[r]
    {
      var k1 := Commit(k, SessionFrame(k.core, event), down);
      KernelBoundary.EvictionLeaves(k1, k1.core.ledger.order, down);
    }

    /** The event loop's entry point. */
    method HandleEnvelope(env: Envelope)
      requires Valid() && Usable(config)
      modifies this
      ensures Valid() && State() == Handle(old(State()), env, down)
    {
      if !Accepted(env, config) {
        match env {
          case Junk => Alert(BadEnvelope, None, None);
          case Incomplete(id, rid) => Alert(BadEnvelope, id, rid);
          case Envelope(id, _, rid, _, _) => Alert(BadEnvelope, Some(id), rid);
        }
      } else if env.event.ConfigChanged? {
        HandleConfig(env);
      } else if env.event.SessionWake? || env.event.SessionSleep? {
        HandleSession(env.event);
      } else if env.rid.Some? && env.rid.value in ledger.entries {
        var e := ledger.entries[env.rid.value];
        if e.lastEvent == Some(env.id) {
          AppendToLog(Rec(Some(e.rid), Some(env.id), e.sequence, Some(e.phase), env.event, false, Some(e.phase), e.cfgVersion, [],
                          None, Some("duplicate"), None), NoopFrame(TheCore(), e, env));
        } else if env.event.RequestReceived? {
          Alert(Unmatched(e.phase, env.event), Some(env.id), env.rid);
        } else {
          ApplyEvent(e, env);
        }
      } else if env.event.RequestReceived? {
        AdmitRequest(env);
      } else {
        Alert(UnknownRequest(env.event), Some(env.id), env.rid);
      }
    }

    // -- recovery -------------------------------------------------------------

    /** The checks on a transition record. A new request's entry is created on the way. */
    method Check(rec: Rec) returns (found: Option<Found>)
      modifies this`ledger
      ensures found.Some? <==> Locate(old(TheCore()), rec).Ok?
      ensures found.Some? ==> found.value == Locate(old(TheCore()), rec).value && ledger == old(ledger).Put(found.value.e)
      ensures found.None? ==> TheCore() == Locate(old(TheCore()), rec).error
    {
      if rec.rid.None? || rec.cfgVersion !in configs {
        return None;
      }
      var cfg := configs[rec.cfgVersion];
      var rid := rec.rid.value;
      if rid !in ledger.entries && !rec.event.RequestReceived? {
        return None;
      }
      var declared := if rec.info.Some? && DeclaredType in rec.info.value then rec.info.value[DeclaredType] else "";
      var e := if rid in ledger.entries then ledger.entries[rid] else NewEntry(rid, declared, rec.cfgVersion);
      ledger := ledger.Put(e);
      var rows := cfg.Rows(e.phase, rec.event);
      if rows.None? || rows.value == [] || rec.prior != Some(e.phase) || rec.sequence != e.sequence + 1 {
        return None;
      }
      var row := if rec.guard then rows.value[0] else rows.value[|rows.value| - 1];
      var expected := Rec(Some(rid), rec.eventId, e.sequence + 1, Some(e.phase), rec.event, rec.guard, Some(row.next),
                          cfg.version, row.emit, rec.info, None, None);
      if expected != rec {
        return None;
      }
      return Some(Found(cfg, e, row));
    }

    /** The transition part of the replay loop; false is a deviation. */
    method ReplayOne(rec: Rec, published: Published) returns (ok: bool)
      requires Valid()
      modifies this
      ensures ok == ReplayTransition(old(TheCore()), rec).Ok?
      ensures ok ==> Valid() && State() == Republish(old(State()), ReplayTransition(old(TheCore()), rec).value, published, down)
      ensures !ok ==> Valid() && frames == old(frames) && TheIo() == old(TheIo())
                      && TheCore() == ReplayTransition(old(TheCore()), rec).error
    {
      var found := Check(rec);
      if found.None? {
        return false;
      }
      var at := found.value;
      ghost var f := ReplayFrame(old(TheCore()), rec, at);
      var info := if rec.info.Some? then rec.info.value else map[];
      var after := RunActions(at.e, rec.event, rec.eventId, at.row, info);
      ledger := ledger.Put(after);
      log := log + [rec];
      assert Log(frames + [f]) == Log(frames) + [f.rec];
      frames := frames + [f];
      if published.Some? && (rec.rid.value, rec.sequence) !in published.value {
        var decision := if at.row.decision != "" then at.row.decision else if rec.guard then "permit" else "block";
        PublishRow(after, at.row, decision, at.cfg, info);
      }
      return true;
    }

    /** One turn of the replay loop. */
    method ReplayAny(rec: Rec, published: Published) returns (ok: bool)
      requires Valid()
      modifies this
      ensures ok == ReplayRecord(old(TheCore()), rec).Ok?
      ensures ok ==> Valid() && State() == Republish(old(State()), ReplayRecord(old(TheCore()), rec).value, published, down)
      ensures !ok ==> Valid() && frames == old(frames) && TheIo() == old(TheIo())
                      && TheCore() == ReplayRecord(old(TheCore()), rec).error
    {
      ghost var outcome := ReplayRecord(TheCore(), rec);
      if rec.event.ConfigChanged? {
        if rec.snapshot.None? || !SnapshotValid(rec.snapshot.value) {
          return false;
        }
        var cfg := rec.snapshot.value.cfg;
        configs := configs[cfg.version := cfg];
        config := cfg;
      } else if rec.event.SessionWake? || rec.event.SessionSleep? {
      } else if rec.event.Cleanup? {
        if rec.rid.Some? {
          ledger := ledger.Evict(rec.rid.value);
        }
      } else if rec.verdict.None? {
        ok := ReplayOne(rec, published);
        return;
      }
      log := log + [rec];
      assert Log(frames + [outcome.value]) == Log(frames) + [rec];
      frames := frames + [outcome.value];
      return true;
    }

    /** recover. */
    method Rebuild(records: seq<Rec>, published: Published) returns (ok: bool)
      modifies this
      ensures Valid() && (ok, State()) == Recover(old(State()), records, published, down)
    {
      ledger := EMPTY_LEDGER;
      log, frames := [], [];
      halted := false;
      assert records[0..] == records;
      for i := 0 to |records|
        invariant Valid()
        invariant Replay(ReplayRecord, State(), records[i..], published, down) == Recover(old(State()), records, published, down)
      {
        ghost var before := State();
        assert records[i..][1..] == records[i + 1..];
        ok := ReplayAny(records[i], published);
        if !ok {
          halted := true;
          Alert(ReplayDeviation(records[i].sequence), None, None);
          return false;
        }
      }
      return true;
    }
  }
}
