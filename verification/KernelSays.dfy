/** What leaves the kernel under the default table: the reason a request was refused for,
    the owner it was routed to, the verdict of its gates, and what cancelling it does. */
module KernelSays {
  import opened KernelTypes
  import opened KernelMachine
  import opened KernelRecovery
  import opened KernelDefault
  import opened KernelSafety
  import opened KernelProgress
  import opened Wrappers

  /** The messages of one transition, numbered by it. */
  predicate Says(f: Frame, rid: string, sequence: nat, version: int, names: seq<Outbound>, payloads: seq<Payload>) {
    && |names| == |payloads| == |f.emitted|
    && forall i :: 0 <= i < |names| ==> f.emitted[i] == RowMessage(rid, sequence, i, names[i], payloads[i], version)
  }

  const ADMITTED := OtherOutbound("request.admitted")
  const COMPLETED := OtherOutbound("request.completed")

  // -- admission and routing ----------------------------------------------------------

  /** How many requests are neither over nor in a phase of their own. */
  function Open(entries: map<string, RequestState>): nat {
    |set r | r in entries && entries[r].phase in {Created, Initialized, Scheduled, Executing, Verifying}|
  }

  predicate Lacks(env: Envelope, key: string)
    requires env.Envelope?
  {
    key !in env.payload && !(key == "snapshot" && env.snapshot.Some?)
  }

  /** Why a new request is refused: an outage, then capacity, then the first required key
      it lacks. */
  ghost predicate RefusedFor(k: Kernel, env: Envelope, why: string)
    requires env.Envelope?
  {
    var cfg := k.core.config;
    if k.io.halted then why == "admission.halted"
    else if Open(k.core.ledger.entries) >= cfg.maxActive then why == "admission.exhausted"
    else
      && env.event in cfg.schemas
      && exists i :: 0 <= i < |cfg.schemas[env.event]| && FirstLacked(env, cfg.schemas[env.event], i)
                     && why == "admission.schema_invalid:" + cfg.schemas[env.event][i]
  }

  predicate FirstLacked(env: Envelope, required: seq<string>, i: nat)
    requires env.Envelope? && i < |required|
  {
    Lacks(env, required[i]) && forall j :: 0 <= j < i ==> !Lacks(env, required[j])
  }

  lemma {:induction false} FirstMissingMeans(required: seq<string>, env: Envelope)
    requires env.Envelope?
    ensures FirstMissing(required, env).Some? <==> exists i :: 0 <= i < |required| && Lacks(env, required[i])
    ensures forall i :: 0 <= i < |required| && FirstLacked(env, required, i) ==> FirstMissing(required, env) == Some(required[i])
    ensures FirstMissing(required, env).Some? ==> exists i :: 0 <= i < |required| && FirstLacked(env, required, i)
  {
    if required != [] {
      var rest := required[1..];
      FirstMissingMeans(rest, env);
      if Lacks(env, required[0]) {
        assert FirstLacked(env, required, 0);
      } else {
        forall i | 0 <= i < |required| && FirstLacked(env, required, i) ensures FirstMissing(required, env) == Some(required[i]) {
          assert required[i] == rest[i - 1];
          assert forall j :: 0 <= j < i - 1 ==> rest[j] == required[j + 1];
          assert FirstLacked(env, rest, i - 1);
        }
        if FirstMissing(required, env).Some? {
          var i :| 0 <= i < |rest| && FirstLacked(env, rest, i);
          assert forall j :: 1 <= j < i + 1 ==> required[j] == rest[j - 1];
          assert FirstLacked(env, required, i + 1);
        }
        if i :| 0 <= i < |required| && Lacks(env, required[i]) {
          assert rest[i - 1] == required[i];
        }
      }
    }
  }

  lemma DecideMeans(k: Kernel, env: Envelope, why: string)
    requires env.Envelope?
    ensures RefusedFor(k, env, why) <==> Decide(env, k.core.config, k.io.halted, k.core.ledger.ActiveCount()) == Some(why)
  {
    var cfg := k.core.config;
    var required := if env.event in cfg.schemas then cfg.schemas[env.event] else [];
    FirstMissingMeans(required, env);
    assert k.core.ledger.ActiveIds()
      == set r | r in k.core.ledger.entries && k.core.ledger.entries[r].phase in {Created, Initialized, Scheduled, Executing, Verifying};
  }

  /** A new request that is refused leaves one record, whose events say that it was
      rejected, why, and that the admission gate blocked it. */
  lemma RefusalSays(k: Kernel, env: Envelope, rid: string, why: string, down: Outage) returns (f: Frame)
    requires AdmitsByDefault(k.core.config) && RequestReceived in k.core.config.inbound
    requires About(env, RequestReceived, rid) && rid != "" && rid !in k.core.ledger.entries && RefusedFor(k, env, why)
    ensures Handle(k, env, down).frames == k.frames + [f]
    ensures Says(f, rid, 1, k.core.config.version, [RequestRejected, GateEnforced],
                 [ReasonPayload(rid, Failed, why), GatePayload(rid, "admission", "block")])
  {
    DecideMeans(k, env, why);
    assert why != "" by {
      if !k.io.halted && Open(k.core.ledger.entries) < k.core.config.maxActive {
        var required := k.core.config.schemas[env.event];
        var i :| 0 <= i < |required| && why == "admission.schema_invalid:" + required[i];
      }
    }
    assert Handle(k, env, down) == Admit(k, env, down);
    f := AdmitFrame(k.core, env, Some(why));
  }

  /** Why a declared type has no owner. */
  predicate Unroutable(cfg: Config, declared: string, why: string) {
    if declared !in cfg.routing then why == "routing.unknown_type"
    else cfg.routing[declared].Many? && why == "routing.ambiguous_type"
  }

  lemma AdmissionEvents(c: Core, env: Envelope, rid: string)
    requires AdmitsByDefault(c.config) && env.Envelope? && env.rid == Some(rid)
    ensures Says(AdmitFrame(c, env, None), rid, 1, c.config.version, [ADMITTED, GateEnforced],
                 [PhasePayload(rid, Initialized), GatePayload(rid, "admission", "permit")])
  {
  }

  lemma AdmittedSays(k: Kernel, env: Envelope, rid: string, down: Outage) returns (f: Frame, e: RequestState, next: Frame)
    requires AdmitsByDefault(k.core.config) && RequestReceived in k.core.config.inbound
    requires About(env, RequestReceived, rid) && rid != "" && rid !in k.core.ledger.entries
    requires forall why :: !RefusedFor(k, env, why)
    ensures Handle(k, env, down).frames == k.frames + [f] + [next]
    ensures Says(f, rid, 1, k.core.config.version, [ADMITTED, GateEnforced],
                 [PhasePayload(rid, Initialized), GatePayload(rid, "admission", "permit")])
    ensures e.rid == rid && e.sequence == 1 && e.phase == Initialized && e.declaredType == DeclaredTypeOf(env)
    ensures f.core.config == k.core.config && next == ChainFrame(f.core, e, env.id, Routing)
  {
    var decided := Decide(env, k.core.config, k.io.halted, k.core.ledger.ActiveCount());
    if decided.Some? {
      DecideMeans(k, env, decided.value);
      assert false;
    }
    assert Handle(k, env, down) == Admit(k, env, down);
    f := AdmitFrame(k.core, env, None);
    AdmissionEvents(k.core, env, rid);
    AdmittedEntry(k.core, env, rid, None);
    e := f.core.ledger.entries[rid];
    next := ChainFrame(f.core, e, env.id, Routing);
  }

  /** An admitted request leaves two records. The events of the second name its owner, or
      say why it has none; nobody is directed to do anything then. */
  lemma RoutingSays(k: Kernel, env: Envelope, rid: string, down: Outage) returns (f: Frame, next: Frame)
    requires AdmitsByDefault(k.core.config) && RequestReceived in k.core.config.inbound
    requires About(env, RequestReceived, rid) && rid != "" && rid !in k.core.ledger.entries
    requires forall why :: !RefusedFor(k, env, why)
    ensures Handle(k, env, down).frames == k.frames + [f] + [next]
    ensures var version := k.core.config.version;
            Says(f, rid, 1, version, [ADMITTED, GateEnforced],
                 [PhasePayload(rid, Initialized), GatePayload(rid, "admission", "permit")])
    ensures var cfg, version := k.core.config, k.core.config.version;
            var declared := if "declared_type" in env.payload then env.payload["declared_type"] else "";
            && (forall owner :: owner != "" && declared in cfg.routing && cfg.routing[declared] == One(owner) ==>
                  Says(next, rid, 2, version, [RoutingDirective], [RoutingPayload(rid, declared, Some(owner), version)]))
            && (forall why :: Unroutable(cfg, declared, why) ==>
                  Says(next, rid, 2, version, [RequestRejected, GateEnforced],
                       [ReasonPayload(rid, Failed, why), GatePayload(rid, "routing", "block")]))
  {
    var e;
    f, e, next := AdmittedSays(k, env, rid, down);
    ChainSays(f.core, e, env.id);
  }

  lemma ChainSays(c: Core, e: RequestState, eventId: string)
    requires AdmitsByDefault(c.config) && e.phase == Initialized && e.sequence == 1
    ensures var next, cfg, version := ChainFrame(c, e, eventId, Routing), c.config, c.config.version;
            && (forall owner :: owner != "" && e.declaredType in cfg.routing && cfg.routing[e.declaredType] == One(owner) ==>
                  Says(next, e.rid, 2, version, [RoutingDirective], [RoutingPayload(e.rid, e.declaredType, Some(owner), version)]))
            && (forall why :: Unroutable(cfg, e.declaredType, why) ==>
                  Says(next, e.rid, 2, version, [RequestRejected, GateEnforced],
                       [ReasonPayload(e.rid, Failed, why), GatePayload(e.rid, "routing", "block")]))
  {
    var rows := DefaultRows(Initialized, Routing);
    var owner := Route(e.declaredType, c.config);
    var info: Info := map[RoutingTarget := if owner.Ok? then owner.value else "", Reason := if owner.Ok? then "" else owner.error];
    if owner.Ok? {
      OneAction(rows[0], e, Routing, Truthy(info));
    }
  }

  // -- in flight -----------------------------------------------------------------------

  /** What one event makes of a request in flight: the entry it leaves and the one record. */
  lemma Moved(k: Kernel, e: RequestState, env: Envelope, i: nat, down: Outage, base: Config) returns (f: Frame)
    requires Holds(k, e, base) && env.Envelope? && About(env, env.event, e.rid) && Fresh(env, e.lastEvent)
    requires env.event in DEFAULT_INBOUND && !Reserved(env.event) && !env.event.RequestReceived?
    requires i < |DefaultRows(e.phase, env.event)|
    requires PickRow(DefaultRows(e.phase, env.event), e, PinnedConfig(k.core, e)) == Some(i)
    ensures Usable(k.core.config) && Handle(k, env, down).frames == k.frames + [f]
    ensures f == ApplyFrame(k.core, e, env.event, env.id, DefaultRows(e.phase, env.event), i)
    ensures Handle(k, env, down).core == f.core
  {
    DefaultUsable(k.core.config);
    assert SameLimits(PinnedConfig(k.core, e), base);
    DefaultKeys(PinnedConfig(k.core, e), e.phase, env.event);
    assert Handle(k, env, down) == Apply(k, e, env, down);
    f := ApplyFrame(k.core, e, env.event, env.id, DefaultRows(e.phase, env.event), i);
  }

  /** The version of the snapshot a request is pinned to. */
  function VersionOf(k: Kernel, e: RequestState): int {
    if e.cfgVersion in k.core.configs then k.core.configs[e.cfgVersion].version else k.core.config.version
  }

  lemma CancellationEvents(c: Core, e: RequestState, eventId: string)
    requires e.phase in {Created, Initialized, Scheduled, Executing, Verifying}
    ensures DefaultRows(e.phase, RequestCancelled) == CANCEL_ROWS
    ensures var f := ApplyFrame(c, e, RequestCancelled, eventId, CANCEL_ROWS, 0);
            && Says(f, e.rid, e.sequence + 1, PinnedConfig(c, e).version, [RequestCancelledAck, GateEnforced],
                    [AckPayload(e.rid), GatePayload(e.rid, "cancellation", "permit")])
            && f.core.ledger.entries
               == c.ledger.entries[e.rid := e.(phase := Cancelled, cancelled := true, sequence := e.sequence + 1,
                                               lastEvent := Some(eventId))]
  {
    OneAction(CANCEL_ROWS[0], e, RequestCancelled, Truthy(map[]));
  }

  lemma LateCancellationEvents(c: Core, e: RequestState, eventId: string)
    requires e.phase in {Completed, Failed, Cancelled}
    ensures DefaultRows(e.phase, RequestCancelled) == [Plain(e.phase)]
    ensures var f := ApplyFrame(c, e, RequestCancelled, eventId, [Plain(e.phase)], 0);
            f.emitted == []
            && f.core.ledger.entries == c.ledger.entries[e.rid := e.(sequence := e.sequence + 1, lastEvent := Some(eventId))]
  {
  }

  /** Cancelling a request that is not over cancels it, sets its flag and says so; nothing
      else about it changes, and nothing of any other. */
  lemma CancellationSays(k: Kernel, e: RequestState, env: Envelope, down: Outage, base: Config) returns (f: Frame)
    requires Holds(k, e, base) && About(env, RequestCancelled, e.rid) && Fresh(env, e.lastEvent)
    requires e.phase in {Created, Initialized, Scheduled, Executing, Verifying}
    ensures Usable(k.core.config) && Handle(k, env, down).frames == k.frames + [f]
    ensures Handle(k, env, down).core.ledger.entries
            == k.core.ledger.entries[e.rid := e.(phase := Cancelled, cancelled := true, sequence := e.sequence + 1,
                                                 lastEvent := Some(env.id))]
    ensures Says(f, e.rid, e.sequence + 1, VersionOf(k, e), [RequestCancelledAck, GateEnforced],
                 [AckPayload(e.rid), GatePayload(e.rid, "cancellation", "permit")])
  {
    CancellationEvents(k.core, e, env.id);
    FirstRow(CANCEL_ROWS, e, PinnedConfig(k.core, e));
    f := Moved(k, e, env, 0, down, base);
  }

  /** Cancelling one that is over changes neither its phase nor its flag and says nothing. */
  lemma LateCancellationSays(k: Kernel, e: RequestState, env: Envelope, down: Outage, base: Config) returns (f: Frame)
    requires Holds(k, e, base) && About(env, RequestCancelled, e.rid) && Fresh(env, e.lastEvent)
    requires e.phase in {Completed, Failed, Cancelled}
    ensures Usable(k.core.config) && Handle(k, env, down).frames == k.frames + [f] && f.emitted == []
    ensures Handle(k, env, down).core.ledger.entries
            == k.core.ledger.entries[e.rid := e.(sequence := e.sequence + 1, lastEvent := Some(env.id))]
  {
    LateCancellationEvents(k.core, e, env.id);
    FirstRow([Plain(e.phase)], e, PinnedConfig(k.core, e));
    f := Moved(k, e, env, 0, down, base);
  }

  lemma CompletionEvents(c: Core, e: RequestState, eventId: string, i: nat)
    requires i < 2
    ensures |DefaultRows(Executing, TaskCompleted)| == 2
    ensures var f := ApplyFrame(c, e, TaskCompleted, eventId, DefaultRows(Executing, TaskCompleted), i);
            if i == 0 then
              Says(f, e.rid, e.sequence + 1, PinnedConfig(c, e).version, [COMPLETED, GateEnforced],
                   [PhasePayload(e.rid, Completed), GatePayload(e.rid, "completion", "permit")])
            else
              Says(f, e.rid, e.sequence + 1, PinnedConfig(c, e).version, [GateEnforced], [GatePayload(e.rid, "completion", "block")])
  {
  }

  lemma VerdictEvents(c: Core, e: RequestState, event: Event, eventId: string)
    requires event == VerifyPassed || event == VerifyFailed
    ensures |DefaultRows(Verifying, event)| == 1
    ensures var f := ApplyFrame(c, e, event, eventId, DefaultRows(Verifying, event), 0);
            if event == VerifyPassed then
              Says(f, e.rid, e.sequence + 1, PinnedConfig(c, e).version, [COMPLETED, GateEnforced],
                   [PhasePayload(e.rid, Completed), GatePayload(e.rid, "completion", "permit")])
            else
              Says(f, e.rid, e.sequence + 1, PinnedConfig(c, e).version, [GateEnforced], [GatePayload(e.rid, "completion", "block")])
  {
  }

  /** A completed task is announced as completed, with the gate's permit, if its
      verification passed; otherwise only the gate's block is announced. */
  lemma CompletionSays(k: Kernel, e: RequestState, env: Envelope, down: Outage, base: Config) returns (f: Frame)
    requires Holds(k, e, base) && e.phase == Executing && About(env, TaskCompleted, e.rid) && Fresh(env, e.lastEvent)
    ensures Usable(k.core.config) && Handle(k, env, down).frames == k.frames + [f]
    ensures if "verification" in e.verdicts && e.verdicts["verification"] then
              Says(f, e.rid, e.sequence + 1, VersionOf(k, e), [COMPLETED, GateEnforced],
                   [PhasePayload(e.rid, Completed), GatePayload(e.rid, "completion", "permit")])
            else
              Says(f, e.rid, e.sequence + 1, VersionOf(k, e), [GateEnforced], [GatePayload(e.rid, "completion", "block")])
  {
    var rows, cfg := DefaultRows(Executing, TaskCompleted), PinnedConfig(k.core, e);
    assert SameLimits(cfg, base);
    assert GuardHolds(rows[0].when.value, e, cfg) <==> VerificationPassed(e);
    if VerificationPassed(e) {
      FirstRow(rows, e, cfg);
    } else {
      SecondRow(rows, e, cfg);
    }
    var i := if VerificationPassed(e) then 0 else 1;
    CompletionEvents(k.core, e, env.id, i);
    f := Moved(k, e, env, i, down, base);
  }

  lemma FailureEvents(c: Core, e: RequestState, eventId: string, i: nat)
    requires i < 2
    ensures |DefaultRows(Executing, TaskFailed)| == 2
    ensures var f := ApplyFrame(c, e, TaskFailed, eventId, DefaultRows(Executing, TaskFailed), i);
            if i == 0 then f.emitted == []
            else Says(f, e.rid, e.sequence + 1, PinnedConfig(c, e).version, [RequestFailed], [ReasonPayload(e.rid, Failed, "")])
  {
  }

  /** A failed task is silent while replans remain; the failure that ends the request is
      announced. */
  lemma FailureSays(k: Kernel, e: RequestState, env: Envelope, down: Outage, base: Config) returns (f: Frame)
    requires Holds(k, e, base) && e.phase == Executing && About(env, TaskFailed, e.rid) && Fresh(env, e.lastEvent)
    ensures Usable(k.core.config) && Handle(k, env, down).frames == k.frames + [f]
    ensures if e.replans < base.maxReplans then f.emitted == []
            else Says(f, e.rid, e.sequence + 1, VersionOf(k, e), [RequestFailed], [ReasonPayload(e.rid, Failed, "")])
  {
    var rows, cfg := DefaultRows(Executing, TaskFailed), PinnedConfig(k.core, e);
    assert SameLimits(cfg, base);
    var i := if e.replans < base.maxReplans then 0 else 1;
    FailureEvents(k.core, e, env.id, i);
    if i == 0 {
      FirstRow(rows, e, cfg);
    } else {
      SecondRow(rows, e, cfg);
    }
    f := Moved(k, e, env, i, down, base);
  }

  /** The verdict on a verifying request is announced as the gate's decision, and a pass
      as completion. */
  lemma VerdictSays(k: Kernel, e: RequestState, env: Envelope, down: Outage, base: Config) returns (f: Frame)
    requires Holds(k, e, base) && e.phase == Verifying && Verdict(env, e.rid) && Fresh(env, e.lastEvent)
    ensures Usable(k.core.config) && Handle(k, env, down).frames == k.frames + [f]
    ensures if env.event == VerifyPassed then
              Says(f, e.rid, e.sequence + 1, VersionOf(k, e), [COMPLETED, GateEnforced],
                   [PhasePayload(e.rid, Completed), GatePayload(e.rid, "completion", "permit")])
            else
              Says(f, e.rid, e.sequence + 1, VersionOf(k, e), [GateEnforced], [GatePayload(e.rid, "completion", "block")])
  {
    var rows := DefaultRows(Verifying, env.event);
    VerdictEvents(k.core, e, env.event, env.id);
    FirstRow(rows, e, PinnedConfig(k.core, e));
    f := Moved(k, e, env, 0, down, base);
  }

  // -- the table itself ----------------------------------------------------------------

  /** What may happen to a request in a phase: admission and routing once, then a plan, its
      execution and verification, and cancelling at any time. */
  predicate MayHappen(phase: Phase, event: Event) {
    match event
    case RequestReceived => phase == Created
    case Routing => phase == Initialized
    case PlanCreated => phase == Scheduled
    case PlanRejected => phase == Scheduled
    case TaskCompleted => phase == Executing
    case TaskFailed => phase == Executing
    case VerifyPassed => phase == Executing || phase == Verifying
    case VerifyFailed => phase == Executing || phase == Verifying
    case RequestCancelled => !phase.OtherPhase?
    case _ => false
  }

  /** The default table answers just that, and nothing else. */
  lemma AnsweredExactly(phase: Phase, event: Event)
    ensures DefaultRows(phase, event) != [] <==> MayHappen(phase, event)
  {
  }

  lemma PlanEvents(c: Core, e: RequestState, event: Event, eventId: string)
    requires e.phase == Scheduled && (event == PlanCreated || event == PlanRejected)
    ensures |DefaultRows(Scheduled, event)| == 1
    ensures var f := ApplyFrame(c, e, event, eventId, DefaultRows(Scheduled, event), 0);
            f.emitted == []
            && f.core.ledger.entries
               == c.ledger.entries[e.rid := e.(phase := if event == PlanCreated then Executing else Scheduled,
                                               sequence := e.sequence + 1, lastEvent := Some(eventId))]
  {
  }

  /** A plan starts the execution of a scheduled request, a rejected one leaves it scheduled;
      neither says anything. */
  lemma PlanSays(k: Kernel, e: RequestState, env: Envelope, down: Outage, base: Config) returns (f: Frame)
    requires Holds(k, e, base) && e.phase == Scheduled && Fresh(env, e.lastEvent)
    requires About(env, PlanCreated, e.rid) || About(env, PlanRejected, e.rid)
    ensures Usable(k.core.config) && Handle(k, env, down).frames == k.frames + [f] && f.emitted == []
    ensures Handle(k, env, down).core.ledger.entries
            == k.core.ledger.entries[e.rid := e.(phase := if env.event == PlanCreated then Executing else Scheduled,
                                                 sequence := e.sequence + 1, lastEvent := Some(env.id))]
  {
    PlanEvents(k.core, e, env.event, env.id);
    FirstRow(DefaultRows(Scheduled, env.event), e, PinnedConfig(k.core, e));
    f := Moved(k, e, env, 0, down, base);
  }
}
