/** Safety over whole runs of the default table, and the numbering of the log. */
module KernelSafety {
  import opened KernelTypes
  import opened KernelMachine
  import opened KernelRecovery
  import opened KernelDefault
  import opened Orders
  import opened Wrappers

  /** Snapshots that may replace each other during the run: the default table and
      completion gate, the same two limits; routing and schemas are free. */
  ghost predicate SameLimits(c: Config, base: Config) {
    && DefaultTable(c)
    && "completion" in c.gates && c.gates["completion"] == COMPLETION_GATE
    && c.maxReplans == base.maxReplans && c.maxActive == base.maxActive
  }

  predicate VerificationPassed(e: RequestState) {
    "verification" in e.verdicts && e.verdicts["verification"]
  }

  predicate EntrySafe(e: RequestState, base: Config) {
    && (e.phase.Active() || e.phase.Terminal())
    && (e.phase.Completed? ==> VerificationPassed(e))
    && e.replans <= base.maxReplans
  }

  ghost predicate Safe(c: Core, base: Config) {
    && c.ledger.Valid()
    && (forall r :: r in c.ledger.entries ==> EntrySafe(c.ledger.entries[r], base))
    && c.ledger.ActiveCount() <= base.maxActive
    && SameLimits(c.config, base)
    && (forall v :: v in c.configs ==> SameLimits(c.configs[v], base))
  }

  ghost predicate KernelSafe(k: Kernel, base: Config) {
    Safe(k.core, base) && forall i :: 0 <= i < |k.frames| ==> Safe(k.frames[i].core, base)
  }

  /** Across one envelope a terminal request keeps its state or, at a session
      boundary, is evicted; it is never moved. */
  ghost predicate TerminalKept(before: Ledger, after: Ledger, sleep: bool) {
    forall r :: r in before.entries && before.entries[r].phase.Terminal() ==>
      (r in after.entries && after.entries[r].phase == before.entries[r].phase) || (sleep && r !in after.entries)
  }

  // -- one row of the default table -----------------------------------------------

  /** What the rows of the default table have in common. */
  predicate RowShape(phase: Phase, event: Event, row: Row) {
    && (row.next.Active() || row.next.Terminal())
    && (phase.Terminal() ==> row.next == phase && row.actions == [])
    && (row.next.Active() ==> phase.Active())
    && |row.actions| <= 1
    && (row.next.Completed? && !phase.Completed? ==>
          if row.actions == [] then row.when == Some(Gate("completion"))
          else row.actions[0].RecordVerdict? && event.VerifyPassed?)
    && (row.actions != [] && row.actions[0].IncrementReplan? ==> row.when == Some(ReplansRemaining))
  }

  lemma DefaultRowShape(phase: Phase, event: Event, i: nat)
    requires i < |DefaultRows(phase, event)|
    ensures RowShape(phase, event, DefaultRows(phase, event)[i])
  {
  }

  lemma CompletionGate(e: RequestState, cfg: Config, base: Config)
    requires SameLimits(cfg, base) && GuardHolds(Gate("completion"), e, cfg)
    ensures VerificationPassed(e)
  {
  }

  lemma ActionSafe(a: Action, e: RequestState, event: Event, row: Row, cfg: Config, base: Config, info: Info)
    requires EntrySafe(e, base) && cfg.maxReplans == base.maxReplans
    requires a.IncrementReplan? ==> e.replans < cfg.maxReplans
    ensures var e' := DoAction(a, e, event, info);
            && e'.replans <= base.maxReplans
            && (a.RecordVerdict? && event.VerifyPassed? ==> VerificationPassed(e'))
  {
  }

  lemma RowSafe(e: RequestState, event: Event, eventId: Option<string>, row: Row, cfg: Config, base: Config, info: Info)
    requires SameLimits(cfg, base) && EntrySafe(e, base) && RowShape(e.phase, event, row)
    requires row.when.Some? && !row.when.value.OtherGuard? ==> GuardHolds(row.when.value, e, cfg)
    ensures var e' := Applied(e, event, eventId, row, info);
            && EntrySafe(e', base)
            && (e.phase.Terminal() ==> e'.phase == e.phase)
            && (e'.phase.Active() ==> e.phase.Active())
  {
    if row.actions == [] {
      if row.next.Completed? && !e.phase.Completed? {
        CompletionGate(e, cfg, base);
      }
    } else {
      assert row.actions[1..] == [];
      assert DoActions(row.actions, e, event, info) == DoAction(row.actions[0], e, event, info);
      ActionSafe(row.actions[0], e, event, row, cfg, base, info);
    }
  }

  // -- active requests --------------------------------------------------------------

  lemma PutActive(l: Ledger, e: RequestState)
    ensures l.Put(e).ActiveIds() <= l.ActiveIds() + {e.rid}
    ensures l.Put(e).ActiveCount() <= l.ActiveCount() + 1
    ensures !e.phase.Active() || e.rid in l.ActiveIds() ==> l.Put(e).ActiveCount() <= l.ActiveCount()
  {
    var after := l.Put(e).ActiveIds();
    SubsetSize(after, l.ActiveIds() + {e.rid});
    if !e.phase.Active() || e.rid in l.ActiveIds() {
      SubsetSize(after, l.ActiveIds());
    }
  }

  lemma EvictActive(l: Ledger, r: string)
    ensures l.Evict(r).ActiveCount() <= l.ActiveCount()
  {
    SubsetSize(l.Evict(r).ActiveIds(), l.ActiveIds());
  }

  // -- one envelope -------------------------------------------------------------------

  lemma PutSafe(c: Core, e: RequestState, base: Config)
    requires Safe(c, base) && EntrySafe(e, base)
    requires e.phase.Active() && e.rid !in c.ledger.ActiveIds() ==> c.ledger.ActiveCount() < base.maxActive
    ensures Safe(c.(ledger := c.ledger.Put(e)), base)
  {
    PutActive(c.ledger, e);
    PutValid(c.ledger, e);
  }

  lemma CommitSafe(k: Kernel, f: Frame, down: Outage, base: Config)
    requires KernelSafe(k, base) && Safe(f.core, base)
    ensures KernelSafe(Commit(k, f, down), base)
  {
  }

  lemma PutTerminalKept(l: Ledger, e: RequestState)
    requires e.rid in l.entries && (l.entries[e.rid].phase.Terminal() ==> e.phase == l.entries[e.rid].phase)
    ensures TerminalKept(l, l.Put(e), false)
  {
  }

  lemma RowFrameSafe(c: Core, e: RequestState, event: Event, eventId: string, row: Row, guard: bool, cfg: Config, base: Config)
    requires Safe(c, base) && SameLimits(cfg, base) && e.rid in c.ledger.entries && c.ledger.entries[e.rid] == e
    requires RowShape(e.phase, event, row)
    requires row.when.Some? && !row.when.value.OtherGuard? ==> GuardHolds(row.when.value, e, cfg)
    ensures var core := TransitionFrame(c, e, event, eventId, row, guard, cfg, map[]).core;
            Safe(core, base) && TerminalKept(c.ledger, core.ledger, false)
  {
    RowSafe(e, event, Some(eventId), row, cfg, base, Truthy(map[]));
    var e' := Applied(e, event, Some(eventId), row, Truthy(map[]));
    PutSafe(c, e', base);
    PutTerminalKept(c.ledger, e');
  }

  lemma ApplyFrameSafe(c: Core, e: RequestState, event: Event, eventId: string, rows: seq<Row>, i: nat, base: Config)
    requires Safe(c, base) && e.rid in c.ledger.entries && c.ledger.entries[e.rid] == e
    requires rows == DefaultRows(e.phase, event) && i < |rows|
    requires rows[i].when.Some? ==> GuardHolds(rows[i].when.value, e, PinnedConfig(c, e))
    ensures var core := ApplyFrame(c, e, event, eventId, rows, i).core;
            Safe(core, base) && TerminalKept(c.ledger, core.ledger, false)
  {
    DefaultRowShape(e.phase, event, i);
    RowFrameSafe(c, e, event, eventId, rows[i], Permits(rows, i), PinnedConfig(c, e), base);
  }

  lemma PinnedRows(c: Core, e: RequestState, event: Event, base: Config)
    requires Safe(c, base)
    ensures PinnedConfig(c, e).Rows(e.phase, event)
            == if DefaultRows(e.phase, event) == [] then None else Some(DefaultRows(e.phase, event))
  {
    assert SameLimits(PinnedConfig(c, e), base);
    DefaultKeys(PinnedConfig(c, e), e.phase, event);
  }

  lemma ApplySafe(k: Kernel, e: RequestState, env: Envelope, down: Outage, base: Config)
    requires KernelSafe(k, base) && env.Envelope?
    requires e.rid in k.core.ledger.entries && k.core.ledger.entries[e.rid] == e
    ensures KernelSafe(Apply(k, e, env, down), base)
    ensures TerminalKept(k.core.ledger, Apply(k, e, env, down).core.ledger, false)
  {
    PinnedRows(k.core, e, env.event, base);
    var rows := PinnedConfig(k.core, e).Rows(e.phase, env.event);
    if rows.Some? {
      var i := PickRow(rows.value, e, PinnedConfig(k.core, e));
      if i.Some? {
        ApplyFrameSafe(k.core, e, env.event, env.id, rows.value, i.value, base);
        CommitSafe(k, ApplyFrame(k.core, e, env.event, env.id, rows.value, i.value), down, base);
      }
    }
  }

  /** The first record of a request: its entry as admission leaves it. */
  lemma AdmitFrameSafe(core: Core, env: Envelope, refusal: Option<string>, base: Config) returns (e1: RequestState)
    requires Safe(core, base) && Usable(core.config) && env.Envelope? && env.rid.Some? && env.rid.value !in core.ledger.entries
    requires refusal.None? ==> core.ledger.ActiveCount() < core.config.maxActive
    ensures AdmitFrame(core, env, refusal).core == core.(ledger := core.ledger.Put(e1)) && e1.rid == env.rid.value
    ensures Safe(AdmitFrame(core, env, refusal).core, base)
    ensures refusal.None? ==> e1.phase == Initialized && core.config.transitions[(Created, RequestReceived)][0].chain == Some(Routing)
  {
    var cfg := core.config;
    DefaultKeys(cfg, Created, RequestReceived);
    DefaultKeys(cfg, Initialized, Routing);
    var rows := cfg.transitions[(Created, RequestReceived)];
    assert rows == DefaultRows(Created, RequestReceived);
    var e0 := NewEntry(env.rid.value, DeclaredTypeOf(env), cfg.version);
    var i := if refusal.None? then 0 else 1;
    var info: Info := map[DeclaredType := e0.declaredType, Reason := if refusal.Some? then refusal.value else ""];
    DefaultRowShape(Created, RequestReceived, i);
    RowSafe(e0, RequestReceived, Some(env.id), rows[i], cfg, base, Truthy(info));
    e1 := Applied(e0, RequestReceived, Some(env.id), rows[i], Truthy(info));
    PutTwice(core.ledger, e0, e1);
    PutSafe(core, e1, base);
  }

  lemma AdmitSafe(k: Kernel, env: Envelope, down: Outage, base: Config)
    requires KernelSafe(k, base) && Usable(k.core.config) && env.Envelope?
    requires env.rid.Some? ==> env.rid.value !in k.core.ledger.entries
    ensures KernelSafe(Admit(k, env, down), base)
    ensures forall r :: r in k.core.ledger.entries ==>
      r in Admit(k, env, down).core.ledger.entries
      && Admit(k, env, down).core.ledger.entries[r] == k.core.ledger.entries[r]
  {
    if env.rid.Some? && env.rid.value != "" {
      var refusal := Decide(env, k.core.config, k.io.halted, k.core.ledger.ActiveCount());
      var f := AdmitFrame(k.core, env, refusal);
      var e1 := AdmitFrameSafe(k.core, env, refusal, base);
      CommitSafe(k, f, down, base);
      if refusal.None? {
        ChainSafe(f.core, e1, env.id, base);
        CommitSafe(Commit(k, f, down), ChainFrame(f.core, e1, env.id, Routing), down, base);
      }
    }
  }

  lemma ChainSafe(c: Core, e: RequestState, eventId: string, base: Config)
    requires Safe(c, base) && Usable(c.config)
    requires e.rid in c.ledger.entries && c.ledger.entries[e.rid] == e && e.phase == Initialized
    ensures (e.phase, Routing) in c.config.transitions
    ensures Safe(ChainFrame(c, e, eventId, Routing).core, base)
    ensures forall r :: r in c.ledger.entries && r != e.rid ==>
      r in ChainFrame(c, e, eventId, Routing).core.ledger.entries
      && ChainFrame(c, e, eventId, Routing).core.ledger.entries[r] == c.ledger.entries[r]
  {
    var cfg := c.config;
    DefaultKeys(cfg, Initialized, Routing);
    var owner := Route(e.declaredType, cfg);
    var i := if owner.Ok? then 0 else 1;
    var info: Info := map[RoutingTarget := if owner.Ok? then owner.value else "",
                          Reason := if owner.Ok? then "" else owner.error];
    assert cfg.transitions[(Initialized, Routing)] == DefaultRows(Initialized, Routing);
    DefaultRowShape(Initialized, Routing, i);
    RowSafe(e, Routing, Some(eventId), DefaultRows(Initialized, Routing)[i], cfg, base, Truthy(info));
    PutSafe(c, Applied(e, Routing, Some(eventId), DefaultRows(Initialized, Routing)[i], Truthy(info)), base);
  }

  lemma {:induction false} EvictSafe(k: Kernel, ids: seq<string>, down: Outage, base: Config)
    requires KernelSafe(k, base)
    ensures KernelSafe(EvictTerminal(k, ids, down), base)
    ensures forall r :: r in EvictTerminal(k, ids, down).core.ledger.entries ==>
      r in k.core.ledger.entries && EvictTerminal(k, ids, down).core.ledger.entries[r] == k.core.ledger.entries[r]
    decreases |ids|
  {
    if ids != [] {
      var r := ids[0];
      if r in k.core.ledger.entries && k.core.ledger.entries[r].phase.Terminal() {
        EvictActive(k.core.ledger, r);
        EvictValid(k.core.ledger, r);
        CommitSafe(k, CleanupFrame(k.core, k.core.ledger.entries[r]), down, base);
        EvictSafe(Commit(k, CleanupFrame(k.core, k.core.ledger.entries[r]), down), ids[1..], down, base);
      } else {
        EvictSafe(k, ids[1..], down, base);
      }
    }
  }

  ghost predicate EnvSameLimits(env: Envelope, base: Config) {
    env.Envelope? && env.snapshot.Some? && SnapshotValid(env.snapshot.value) ==> SameLimits(env.snapshot.value.cfg, base)
  }

  lemma RequestSafe(k: Kernel, env: Envelope, down: Outage, base: Config)
    requires KernelSafe(k, base) && Usable(k.core.config) && env.Envelope?
    ensures KernelSafe(HandleRequest(k, env, down), base)
    ensures TerminalKept(k.core.ledger, HandleRequest(k, env, down).core.ledger, false)
  {
    if env.rid.Some? && env.rid.value in k.core.ledger.entries {
      var e := k.core.ledger.entries[env.rid.value];
      if e.lastEvent == Some(env.id) {
        CommitSafe(k, NoopFrame(k.core, e, env), down, base);
      } else if env.event != RequestReceived {
        ApplySafe(k, e, env, down, base);
      }
    } else if env.event.RequestReceived? {
      AdmitSafe(k, env, down, base);
    }
  }

  lemma HandleSafe(k: Kernel, env: Envelope, down: Outage, base: Config)
    requires KernelSafe(k, base) && Usable(k.core.config) && EnvSameLimits(env, base)
    ensures KernelSafe(Handle(k, env, down), base)
    ensures TerminalKept(k.core.ledger, Handle(k, env, down).core.ledger,
                         Accepted(env, k.core.config) && env.event.SessionSleep?)
  {
    if Accepted(env, k.core.config) {
      if env.event.ConfigChanged? {
        if env.snapshot.Some? && SnapshotValid(env.snapshot.value) {
          CommitSafe(k, ConfigFrame(k.core, env.snapshot.value.cfg), down, base);
        }
      } else if env.event.SessionWake? || env.event.SessionSleep? {
        var k1 := Commit(k, SessionFrame(k.core, env.event), down);
        CommitSafe(k, SessionFrame(k.core, env.event), down, base);
        EvictSafe(k1, k1.core.ledger.order, down, base);
      } else {
        RequestSafe(k, env, down, base);
      }
    }
  }

  lemma StepSafe(k: Kernel, op: Op, down: Outage, base: Config)
    requires SameLimits(base, base) && KernelOk(FreshCore(base), k) && KernelSafe(k, base)
    requires op.Deliver? ==> EnvSameLimits(op.env, base)
    ensures KernelSafe(Step(base, k, op, down), base)
  {
    match op
    case Deliver(env) => HandleSafe(k, env, down, base);
    case Restart(keep, published) => RestartSafe(k, if keep <= |k.frames| then keep else |k.frames|, published, down, base);
  }

  lemma RestartSafe(k: Kernel, n: nat, published: Published, down: Outage, base: Config)
    requires KernelOk(FreshCore(base), k) && KernelSafe(k, base) && n <= |k.frames| && SameLimits(base, base)
    ensures KernelSafe(Recover(FreshKernel(base, k.io.wire), Log(k.frames)[..n], published, down).1, base)
  {
    RecoverWalks(base, k.io.wire, k.frames, n, published, down);
    if n == 0 {
      FreshSafe(base);
    }
  }

  lemma FreshSafe(base: Config)
    requires SameLimits(base, base)
    ensures Safe(FreshCore(base), base)
  {
    assert FreshCore(base).ledger.ActiveIds() == {};
  }

  lemma OpsSameLimitsSound(base: Config, ops: seq<Op>)
    requires SameLimits(base, base)
    requires forall i :: 0 <= i < |ops| ==> ops[i].Deliver? ==> EnvSameLimits(ops[i].env, base)
    ensures Sound(base) && OpsSound(ops)
  {
    DefaultTableSound(base);
    forall i | 0 <= i < |ops| ensures OpSound(ops[i]) {
      if ops[i].Deliver? && ops[i].env.Envelope? && ops[i].env.snapshot.Some? && SnapshotValid(ops[i].env.snapshot.value) {
        DefaultTableSound(ops[i].env.snapshot.value.cfg);
      }
    }
  }

  /** Over every run of the default table, with any envelopes, outages and restarts:
      a completed request has a recorded verify.passed, no request replans more than
      max_replans times, and at most max_active_requests are active -- now and at
      every record of the log. */
  lemma {:induction false} RunSafe(base: Config, ops: seq<Op>, down: Outage)
    requires SameLimits(base, base)
    requires forall i :: 0 <= i < |ops| ==> ops[i].Deliver? ==> EnvSameLimits(ops[i].env, base)
    ensures Sound(base) && OpsSound(ops)
    ensures KernelSafe(Run(base, ops, down), base)
  {
    OpsSameLimitsSound(base, ops);
    if ops == [] {
      assert FreshCore(base).ledger.ActiveIds() == {};
    } else {
      RunSafe(base, ops[..|ops| - 1], down);
      StepSafe(Run(base, ops[..|ops| - 1], down), ops[|ops| - 1], down, base);
    }
  }

  // -- the numbering of the log --------------------------------------------------------

  function SequenceOf(c: Core, r: string): nat {
    if r in c.ledger.entries then c.ledger.entries[r].sequence else 0
  }

  predicate IsTransition(rec: Rec) {
    !Reserved(rec.event) && rec.verdict.None?
  }

  /** Reads the numbers a log gives to the transitions of one request, incarnation by
      incarnation: the last number so far, or None once there is a gap or a repeat. */
  function Numbering(last: Option<int>, log: seq<Rec>, r: string): Option<int>
    decreases |log|
  {
    if log == [] || last.None? then last
    else Numbering(NextNumber(last.value, log[0], r), log[1..], r)
  }

  function NextNumber(last: int, rec: Rec, r: string): Option<int> {
    if rec.rid != Some(r) then Some(last)
    else if rec.event.Cleanup? then Some(0)
    else if !IsTransition(rec) then Some(last)
    else if rec.sequence == last + 1 then Some(last + 1)
    else None
  }

  lemma StepNumbers(c: Core, rec: Rec, r: string)
    requires c.ledger.Valid() && ReplayRecord(c, rec).Ok?
    ensures NextNumber(SequenceOf(c, r), rec, r) == Some(SequenceOf(ReplayRecord(c, rec).value.core, r))
  {
    if IsTransition(rec) {
      var f := ReplayTransition(c, rec).value;
      assert rec.rid.value in f.core.ledger.entries;
      assert f.core.ledger.entries[rec.rid.value].sequence == rec.sequence == SequenceOf(c, rec.rid.value) + 1;
      assert rec.rid != Some(r) ==> SequenceOf(f.core, r) == SequenceOf(c, r);
    } else if rec.event.Cleanup? {
      assert rec.rid == Some(r) ==> SequenceOf(ReplayRecord(c, rec).value.core, r) == 0;
    }
  }

  ghost predicate Numbers(step: Replayer, r: string) {
    forall c: Core, rec :: c.ledger.Valid() && step(c, rec).Ok? ==>
      NextNumber(SequenceOf(c, r), rec, r) == Some(SequenceOf(step(c, rec).value.core, r))
  }

  lemma {:induction false} ChainNumbers(step: Replayer, start: Core, frames: seq<Frame>, r: string)
    requires ChainOf(step, start, frames) && Numbers(step, r)
    requires start.ledger.Valid() && forall i :: 0 <= i < |frames| ==> frames[i].core.ledger.Valid()
    ensures Numbering(Some(SequenceOf(start, r)), Log(frames), r) == Some(SequenceOf(Last(start, frames), r))
    decreases |frames|
  {
    if frames != [] {
      assert Log(frames)[1..] == Log(frames[1..]);
      ChainNumbers(step, frames[0].core, frames[1..], r);
    }
  }

  /** In the log of every run, over any table recovery supports, the transitions of
      each incarnation of a request are numbered 1, 2, ... without gap or repeat, and
      the ledger holds the last number. */
  lemma LogIsNumbered(cfg: Config, ops: seq<Op>, down: Outage, r: string)
    requires Sound(cfg) && OpsSound(ops)
    ensures var k := Run(cfg, ops, down);
            Numbering(Some(0), Log(k.frames), r) == Some(SequenceOf(k.core, r))
  {
    forall c: Core, rec | c.ledger.Valid() && ReplayRecord(c, rec).Ok?
      ensures NextNumber(SequenceOf(c, r), rec, r) == Some(SequenceOf(ReplayRecord(c, rec).value.core, r))
    {
      StepNumbers(c, rec, r);
    }
    ChainNumbers(ReplayRecord, FreshCore(cfg), Run(cfg, ops, down).frames, r);
  }
}
