/** What one envelope does, told by the ledger, the log and the wire alone: which requests
    a session boundary evicts, what changes nothing, and when admission is halted. */
module KernelBoundary {
  import opened KernelTypes
  import opened KernelMachine
  import opened KernelRecovery
  import opened Orders
  import opened Wrappers

  /** An envelope with this event that the kernel takes in. */
  predicate Arrives(k: Kernel, env: Envelope, event: Event) {
    env.Envelope? && env.id != "" && env.event == event && event in k.core.config.inbound
  }

  predicate Over(p: Phase) {
    p == Completed || p == Failed || p == Cancelled
  }

  /** The listed ids of requests that are over, or of those that are not, in order. */
  function Picked(ids: seq<string>, entries: map<string, RequestState>, over: bool): seq<string> {
    if ids == [] then []
    else
      var r := ids[0];
      (if r in entries && Over(entries[r].phase) == over then [r] else []) + Picked(ids[1..], entries, over)
  }

  // -- session boundaries -----------------------------------------------------------

  /** Exactly these are gone from the ledger, and nothing else has changed. */
  ghost predicate Evicted(before: Ledger, after: Ledger, ids: seq<string>) {
    && (forall r :: r in after.entries <==> r in before.entries && !(r in ids && Over(before.entries[r].phase)))
    && (forall r :: r in after.entries ==> after.entries[r] == before.entries[r])
  }

  /** The records of an eviction: one for each of these requests, in order. */
  ghost predicate CleanedUp(frames: seq<Frame>, ids: seq<string>, before: Ledger) {
    && |frames| == |ids|
    && forall i :: 0 <= i < |ids| ==>
         && ids[i] in before.entries
         && var e, rec := before.entries[ids[i]], frames[i].rec;
            && rec.rid == Some(ids[i]) && rec.event == Cleanup && rec.prior == Some(e.phase) && rec.sequence == e.sequence + 1
            && frames[i].emitted == []
  }

  lemma {:induction false} PickedAfter(l: Ledger, rest: seq<string>, r: string)
    requires r !in rest
    ensures Picked(rest, l.Evict(r).entries, true) == Picked(rest, l.entries, true)
    ensures r !in Picked(rest, l.entries, true)
    decreases |rest|
  {
    if rest != [] {
      PickedAfter(l, rest[1..], r);
    }
  }

  lemma {:induction false} EvictionLeaves(k: Kernel, ids: seq<string>, down: Outage)
    requires k.core.ledger.Valid()
    ensures var core := EvictTerminal(k, ids, down).core;
            core.ledger.Valid() && core == k.core.(ledger := core.ledger) && Evicted(k.core.ledger, core.ledger, ids)
    decreases |ids|
  {
    if ids != [] {
      var r, l := ids[0], k.core.ledger;
      if r in l.entries && l.entries[r].phase.Terminal() {
        EvictValid(l, r);
        EvictionLeaves(Commit(k, CleanupFrame(k.core, l.entries[r]), down), ids[1..], down);
      } else {
        EvictionLeaves(k, ids[1..], down);
      }
    }
  }

  lemma OneCleanup(l: Ledger, r: string, f: Frame, more: seq<Frame>, ids: seq<string>)
    requires r in l.entries && l.entries[r].rid == r && r !in ids && CleanedUp(more, ids, l.Evict(r))
    requires var e := l.entries[r];
             f.rec.rid == Some(r) && f.rec.event == Cleanup && f.rec.prior == Some(e.phase) && f.rec.sequence == e.sequence + 1
             && f.emitted == []
    ensures CleanedUp([f] + more, [r] + ids, l)
  {
    forall i | 0 <= i < |ids| ensures ids[i] in l.entries && l.entries[ids[i]] == l.Evict(r).entries[ids[i]] {
    }
  }

  lemma {:induction false} EvictionRecords(k: Kernel, ids: seq<string>, down: Outage) returns (cleanups: seq<Frame>)
    requires k.core.ledger.Valid() && Distinct(ids)
    ensures EvictTerminal(k, ids, down).frames == k.frames + cleanups
    ensures CleanedUp(cleanups, Picked(ids, k.core.ledger.entries, true), k.core.ledger)
    decreases |ids|
  {
    cleanups := [];
    if ids != [] {
      var r, rest, l := ids[0], ids[1..], k.core.ledger;
      RestDistinct(ids);
      if r in l.entries && l.entries[r].phase.Terminal() {
        var f := CleanupFrame(k.core, l.entries[r]);
        EvictValid(l, r);
        PickedAfter(l, rest, r);
        var more := EvictionRecords(Commit(k, f, down), rest, down);
        OneCleanup(l, r, f, more, Picked(rest, l.entries, true));
        cleanups := [f] + more;
        SeqAssociates(k.frames, [f], more);
      } else {
        cleanups := EvictionRecords(k, rest, down);
      }
    }
  }

  lemma RestDistinct(ids: seq<string>)
    requires Distinct(ids) && ids != []
    ensures ids[0] !in ids[1..] && Distinct(ids[1..])
  {
  }

  /** A sleeping session evicts exactly the requests that are over: afterwards a request is
      known if and only if it was and is neither completed, failed nor cancelled, every
      one still known is as it was, and the log has one cleanup record for each that
      went, in order of admission. Whatever the bus does. */
  lemma SleepEvictsExactly(k: Kernel, env: Envelope, down: Outage) returns (cleanups: seq<Frame>)
    requires Usable(k.core.config) && k.core.ledger.Valid() && Arrives(k, env, SessionSleep)
    ensures var before, after := k.core.ledger.entries, Handle(k, env, down).core.ledger.entries;
            && (forall r :: r in after <==>
                  r in before && before[r].phase != Completed && before[r].phase != Failed && before[r].phase != Cancelled)
            && (forall r :: r in after ==> after[r] == before[r])
    ensures Handle(k, env, down).core == k.core.(ledger := Handle(k, env, down).core.ledger)
    ensures |cleanups| >= 1 && cleanups[0].rec.event == SessionSleep && cleanups[0].core == k.core
    ensures CleanedUp(cleanups[1..], Picked(k.core.ledger.order, k.core.ledger.entries, true), k.core.ledger)
    ensures Handle(k, env, down).frames == k.frames + cleanups
  {
    var f := SessionFrame(k.core, env.event);
    var k1 := Commit(k, f, down);
    assert Handle(k, env, down) == EvictTerminal(k1, k.core.ledger.order, down);
    var more := EvictionRecords(k1, k.core.ledger.order, down);
    EvictionLeaves(k1, k.core.ledger.order, down);
    cleanups := [f] + more;
    assert cleanups[1..] == more;
    SeqAssociates(k.frames, [f], more);
  }

  /** Waking changes nothing but the log. */
  lemma WakeKeepsAll(k: Kernel, env: Envelope, down: Outage)
    requires Usable(k.core.config) && Arrives(k, env, SessionWake)
    ensures Handle(k, env, down).core == k.core
    ensures Handle(k, env, down).frames[..|k.frames|] == k.frames && |Handle(k, env, down).frames| == |k.frames| + 1
  {
  }

  // -- what changes nothing -----------------------------------------------------------

  /** The event an entry applied last, delivered again, has no effect: one record says so,
      with the entry as it stands, and nothing is published but that record. */
  lemma DuplicateIsNoop(k: Kernel, env: Envelope, rid: string, down: Outage)
    requires Usable(k.core.config) && k.core.ledger.Valid() && env.Envelope? && Arrives(k, env, env.event)
    requires env.event !in {ConfigChanged, SessionWake, SessionSleep}
    requires env.rid == Some(rid) && rid in k.core.ledger.entries && k.core.ledger.entries[rid].lastEvent == Some(env.id)
    ensures var after := Handle(k, env, down);
            && after.core == k.core && |after.frames| == |k.frames| + 1 && after.frames[..|k.frames|] == k.frames
            && var e, f := k.core.ledger.entries[rid], after.frames[|k.frames|];
               && f.rec.verdict == Some("duplicate") && f.rec.rid == Some(rid) && f.rec.eventId == Some(env.id)
               && f.rec.sequence == e.sequence && f.rec.prior == f.rec.next == Some(e.phase) && f.emitted == []
  {
  }

  /** Why an envelope is only answered with a fault, if it is: it is malformed or not a known
      event; it is about a request nobody knows, or about none; it would receive a known one
      again; or the table its request is pinned to has no row for it, or none whose guard holds. */
  ghost predicate Faulty(k: Kernel, env: Envelope, reason: FaultReason) {
    var entries := k.core.ledger.entries;
    if !env.Envelope? || env.id == "" || env.event !in k.core.config.inbound then reason == BadEnvelope
    else if env.event == ConfigChanged then
      reason == ConfigInvalid && forall cfg :: env.snapshot != Some(Snap(cfg)) || !Installable(cfg)
    else if env.event == SessionWake || env.event == SessionSleep then false
    else if env.rid.None? || env.rid.value !in entries then
      if env.event == RequestReceived then reason == MissingId && (env.rid.None? || env.rid.value == "")
      else reason == UnknownRequest(env.event)
    else
      var e := entries[env.rid.value];
      && e.lastEvent != Some(env.id)
      && if env.event == RequestReceived then reason == Unmatched(e.phase, env.event)
         else
           var cfg := if e.cfgVersion in k.core.configs then k.core.configs[e.cfgVersion] else k.core.config;
           if (e.phase, env.event) !in cfg.transitions then reason == Unmatched(e.phase, env.event)
           else
             && reason == NoRow(e.phase, env.event)
             && forall i :: 0 <= i < |cfg.transitions[(e.phase, env.event)]| ==>
                  Blocked(cfg.transitions[(e.phase, env.event)][i], e, cfg)
  }

  /** A snapshot with no negative limit and no empty list of rows. */
  predicate Installable(cfg: Config) {
    && cfg.maxReplans >= 0 && cfg.maxActive >= 0
    && forall k :: k in cfg.transitions ==> |cfg.transitions[k]| > 0
  }

  /** The row has a guard and it does not hold. */
  predicate Blocked(row: Row, e: RequestState, cfg: Config) {
    match row.when
    case None => false
    case Some(Gate(name)) =>
      name !in cfg.gates || cfg.gates[name].check != "verdict_true"
      || var key := if cfg.gates[name].verdict.Some? then cfg.gates[name].verdict.value else "verification";
         key !in e.verdicts || !e.verdicts[key]
    case Some(ReplansRemaining) => e.replans >= cfg.maxReplans
    case Some(OtherGuard(_)) => true
  }

  lemma BlockedExactly(row: Row, e: RequestState, cfg: Config)
    ensures Blocked(row, e, cfg) <==> row.when.Some? && !GuardHolds(row.when.value, e, cfg)
  {
  }

  lemma NoneHolds(rows: seq<Row>, e: RequestState, cfg: Config)
    ensures PickRow(rows, e, cfg).None? <==> forall i :: 0 <= i < |rows| ==> Blocked(rows[i], e, cfg)
  {
    forall i | 0 <= i < |rows| ensures Blocked(rows[i], e, cfg) <==> rows[i].when.Some? && !GuardHolds(rows[i].when.value, e, cfg) {
      BlockedExactly(rows[i], e, cfg);
    }
  }

  ghost predicate OnlyFault(k: Kernel, after: Kernel, reason: FaultReason) {
    && after.core == k.core && after.frames == k.frames && |after.io.wire| > |k.io.wire|
    && after.io.wire[|k.io.wire|].message.FaultMessage?
    && after.io.wire[|k.io.wire|].message.reason == reason
  }

  lemma Installs(s: Option<Snapshot>)
    ensures (s.Some? && SnapshotValid(s.value)) <==> exists cfg :: s == Some(Snap(cfg)) && Installable(cfg)
  {
    if s.Some? && SnapshotValid(s.value) {
      assert s == Some(Snap(s.value.cfg)) && Installable(s.value.cfg);
    }
  }

  /** A faulty envelope changes neither ledger nor log; the fault published first says why. */
  lemma FaultyChangesNothing(k: Kernel, env: Envelope, reason: FaultReason, down: Outage)
    requires Usable(k.core.config) && k.core.ledger.Valid() && Faulty(k, env, reason)
    ensures OnlyFault(k, Handle(k, env, down), reason)
  {
    if env.Envelope? {
      Installs(env.snapshot);
      if env.rid.Some? && env.rid.value in k.core.ledger.entries {
        var e := k.core.ledger.entries[env.rid.value];
        var cfg := PinnedConfig(k.core, e);
        if (e.phase, env.event) in cfg.transitions {
          NoneHolds(cfg.transitions[(e.phase, env.event)], e, cfg);
        }
      }
    }
  }

  lemma AdmissionIsRecorded(k: Kernel, env: Envelope, down: Outage)
    requires Usable(k.core.config) && env.Envelope? && env.rid.Some? && env.rid.value != ""
    ensures |Admit(k, env, down).frames| > |k.frames|
  {
  }

  lemma UnrecordedRequest(k: Kernel, env: Envelope, down: Outage) returns (reason: FaultReason)
    requires Usable(k.core.config) && k.core.ledger.Valid() && env.Envelope? && Arrives(k, env, env.event)
    requires env.event !in {ConfigChanged, SessionWake, SessionSleep} && HandleRequest(k, env, down).frames == k.frames
    ensures Faulty(k, env, reason)
  {
    if env.rid.Some? && env.rid.value in k.core.ledger.entries {
      var e := k.core.ledger.entries[env.rid.value];
      var cfg := PinnedConfig(k.core, e);
      if env.event == RequestReceived || (e.phase, env.event) !in cfg.transitions {
        reason := Unmatched(e.phase, env.event);
      } else {
        NoneHolds(cfg.transitions[(e.phase, env.event)], e, cfg);
        reason := NoRow(e.phase, env.event);
      }
    } else if env.event == RequestReceived {
      if env.rid.Some? && env.rid.value != "" {
        AdmissionIsRecorded(k, env, down);
      }
      reason := MissingId;
    } else {
      reason := UnknownRequest(env.event);
    }
  }

  lemma WhyUnrecorded(k: Kernel, env: Envelope, down: Outage) returns (reason: FaultReason)
    requires Usable(k.core.config) && k.core.ledger.Valid() && Handle(k, env, down).frames == k.frames
    ensures Faulty(k, env, reason)
  {
    if !env.Envelope? || env.id == "" || env.event !in k.core.config.inbound {
      reason := BadEnvelope;
    } else if env.event == ConfigChanged {
      Installs(env.snapshot);
      reason := ConfigInvalid;
    } else if env.event == SessionSleep {
      var cleanups := SleepEvictsExactly(k, env, down);
      assert false;
    } else if env.event == SessionWake {
      WakeKeepsAll(k, env, down);
      assert false;
    } else {
      reason := UnrecordedRequest(k, env, down);
    }
  }

  /** And only a faulty one leaves the log as it was: everything else is recorded. */
  lemma UnrecordedIsFaulty(k: Kernel, env: Envelope, down: Outage)
    requires Usable(k.core.config) && k.core.ledger.Valid()
    ensures Handle(k, env, down).frames == k.frames <==> exists reason :: Faulty(k, env, reason)
  {
    if Handle(k, env, down).frames == k.frames {
      var reason := WhyUnrecorded(k, env, down);
    } else if reason :| Faulty(k, env, reason) {
      FaultyChangesNothing(k, env, reason, down);
    }
  }

  /** A valid snapshot becomes the configuration in use and is kept under its version; the
      ledger, and every other version kept, stay as they are. */
  lemma ConfigInstalls(k: Kernel, env: Envelope, cfg: Config, down: Outage)
    requires Usable(k.core.config) && Arrives(k, env, ConfigChanged) && env.snapshot == Some(Snap(cfg)) && Installable(cfg)
    ensures var core := Handle(k, env, down).core;
            && core.config == cfg && core.ledger == k.core.ledger
            && cfg.version in core.configs && core.configs[cfg.version] == cfg
            && forall v :: v != cfg.version ==>
                 (v in core.configs <==> v in k.core.configs) && (v in core.configs ==> core.configs[v] == k.core.configs[v])
  {
  }

  /** A request in flight is decided under the snapshot it was admitted under: whichever
      configuration is now in use, the same envelope leaves the same ledger and the same
      records, or is refused alike. */
  lemma InFlightIsPinned(k: Kernel, other: Config, env: Envelope, rid: string, down: Outage)
    requires k.core.ledger.Valid() && Usable(k.core.config) && Usable(other)
    requires env.Envelope? && Arrives(k, env, env.event) && env.event in other.inbound
    requires env.event !in {ConfigChanged, SessionWake, SessionSleep} && env.rid == Some(rid)
    requires rid in k.core.ledger.entries && k.core.ledger.entries[rid].cfgVersion in k.core.configs
    ensures var k' := k.(core := k.core.(config := other));
            && Handle(k', env, down).core.ledger == Handle(k, env, down).core.ledger
            && Log(Handle(k', env, down).frames) == Log(Handle(k, env, down).frames)
  {
    var k' := k.(core := k.core.(config := other));
    var e := k.core.ledger.entries[rid];
    assert PinnedConfig(k'.core, e) == PinnedConfig(k.core, e) == k.core.configs[e.cfgVersion];
  }

  // -- outages --------------------------------------------------------------------------

  /** From one state of publishing to a later one: calls are only added; admission is halted
      afterwards if and only if it was or one of them failed; and the one alert comes right
      after the first failure, unless admission was halted before. */
  ghost predicate Sent(before: Io, after: Io) {
    && before.wire <= after.wire
    && (after.halted <==> before.halted || exists i :: |before.wire| <= i < |after.wire| && !after.wire[i].delivered)
    && (forall i :: |before.wire| <= i < |after.wire| ==> AlertedRight(after.wire, |before.wire|, before.halted, i))
    && (!before.halted && |before.wire| < |after.wire| ==> !FirstFailure(after.wire, |before.wire|, |after.wire| - 1))
  }

  predicate OutageAlert(m: Message) {
    m.FaultMessage? && m.reason == CommunicationUnavailable
  }

  /** Call n is the first to fail, from `from` on. */
  predicate FirstFailure(wire: seq<Attempt>, from: nat, n: int)
    requires n < |wire|
  {
    from <= n && !wire[n].delivered && forall i :: from <= i < n ==> wire[i].delivered
  }

  /** Call i is the alert if and only if the call before it is the first failure. */
  predicate AlertedRight(wire: seq<Attempt>, from: nat, halted: bool, i: nat)
    requires i < |wire|
  {
    OutageAlert(wire[i].message) <==> !halted && i > from && FirstFailure(wire, from, i - 1)
  }

  lemma SentNothing(a: Io)
    ensures Sent(a, a)
  {
  }

  lemma FirstFailureKept(b: seq<Attempt>, c: seq<Attempt>, from: nat, n: int)
    requires b <= c && n < |b|
    ensures FirstFailure(c, from, n) <==> FirstFailure(b, from, n)
  {
    assert forall j :: 0 <= j < |b| ==> c[j] == b[j];
  }

  /** Within calls that did not all succeed, nothing later is the first failure. */
  lemma FirstFailureOnly(b: seq<Attempt>, c: seq<Attempt>, from: nat, i: nat, n: int)
    requires b <= c && from <= i < |b| <= n < |c| && !b[i].delivered
    ensures !FirstFailure(c, from, n)
  {
    assert c[i] == b[i];
  }

  lemma FirstFailureLater(b: seq<Attempt>, c: seq<Attempt>, from: nat, n: int)
    requires b <= c && from <= |b| <= n < |c| && forall i :: from <= i < |b| ==> b[i].delivered
    ensures FirstFailure(c, from, n) <==> FirstFailure(c, |b|, n)
  {
    assert forall j :: 0 <= j < |b| ==> c[j] == b[j];
  }

  lemma AlertedTwice(a: Io, b: Io, c: Io, i: nat)
    requires Sent(a, b) && Sent(b, c) && |a.wire| <= i < |c.wire|
    ensures AlertedRight(c.wire, |a.wire|, a.halted, i)
  {
    var from := |a.wire|;
    if i < |b.wire| {
      assert AlertedRight(b.wire, from, a.halted, i) && c.wire[i] == b.wire[i];
      FirstFailureKept(b.wire, c.wire, from, i - 1);
    } else {
      assert AlertedRight(c.wire, |b.wire|, b.halted, i);
      if i == |b.wire| {
        FirstFailureKept(b.wire, c.wire, from, i - 1);
      } else if !a.halted && b.halted {
        var j :| from <= j < |b.wire| && !b.wire[j].delivered;
        FirstFailureOnly(b.wire, c.wire, from, j, i - 1);
      } else if !a.halted {
        FirstFailureLater(b.wire, c.wire, from, i - 1);
      }
    }
  }

  lemma LastTwice(a: Io, b: Io, c: Io)
    requires Sent(a, b) && Sent(b, c) && !a.halted && |a.wire| < |c.wire|
    ensures !FirstFailure(c.wire, |a.wire|, |c.wire| - 1)
  {
    var from, n := |a.wire|, |c.wire| - 1;
    if |c.wire| == |b.wire| {
      FirstFailureKept(b.wire, c.wire, from, n);
    } else if b.halted {
      var j :| from <= j < |b.wire| && !b.wire[j].delivered;
      FirstFailureOnly(b.wire, c.wire, from, j, n);
    } else {
      FirstFailureLater(b.wire, c.wire, from, n);
    }
  }

  lemma SentTwice(a: Io, b: Io, c: Io)
    requires Sent(a, b) && Sent(b, c)
    ensures Sent(a, c)
  {
    forall i | |a.wire| <= i < |c.wire| ensures AlertedRight(c.wire, |a.wire|, a.halted, i) {
      AlertedTwice(a, b, c, i);
    }
    if !a.halted && |a.wire| < |c.wire| {
      LastTwice(a, b, c);
    }
    assert forall j :: 0 <= j < |b.wire| ==> c.wire[j] == b.wire[j];
    if b.halted && !a.halted {
      var j :| |a.wire| <= j < |b.wire| && !b.wire[j].delivered;
      assert !c.wire[j].delivered;
    }
  }

  lemma SafePublishSends(io: Io, m: Message, version: int, down: Outage)
    requires !OutageAlert(m)
    ensures Sent(io, SafePublish(io, m, version, down))
  {
    var after := SafePublish(io, m, version, down);
    var n := |io.wire|;
    assert after.wire[n].message == m && after.wire[n].delivered == !down(n);
    assert |after.wire| > n + 1 ==> OutageAlert(after.wire[n + 1].message);
    assert FirstFailure(after.wire, n, n) <==> down(n);
  }

  lemma {:induction false} PublishAllSends(io: Io, ms: seq<Message>, version: int, down: Outage)
    requires forall i :: 0 <= i < |ms| ==> ms[i].RowMessage?
    ensures Sent(io, PublishAll(io, ms, version, down))
    decreases |ms|
  {
    if ms == [] {
      SentNothing(io);
    } else {
      SafePublishSends(io, ms[0], version, down);
      var next := SafePublish(io, ms[0], version, down);
      PublishAllSends(next, ms[1..], version, down);
      SentTwice(io, next, PublishAll(next, ms[1..], version, down));
    }
  }

  lemma CommitSends(k: Kernel, f: Frame, down: Outage)
    requires forall i :: 0 <= i < |f.emitted| ==> f.emitted[i].RowMessage?
    ensures Sent(k.io, Commit(k, f, down).io)
  {
    var version := f.core.config.version;
    var io := SafePublish(k.io, LogMessage(f.rec), version, down);
    SafePublishSends(k.io, LogMessage(f.rec), version, down);
    PublishAllSends(io, f.emitted, version, down);
    SentTwice(k.io, io, PublishAll(io, f.emitted, version, down));
  }

  lemma FaultSends(k: Kernel, reason: FaultReason, eventId: Option<string>, about: Option<string>, down: Outage)
    requires reason != CommunicationUnavailable
    ensures Sent(k.io, Fault(k, reason, eventId, about, down).io)
  {
    var n, version := k.io.outSeq + 1, k.core.config.version;
    SafePublishSends(k.io.(outSeq := n), FaultMessage(n, reason, eventId, about, version), version, down);
  }

  lemma {:induction false} EvictSends(k: Kernel, ids: seq<string>, down: Outage)
    ensures Sent(k.io, EvictTerminal(k, ids, down).io)
    decreases |ids|
  {
    if ids == [] {
      SentNothing(k.io);
    } else {
      var r := ids[0];
      if r in k.core.ledger.entries && k.core.ledger.entries[r].phase.Terminal() {
        var k1 := Commit(k, CleanupFrame(k.core, k.core.ledger.entries[r]), down);
        CommitSends(k, CleanupFrame(k.core, k.core.ledger.entries[r]), down);
        EvictSends(k1, ids[1..], down);
        SentTwice(k.io, k1.io, EvictTerminal(k1, ids[1..], down).io);
      } else {
        EvictSends(k, ids[1..], down);
      }
    }
  }

  lemma AdmitSends(k: Kernel, env: Envelope, down: Outage)
    requires Usable(k.core.config) && env.Envelope?
    ensures Sent(k.io, Admit(k, env, down).io)
  {
    if env.rid.None? || env.rid.value == "" {
      FaultSends(k, MissingId, Some(env.id), env.rid, down);
    } else {
      var cfg := k.core.config;
      var refusal := Decide(env, cfg, k.io.halted, k.core.ledger.ActiveCount());
      var f := AdmitFrame(k.core, env, refusal);
      var k1 := Commit(k, f, down);
      CommitSends(k, f, down);
      var row := cfg.transitions[(Created, RequestReceived)][0];
      if refusal.None? && row.chain.Some? {
        var next := ChainFrame(f.core, f.core.ledger.entries[env.rid.value], env.id, row.chain.value);
        CommitSends(k1, next, down);
        SentTwice(k.io, k1.io, Commit(k1, next, down).io);
      }
    }
  }

  lemma RequestSends(k: Kernel, env: Envelope, down: Outage)
    requires Usable(k.core.config) && k.core.ledger.Valid() && env.Envelope?
    ensures Sent(k.io, HandleRequest(k, env, down).io)
  {
    if env.rid.Some? && env.rid.value in k.core.ledger.entries {
      var e := k.core.ledger.entries[env.rid.value];
      if e.lastEvent == Some(env.id) {
        CommitSends(k, NoopFrame(k.core, e, env), down);
      } else if env.event.RequestReceived? {
        FaultSends(k, Unmatched(e.phase, env.event), Some(env.id), env.rid, down);
      } else {
        ApplySends(k, e, env, down);
      }
    } else if env.event.RequestReceived? {
      AdmitSends(k, env, down);
    } else {
      FaultSends(k, UnknownRequest(env.event), Some(env.id), env.rid, down);
    }
  }

  lemma ApplySends(k: Kernel, e: RequestState, env: Envelope, down: Outage)
    requires env.Envelope?
    ensures Sent(k.io, Apply(k, e, env, down).io)
  {
    var cfg := PinnedConfig(k.core, e);
    var rows := cfg.Rows(e.phase, env.event);
    if rows.None? {
      FaultSends(k, Unmatched(e.phase, env.event), Some(env.id), env.rid, down);
    } else {
      var i := PickRow(rows.value, e, cfg);
      if i.None? {
        FaultSends(k, NoRow(e.phase, env.event), Some(env.id), env.rid, down);
      } else {
        CommitSends(k, ApplyFrame(k.core, e, env.event, env.id, rows.value, i.value), down);
      }
    }
  }

  /** Over any envelope and any outage: admission is halted afterwards if and only if it was
      before or some publish failed, and the first failure raises one alert, right after
      it. */
  lemma HaltsExactly(k: Kernel, env: Envelope, down: Outage)
    requires Usable(k.core.config) && k.core.ledger.Valid()
    ensures Sent(k.io, Handle(k, env, down).io)
  {
    if !Accepted(env, k.core.config) {
      match env
      case Junk => FaultSends(k, BadEnvelope, None, None, down);
      case Incomplete(id, rid) => FaultSends(k, BadEnvelope, id, rid, down);
      case Envelope(id, _, rid, _, _) => FaultSends(k, BadEnvelope, Some(id), rid, down);
    } else if env.event.ConfigChanged? {
      if env.snapshot.Some? && SnapshotValid(env.snapshot.value) {
        CommitSends(k, ConfigFrame(k.core, env.snapshot.value.cfg), down);
      } else {
        FaultSends(k, ConfigInvalid, Some(env.id), env.rid, down);
      }
    } else if env.event.SessionWake? || env.event.SessionSleep? {
      var k1 := Commit(k, SessionFrame(k.core, env.event), down);
      CommitSends(k, SessionFrame(k.core, env.event), down);
      EvictSends(k1, k1.core.ledger.order, down);
      SentTwice(k.io, k1.io, EvictTerminal(k1, k1.core.ledger.order, down).io);
    } else {
      RequestSends(k, env, down);
    }
  }
}
