/** The order of what is published: every record before the events it causes, one record
    after another; faults alone; and alerts and faults numbered through. */
module KernelWire {
  import opened KernelTypes
  import opened KernelMachine
  import opened KernelRecovery
  import opened KernelBoundary
  import opened Wrappers

  /** The messages of these calls but the outage alerts. */
  function Regular(wire: seq<Attempt>): seq<Message> {
    if wire == [] then []
    else
      var last := wire[|wire| - 1].message;
      Regular(wire[..|wire| - 1]) + if OutageAlert(last) then [] else [last]
  }

  /** What these records should publish: each itself, then its events. */
  function Due(frames: seq<Frame>): seq<Message> {
    if frames == [] then []
    else Due(frames[..|frames| - 1]) + [LogMessage(frames[|frames| - 1].rec)] + frames[|frames| - 1].emitted
  }

  /** The numbers of the faults among these calls. */
  function Numbers(wire: seq<Attempt>): seq<nat> {
    if wire == [] then []
    else
      var last := wire[|wire| - 1].message;
      Numbers(wire[..|wire| - 1]) + if last.FaultMessage? then [last.counter] else []
  }

  lemma {:induction false} RegularAppend(a: seq<Attempt>, b: seq<Attempt>)
    ensures Regular(a + b) == Regular(a) + Regular(b)
    ensures Numbers(a + b) == Numbers(a) + Numbers(b)
  {
    if b == [] {
      assert a + b == a;
    } else {
      assert (a + b)[..|a + b| - 1] == a + b[..|b| - 1];
      RegularAppend(a, b[..|b| - 1]);
    }
  }

  lemma {:induction false} DueAppend(a: seq<Frame>, b: seq<Frame>)
    ensures Due(a + b) == Due(a) + Due(b)
  {
    if b == [] {
      assert a + b == a;
    } else {
      assert (a + b)[..|a + b| - 1] == a + b[..|b| - 1];
      DueAppend(a, b[..|b| - 1]);
    }
  }

  /** Consecutive, from the number after one to another. */
  predicate Consecutive(numbers: seq<nat>, from: nat, to: nat) {
    from + |numbers| == to && forall i :: 0 <= i < |numbers| ==> numbers[i] == from + i + 1
  }

  /** Calls that publish just these messages, alerts apart, with faults numbered through. */
  ghost predicate Carries(before: Io, after: Io, messages: seq<Message>) {
    && before.wire <= after.wire
    && Regular(after.wire[|before.wire|..]) == messages
    && Consecutive(Numbers(after.wire[|before.wire|..]), before.outSeq, after.outSeq)
  }

  lemma CarriesTwice(a: Io, b: Io, c: Io, first: seq<Message>, second: seq<Message>)
    requires Carries(a, b, first) && Carries(b, c, second)
    ensures Carries(a, c, first + second)
  {
    var x, y := b.wire[|a.wire|..], c.wire[|b.wire|..];
    assert c.wire[|a.wire|..] == x + y;
    RegularAppend(x, y);
  }

  lemma OneAttempt(x: Attempt)
    ensures Regular([x]) == if OutageAlert(x.message) then [] else [x.message]
    ensures Numbers([x]) == if x.message.FaultMessage? then [x.message.counter] else []
  {
    assert [x][..0] == [];
  }

  lemma TwoAttempts(x: Attempt, y: Attempt)
    ensures Regular([x, y]) == Regular([x]) + Regular([y]) && Numbers([x, y]) == Numbers([x]) + Numbers([y])
  {
    assert [x, y] == [x] + [y];
    RegularAppend([x], [y]);
  }

  lemma SafePublishCarries(io: Io, m: Message, version: int, down: Outage)
    requires !m.FaultMessage?
    ensures Carries(io, SafePublish(io, m, version, down), [m])
  {
    var after, n := SafePublish(io, m, version, down), |io.wire|;
    OneAttempt(after.wire[n]);
    if |after.wire| == n + 1 {
      assert after.wire[n..] == [after.wire[n]];
    } else {
      assert after.wire[n..] == [after.wire[n], after.wire[n + 1]];
      TwoAttempts(after.wire[n], after.wire[n + 1]);
      OneAttempt(after.wire[n + 1]);
    }
  }

  lemma FaultCarries(k: Kernel, reason: FaultReason, eventId: Option<string>, about: Option<string>, down: Outage) returns (m: Message)
    requires reason != CommunicationUnavailable
    ensures m == FaultMessage(k.io.outSeq + 1, reason, eventId, about, k.core.config.version)
    ensures Carries(k.io, Fault(k, reason, eventId, about, down).io, [m])
  {
    var after, n := Fault(k, reason, eventId, about, down).io, |k.io.wire|;
    m := after.wire[n].message;
    OneAttempt(after.wire[n]);
    if |after.wire| == n + 1 {
      assert after.wire[n..] == [after.wire[n]];
    } else {
      assert after.wire[n..] == [after.wire[n], after.wire[n + 1]];
      TwoAttempts(after.wire[n], after.wire[n + 1]);
      OneAttempt(after.wire[n + 1]);
    }
  }

  lemma {:induction false} PublishAllCarries(io: Io, ms: seq<Message>, version: int, down: Outage)
    requires forall i :: 0 <= i < |ms| ==> ms[i].RowMessage?
    ensures Carries(io, PublishAll(io, ms, version, down), ms)
    decreases |ms|
  {
    if ms == [] {
      assert io.wire[|io.wire|..] == [];
    } else {
      var next := SafePublish(io, ms[0], version, down);
      SafePublishCarries(io, ms[0], version, down);
      PublishAllCarries(next, ms[1..], version, down);
      CarriesTwice(io, next, PublishAll(next, ms[1..], version, down), [ms[0]], ms[1..]);
      assert [ms[0]] + ms[1..] == ms;
    }
  }

  /** From one kernel to another: records are only added, and what is published is each of
      them and its events, in order. */
  ghost predicate Logged(k: Kernel, after: Kernel) {
    k.frames <= after.frames && Carries(k.io, after.io, Due(after.frames[|k.frames|..]))
  }

  lemma LoggedNothing(k: Kernel)
    ensures Logged(k, k)
  {
    assert k.io.wire[|k.io.wire|..] == [] && k.frames[|k.frames|..] == [];
  }

  lemma LoggedTwice(a: Kernel, b: Kernel, c: Kernel)
    requires Logged(a, b) && Logged(b, c)
    ensures Logged(a, c)
  {
    var x, y := b.frames[|a.frames|..], c.frames[|b.frames|..];
    assert c.frames[|a.frames|..] == x + y;
    DueAppend(x, y);
    CarriesTwice(a.io, b.io, c.io, Due(x), Due(y));
  }

  lemma CommitLogs(k: Kernel, f: Frame, down: Outage)
    requires forall i :: 0 <= i < |f.emitted| ==> f.emitted[i].RowMessage?
    ensures Logged(k, Commit(k, f, down))
  {
    var version := f.core.config.version;
    var io := SafePublish(k.io, LogMessage(f.rec), version, down);
    SafePublishCarries(k.io, LogMessage(f.rec), version, down);
    PublishAllCarries(io, f.emitted, version, down);
    CarriesTwice(k.io, io, PublishAll(io, f.emitted, version, down), [LogMessage(f.rec)], f.emitted);
    var added := Commit(k, f, down).frames[|k.frames|..];
    assert added == [f] && [f][..0] == [];
    assert Due([f]) == [] + [LogMessage(f.rec)] + f.emitted;
    assert [] + [LogMessage(f.rec)] == [LogMessage(f.rec)];
  }

  lemma {:induction false} EvictLogs(k: Kernel, ids: seq<string>, down: Outage)
    ensures Logged(k, EvictTerminal(k, ids, down))
    decreases |ids|
  {
    if ids == [] {
      LoggedNothing(k);
    } else {
      var r := ids[0];
      if r in k.core.ledger.entries && k.core.ledger.entries[r].phase.Terminal() {
        var k1 := Commit(k, CleanupFrame(k.core, k.core.ledger.entries[r]), down);
        CommitLogs(k, CleanupFrame(k.core, k.core.ledger.entries[r]), down);
        EvictLogs(k1, ids[1..], down);
        LoggedTwice(k, k1, EvictTerminal(k1, ids[1..], down));
      } else {
        EvictLogs(k, ids[1..], down);
      }
    }
  }

  /** Either way an envelope is answered. */
  ghost predicate AnsweredBy(k: Kernel, after: Kernel) {
    || (after.frames != k.frames && Logged(k, after))
    || (after.frames == k.frames && exists m: Message :: m.FaultMessage? && m.reason != CommunicationUnavailable && Carries(k.io, after.io, [m]))
  }

  lemma FaultAnswers(k: Kernel, reason: FaultReason, eventId: Option<string>, about: Option<string>, down: Outage)
    requires reason != CommunicationUnavailable
    ensures AnsweredBy(k, Fault(k, reason, eventId, about, down))
  {
    var m := FaultCarries(k, reason, eventId, about, down);
  }

  lemma CommitAnswers(k: Kernel, f: Frame, down: Outage)
    requires forall i :: 0 <= i < |f.emitted| ==> f.emitted[i].RowMessage?
    ensures AnsweredBy(k, Commit(k, f, down))
  {
    CommitLogs(k, f, down);
    assert |Commit(k, f, down).frames| == |k.frames| + 1;
  }

  lemma AdmitAnswers(k: Kernel, env: Envelope, down: Outage)
    requires Usable(k.core.config) && env.Envelope?
    ensures AnsweredBy(k, Admit(k, env, down))
  {
    if env.rid.None? || env.rid.value == "" {
      FaultAnswers(k, MissingId, Some(env.id), env.rid, down);
    } else {
      var cfg := k.core.config;
      var refusal := Decide(env, cfg, k.io.halted, k.core.ledger.ActiveCount());
      var f := AdmitFrame(k.core, env, refusal);
      var k1 := Commit(k, f, down);
      CommitLogs(k, f, down);
      var row := cfg.transitions[(Created, RequestReceived)][0];
      if refusal.None? && row.chain.Some? {
        var next := ChainFrame(f.core, f.core.ledger.entries[env.rid.value], env.id, row.chain.value);
        CommitLogs(k1, next, down);
        LoggedTwice(k, k1, Commit(k1, next, down));
      }
      AdmissionIsRecorded(k, env, down);
    }
  }

  lemma RequestAnswers(k: Kernel, env: Envelope, down: Outage)
    requires Usable(k.core.config) && k.core.ledger.Valid() && env.Envelope?
    ensures AnsweredBy(k, HandleRequest(k, env, down))
  {
    if env.rid.Some? && env.rid.value in k.core.ledger.entries {
      var e := k.core.ledger.entries[env.rid.value];
      if e.lastEvent == Some(env.id) {
        CommitAnswers(k, NoopFrame(k.core, e, env), down);
      } else if env.event.RequestReceived? {
        FaultAnswers(k, Unmatched(e.phase, env.event), Some(env.id), env.rid, down);
      } else {
        ApplyAnswers(k, e, env, down);
      }
    } else if env.event.RequestReceived? {
      AdmitAnswers(k, env, down);
    } else {
      FaultAnswers(k, UnknownRequest(env.event), Some(env.id), env.rid, down);
    }
  }

  lemma ApplyAnswers(k: Kernel, e: RequestState, env: Envelope, down: Outage)
    requires env.Envelope?
    ensures AnsweredBy(k, Apply(k, e, env, down))
  {
    var cfg := PinnedConfig(k.core, e);
    var rows := cfg.Rows(e.phase, env.event);
    if rows.None? {
      FaultAnswers(k, Unmatched(e.phase, env.event), Some(env.id), env.rid, down);
    } else {
      var i := PickRow(rows.value, e, cfg);
      if i.None? {
        FaultAnswers(k, NoRow(e.phase, env.event), Some(env.id), env.rid, down);
      } else {
        CommitAnswers(k, ApplyFrame(k.core, e, env.event, env.id, rows.value, i.value), down);
      }
    }
  }

  /** Every envelope is answered by its records, each published before the events it causes,
      one record after another, or by a single fault. Outage alerts apart, nothing else is
      published; alerts and faults together are numbered without gap or repeat. */
  lemma LogBeforePublish(k: Kernel, env: Envelope, down: Outage)
    requires Usable(k.core.config) && k.core.ledger.Valid()
    ensures AnsweredBy(k, Handle(k, env, down))
  {
    if !Accepted(env, k.core.config) {
      match env
      case Junk => FaultAnswers(k, BadEnvelope, None, None, down);
      case Incomplete(id, rid) => FaultAnswers(k, BadEnvelope, id, rid, down);
      case Envelope(id, _, rid, _, _) => FaultAnswers(k, BadEnvelope, Some(id), rid, down);
    } else if env.event.ConfigChanged? {
      if env.snapshot.Some? && SnapshotValid(env.snapshot.value) {
        CommitAnswers(k, ConfigFrame(k.core, env.snapshot.value.cfg), down);
      } else {
        FaultAnswers(k, ConfigInvalid, Some(env.id), env.rid, down);
      }
    } else if env.event.SessionWake? || env.event.SessionSleep? {
      var k1 := Commit(k, SessionFrame(k.core, env.event), down);
      CommitLogs(k, SessionFrame(k.core, env.event), down);
      EvictLogs(k1, k1.core.ledger.order, down);
      LoggedTwice(k, k1, EvictTerminal(k1, k1.core.ledger.order, down));
      assert |k1.frames| == |k.frames| + 1;
    } else {
      RequestAnswers(k, env, down);
    }
  }
}
