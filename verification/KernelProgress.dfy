/** What the default table does for a request, told without the table: when a request is
    admitted and routed, that the last verdict decides its completion, and that it is
    replanned exactly as often as the fault policy allows. */
module KernelProgress {
  import opened KernelTypes
  import opened KernelMachine
  import opened KernelRecovery
  import opened KernelDefault
  import opened KernelSafety
  import opened Wrappers

  /** The ledger holds e, under snapshots that keep the default table and limits. */
  ghost predicate Holds(k: Kernel, e: RequestState, base: Config) {
    && SameLimits(k.core.config, base) && DEFAULT_INBOUND <= k.core.config.inbound
    && (forall v :: v in k.core.configs ==> SameLimits(k.core.configs[v], base))
    && e.rid in k.core.ledger.entries && k.core.ledger.entries[e.rid] == e
  }

  /** An envelope with this event about this request. */
  predicate About(env: Envelope, event: Event, rid: string) {
    env.Envelope? && env.event == event && env.rid == Some(rid) && env.id != ""
  }

  predicate Fresh(env: Envelope, last: Option<string>) {
    env.Envelope? && last != Some(env.id)
  }

  /** The id an entry has applied last after these envelopes. */
  function LastId(last: Option<string>, envs: seq<Envelope>): Option<string> {
    if envs != [] && envs[|envs| - 1].Envelope? then Some(envs[|envs| - 1].id) else last
  }

  /** No envelope repeats the id of the one before it. */
  predicate FreshIds(last: Option<string>, envs: seq<Envelope>) {
    envs == []
    || (FreshIds(last, envs[..|envs| - 1]) && Fresh(envs[|envs| - 1], LastId(last, envs[..|envs| - 1])))
  }

  /** The kernel after handling envelopes one after another. A configuration that is not
      usable, which cannot occur here, would end the run. */
  ghost function After(k: Kernel, envs: seq<Envelope>, down: Outage): Kernel {
    if envs == [] then k
    else
      var before := After(k, envs[..|envs| - 1], down);
      if Usable(before.core.config) then Handle(before, envs[|envs| - 1], down) else before
  }

  lemma OneMore(last: Option<string>, envs: seq<Envelope>, env: Envelope)
    requires FreshIds(last, envs + [env])
    ensures FreshIds(last, envs) && Fresh(env, LastId(last, envs))
  {
    assert (envs + [env])[..|envs|] == envs;
  }

  lemma AfterOneMore(k: Kernel, envs: seq<Envelope>, env: Envelope, down: Outage)
    requires Usable(After(k, envs, down).core.config)
    ensures After(k, envs + [env], down) == Handle(After(k, envs, down), env, down)
  {
    assert (envs + [env])[..|envs|] == envs;
  }

  // -- one row --------------------------------------------------------------------

  /** The first row whose guard holds is the one applied. */
  lemma Moves(k: Kernel, e: RequestState, env: Envelope, i: nat, down: Outage, base: Config)
    requires Holds(k, e, base) && env.Envelope? && About(env, env.event, e.rid) && Fresh(env, e.lastEvent)
    requires env.event in DEFAULT_INBOUND && !Reserved(env.event) && !env.event.RequestReceived?
    requires i < |DefaultRows(e.phase, env.event)|
    requires PickRow(DefaultRows(e.phase, env.event), e, PinnedConfig(k.core, e)) == Some(i)
    ensures Usable(k.core.config)
    ensures Holds(Handle(k, env, down), Applied(e, env.event, Some(env.id), DefaultRows(e.phase, env.event)[i], map[]), base)
  {
    DefaultUsable(k.core.config);
    assert SameLimits(PinnedConfig(k.core, e), base);
    DefaultKeys(PinnedConfig(k.core, e), e.phase, env.event);
    assert Accepted(env, k.core.config);
    assert Truthy(map[]) == map[];
    assert Handle(k, env, down) == Apply(k, e, env, down);
  }

  lemma FirstRow(rows: seq<Row>, e: RequestState, cfg: Config)
    requires rows != [] && (rows[0].when.Some? ==> GuardHolds(rows[0].when.value, e, cfg))
    ensures PickRow(rows, e, cfg) == Some(0)
  {
  }

  lemma SecondRow(rows: seq<Row>, e: RequestState, cfg: Config)
    requires |rows| == 2 && rows[0].when.Some? && !GuardHolds(rows[0].when.value, e, cfg) && rows[1].when.None?
    ensures PickRow(rows, e, cfg) == Some(1)
  {
    assert PickFrom(rows, 1, e, cfg) == Some(1);
  }

  lemma OneAction(row: Row, e: RequestState, event: Event, info: Info)
    requires |row.actions| == 1
    ensures DoActions(row.actions, e, event, info) == DoAction(row.actions[0], e, event, info)
  {
    assert row.actions[1..] == [];
  }

  // -- completion -----------------------------------------------------------------

  /** A verdict on the request: verify.passed or verify.failed. */
  predicate Verdict(env: Envelope, rid: string) {
    About(env, VerifyPassed, rid) || About(env, VerifyFailed, rid)
  }

  predicate Passed(env: Envelope) {
    env.Envelope? && env.event.VerifyPassed?
  }

  /** Both verdicts have one unguarded row, which records them. */
  lemma VerdictRow(e: RequestState, env: Envelope, next: Phase) returns (row: Row)
    requires Verdict(env, e.rid) && env.Envelope?
    requires e.phase == Executing || e.phase == Verifying
    requires next == if e.phase == Executing then Executing else if Passed(env) then Completed else Scheduled
    ensures DefaultRows(e.phase, env.event) == [row] && row.when.None?
    ensures var e' := Applied(e, env.event, Some(env.id), row, map[]);
            e'.phase == next && (VerificationPassed(e') <==> Passed(env))
    ensures env.event in DEFAULT_INBOUND && !Reserved(env.event) && !env.event.RequestReceived?
  {
    row := DefaultRows(e.phase, env.event)[0];
    OneAction(row, e, env.event, map[]);
  }

  lemma MovesAlong(k: Kernel, e: RequestState, env: Envelope, row: Row, down: Outage, base: Config)
    requires Holds(k, e, base) && env.Envelope? && About(env, env.event, e.rid) && Fresh(env, e.lastEvent)
    requires env.event in DEFAULT_INBOUND && !Reserved(env.event) && !env.event.RequestReceived?
    requires DefaultRows(e.phase, env.event) == [row] && row.when.None?
    ensures Usable(k.core.config)
    ensures Holds(Handle(k, env, down), Applied(e, env.event, Some(env.id), row, map[]), base)
  {
    FirstRow([row], e, PinnedConfig(k.core, e));
    Moves(k, e, env, 0, down, base);
  }

  lemma VerdictRecorded(k: Kernel, e: RequestState, env: Envelope, down: Outage, base: Config) returns (e': RequestState)
    requires Holds(k, e, base) && e.phase == Executing && Verdict(env, e.rid) && env.Envelope? && Fresh(env, e.lastEvent)
    ensures Usable(k.core.config) && Holds(Handle(k, env, down), e', base)
    ensures e'.phase == Executing && e'.rid == e.rid && e'.lastEvent == Some(env.id)
    ensures VerificationPassed(e') <==> Passed(env)
  {
    var row := VerdictRow(e, env, Executing);
    MovesAlong(k, e, env, row, down, base);
    e' := Applied(e, env.event, Some(env.id), row, map[]);
  }

  lemma Completion(k: Kernel, e: RequestState, env: Envelope, down: Outage, base: Config) returns (e': RequestState)
    requires Holds(k, e, base) && e.phase == Executing && About(env, TaskCompleted, e.rid) && Fresh(env, e.lastEvent)
    ensures Usable(k.core.config) && Holds(Handle(k, env, down), e', base)
    ensures e'.rid == e.rid && e'.phase == if VerificationPassed(e) then Completed else Verifying
  {
    var rows := DefaultRows(Executing, TaskCompleted);
    var cfg := PinnedConfig(k.core, e);
    assert SameLimits(cfg, base);
    assert GuardHolds(rows[0].when.value, e, cfg) <==> VerificationPassed(e);
    if VerificationPassed(e) {
      FirstRow(rows, e, cfg);
    } else {
      SecondRow(rows, e, cfg);
    }
    var i := if VerificationPassed(e) then 0 else 1;
    Moves(k, e, env, i, down, base);
    e' := Applied(e, TaskCompleted, Some(env.id), rows[i], map[]);
  }

  predicate Verdicts(envs: seq<Envelope>, rid: string) {
    forall i :: 0 <= i < |envs| ==> Verdict(envs[i], rid)
  }

  lemma {:induction false} VerdictsRecorded(k: Kernel, e: RequestState, verdicts: seq<Envelope>, down: Outage, base: Config)
    returns (e': RequestState)
    requires Holds(k, e, base) && e.phase == Executing
    requires FreshIds(e.lastEvent, verdicts) && Verdicts(verdicts, e.rid)
    ensures Holds(After(k, verdicts, down), e', base) && e'.phase == Executing && e'.rid == e.rid
    ensures e'.lastEvent == LastId(e.lastEvent, verdicts)
    ensures verdicts != [] ==> (VerificationPassed(e') <==> Passed(verdicts[|verdicts| - 1]))
  {
    e' := e;
    if verdicts != [] {
      var before, env := verdicts[..|verdicts| - 1], verdicts[|verdicts| - 1];
      var e1 := VerdictsRecorded(k, e, before, down, base);
      e' := VerdictRecorded(After(k, before, down), e1, env, down, base);
    }
  }

  /** Whatever verdicts an executing request collects, the last of them decides: the
      task's completion completes the request if it passed, and otherwise leaves it
      verifying. */
  lemma {:induction false} LastVerdictDecides(k: Kernel, e: RequestState, verdicts: seq<Envelope>, done: Envelope, down: Outage, base: Config)
    requires Holds(k, e, base) && e.phase == Executing
    requires verdicts != [] && Verdicts(verdicts, e.rid)
    requires About(done, TaskCompleted, e.rid) && FreshIds(e.lastEvent, verdicts + [done])
    ensures var entries := After(k, verdicts + [done], down).core.ledger.entries;
            && e.rid in entries
            && entries[e.rid].phase == if Passed(verdicts[|verdicts| - 1]) then Completed else Verifying
  {
    OneMore(e.lastEvent, verdicts, done);
    var e1 := VerdictsRecorded(k, e, verdicts, down, base);
    var e2 := Completion(After(k, verdicts, down), e1, done, down, base);
    AfterOneMore(k, verdicts, done, down);
  }

  /** And a request left verifying is completed by the next pass, or scheduled again by
      the next failure. */
  lemma VerifyingIsDecided(k: Kernel, e: RequestState, env: Envelope, down: Outage, base: Config)
    requires Holds(k, e, base) && e.phase == Verifying && Verdict(env, e.rid) && env.Envelope? && Fresh(env, e.lastEvent)
    ensures Usable(k.core.config)
    ensures var entries := Handle(k, env, down).core.ledger.entries;
            && e.rid in entries
            && entries[e.rid].phase == (if Passed(env) then Completed else Scheduled)
            && (VerificationPassed(entries[e.rid]) <==> Passed(env))
  {
    var row := VerdictRow(e, env, if Passed(env) then Completed else Scheduled);
    MovesAlong(k, e, env, row, down, base);
  }

  // -- replanning -----------------------------------------------------------------

  lemma TaskFails(k: Kernel, e: RequestState, env: Envelope, down: Outage, base: Config) returns (e': RequestState)
    requires Holds(k, e, base) && e.phase == Executing && About(env, TaskFailed, e.rid) && Fresh(env, e.lastEvent)
    ensures Usable(k.core.config) && Holds(Handle(k, env, down), e', base)
    ensures e'.rid == e.rid && e'.lastEvent == Some(env.id)
    ensures if e.replans < base.maxReplans then e'.phase == Scheduled && e'.replans == e.replans + 1
            else e'.phase == Failed && e'.replans == e.replans
  {
    var rows := DefaultRows(Executing, TaskFailed);
    var cfg := PinnedConfig(k.core, e);
    assert SameLimits(cfg, base);
    var i := if e.replans < base.maxReplans then 0 else 1;
    if i == 0 {
      FirstRow(rows, e, cfg);
      OneAction(rows[0], e, TaskFailed, map[]);
    } else {
      SecondRow(rows, e, cfg);
    }
    Moves(k, e, env, i, down, base);
    e' := Applied(e, TaskFailed, Some(env.id), rows[i], map[]);
  }

  lemma PlanArrives(k: Kernel, e: RequestState, env: Envelope, down: Outage, base: Config) returns (e': RequestState)
    requires Holds(k, e, base) && e.phase == Scheduled && About(env, PlanCreated, e.rid) && Fresh(env, e.lastEvent)
    ensures Usable(k.core.config) && Holds(Handle(k, env, down), e', base)
    ensures e'.rid == e.rid && e'.lastEvent == Some(env.id) && e'.phase == Executing && e'.replans == e.replans
  {
    var row := Plain(Executing);
    MovesAlong(k, e, env, row, down, base);
    e' := Applied(e, PlanCreated, Some(env.id), row, map[]);
  }

  /** A failure and the plan that answers it, again and again. */
  type Failures = seq<(Envelope, Envelope)>

  predicate Rounds(rounds: Failures, rid: string) {
    forall i :: 0 <= i < |rounds| ==> About(rounds[i].0, TaskFailed, rid) && About(rounds[i].1, PlanCreated, rid)
  }

  function Flat(rounds: Failures): seq<Envelope> {
    if rounds == [] then []
    else Flat(rounds[..|rounds| - 1]) + [rounds[|rounds| - 1].0] + [rounds[|rounds| - 1].1]
  }

  lemma OneRound(k: Kernel, e: RequestState, before: seq<Envelope>, failure: Envelope, plan: Envelope,
                 last: Option<string>, down: Outage, base: Config) returns (e': RequestState)
    requires Holds(After(k, before, down), e, base) && e.phase == Executing && e.lastEvent == LastId(last, before)
    requires FreshIds(last, before + [failure] + [plan]) && e.replans < base.maxReplans
    requires About(failure, TaskFailed, e.rid) && About(plan, PlanCreated, e.rid)
    ensures Holds(After(k, before + [failure] + [plan], down), e', base) && e'.phase == Executing && e'.rid == e.rid
    ensures e'.replans == e.replans + 1 && e'.lastEvent == Some(plan.id)
  {
    OneMore(last, before + [failure], plan);
    OneMore(last, before, failure);
    var e1 := TaskFails(After(k, before, down), e, failure, down, base);
    AfterOneMore(k, before, failure, down);
    e' := PlanArrives(After(k, before + [failure], down), e1, plan, down, base);
    AfterOneMore(k, before + [failure], plan, down);
  }

  lemma {:induction false} RoundsPass(k: Kernel, e: RequestState, rounds: Failures, down: Outage, base: Config)
    returns (e': RequestState)
    requires Holds(k, e, base) && e.phase == Executing
    requires Rounds(rounds, e.rid) && FreshIds(e.lastEvent, Flat(rounds)) && e.replans + |rounds| <= base.maxReplans
    ensures Holds(After(k, Flat(rounds), down), e', base) && e'.phase == Executing && e'.rid == e.rid
    ensures e'.replans == e.replans + |rounds| && e'.lastEvent == LastId(e.lastEvent, Flat(rounds))
  {
    e' := e;
    if rounds != [] {
      var before, round := rounds[..|rounds| - 1], rounds[|rounds| - 1];
      OneMore(e.lastEvent, Flat(before) + [round.0], round.1);
      OneMore(e.lastEvent, Flat(before), round.0);
      e' := RoundsPass(k, e, before, down, base);
      e' := OneRound(k, e', Flat(before), round.0, round.1, e.lastEvent, down, base);
    }
  }

  /** The replan budget is exact: failures are answered by scheduling again up to the
      limit of the fault policy, and the very next one fails the request. */
  lemma {:induction false} ReplanBudgetIsExact(k: Kernel, e: RequestState, rounds: Failures, last: Envelope, down: Outage, base: Config)
    requires Holds(k, e, base) && e.phase == Executing
    requires Rounds(rounds, e.rid) && About(last, TaskFailed, e.rid) && FreshIds(e.lastEvent, Flat(rounds) + [last])
    requires e.replans + |rounds| <= base.maxReplans
    ensures var entries := After(k, Flat(rounds) + [last], down).core.ledger.entries;
            && e.rid in entries
            && entries[e.rid].phase == if e.replans + |rounds| < base.maxReplans then Scheduled else Failed
  {
    OneMore(e.lastEvent, Flat(rounds), last);
    var e1 := RoundsPass(k, e, rounds, down, base);
    var e2 := TaskFails(After(k, Flat(rounds), down), e1, last, down, base);
    AfterOneMore(k, Flat(rounds), last, down);
  }

  // -- admission ------------------------------------------------------------------

  /** Everything the configuration requires of a request is there. */
  predicate Complete(env: Envelope, cfg: Config)
    requires env.Envelope?
  {
    env.event in cfg.schemas ==> forall i :: 0 <= i < |cfg.schemas[env.event]| ==> HasKey(env, cfg.schemas[env.event][i])
  }

  lemma {:induction false} NothingMissing(required: seq<string>, env: Envelope)
    requires env.Envelope?
    ensures FirstMissing(required, env).None? <==> forall i :: 0 <= i < |required| ==> HasKey(env, required[i])
  {
    if required != [] && HasKey(env, required[0]) {
      NothingMissing(required[1..], env);
      assert forall i :: 0 < i < |required| ==> required[i] == required[1..][i - 1];
    }
  }

  predicate Admissible(k: Kernel, env: Envelope)
    requires env.Envelope?
  {
    !k.io.halted && k.core.ledger.ActiveCount() < k.core.config.maxActive && Complete(env, k.core.config)
  }

  lemma AdmissibleDecides(k: Kernel, env: Envelope)
    requires env.Envelope?
    ensures Admissible(k, env) <==> Decide(env, k.core.config, k.io.halted, k.core.ledger.ActiveCount()).None?
  {
    NothingMissing(if env.event in k.core.config.schemas then k.core.config.schemas[env.event] else [], env);
  }

  /** The two lists a new request goes through are the default ones. */
  ghost predicate AdmitsByDefault(cfg: Config) {
    && Usable(cfg)
    && cfg.Rows(Created, RequestReceived) == Some(DefaultRows(Created, RequestReceived))
    && cfg.Rows(Initialized, Routing) == Some(DefaultRows(Initialized, Routing))
  }

  lemma DefaultAdmits(cfg: Config)
    requires DefaultTable(cfg)
    ensures AdmitsByDefault(cfg)
  {
    DefaultUsable(cfg);
    DefaultKeys(cfg, Created, RequestReceived);
    DefaultKeys(cfg, Initialized, Routing);
  }

  /** A new request is scheduled, for its one owner, exactly when admission is not halted,
      there is room, it carries what the configuration requires and its type has one
      owner; otherwise it has failed. No other request is touched. */
  lemma ScheduledExactly(k: Kernel, env: Envelope, rid: string, down: Outage)
    requires AdmitsByDefault(k.core.config) && RequestReceived in k.core.config.inbound
    requires About(env, RequestReceived, rid) && rid != "" && rid !in k.core.ledger.entries
    ensures var cfg := k.core.config;
            var entries := Handle(k, env, down).core.ledger.entries;
            var declared := DeclaredTypeOf(env);
            var routed := declared in cfg.routing && cfg.routing[declared].One?;
            && entries.Keys == k.core.ledger.entries.Keys + {rid}
            && (forall r :: r in k.core.ledger.entries ==> entries[r] == k.core.ledger.entries[r])
            && entries[rid].phase == (if Admissible(k, env) && routed then Scheduled else Failed)
            && entries[rid].sequence == (if Admissible(k, env) then 2 else 1)
            && (Admissible(k, env) && routed && cfg.routing[declared].name != "" ==> entries[rid].target == Some(cfg.routing[declared].name))
  {
    var cfg := k.core.config;
    AdmissibleDecides(k, env);
    var refusal := Decide(env, cfg, k.io.halted, k.core.ledger.ActiveCount());
    assert Handle(k, env, down) == Admit(k, env, down);
    var f := AdmitFrame(k.core, env, refusal);
    AdmittedEntry(k.core, env, rid, refusal);
    if refusal.None? {
      Routed(f.core, f.core.ledger.entries[rid], env.id);
    }
  }

  lemma AdmittedEntry(c: Core, env: Envelope, rid: string, refusal: Option<string>)
    requires AdmitsByDefault(c.config)
    requires env.Envelope? && env.rid == Some(rid) && rid !in c.ledger.entries
    ensures var after := AdmitFrame(c, env, refusal).core;
            && after.config == c.config && after.configs == c.configs
            && after.ledger.entries.Keys == c.ledger.entries.Keys + {rid}
            && (forall r :: r in c.ledger.entries ==> after.ledger.entries[r] == c.ledger.entries[r])
            && var e := after.ledger.entries[rid];
               && e.rid == rid && e.sequence == 1 && e.declaredType == DeclaredTypeOf(env)
               && e.cfgVersion == c.config.version && e.replans == 0 && e.lastEvent == Some(env.id)
               && e.phase == if refusal.None? then Initialized else Failed
  {
  }

  lemma Routed(c: Core, e: RequestState, eventId: string)
    requires AdmitsByDefault(c.config) && e.phase == Initialized
    requires e.rid in c.ledger.entries && c.ledger.entries[e.rid] == e
    ensures (Initialized, Routing) in c.config.transitions
    ensures var owner := Route(e.declaredType, c.config);
            var after := ChainFrame(c, e, eventId, Routing).core;
            var entries := after.ledger.entries;
            && after.config == c.config && after.configs == c.configs
            && entries.Keys == c.ledger.entries.Keys
            && (forall r :: r in entries && r != e.rid ==> entries[r] == c.ledger.entries[r])
            && entries[e.rid].phase == (if owner.Ok? then Scheduled else Failed)
            && entries[e.rid].sequence == e.sequence + 1
            && entries[e.rid] == e.(phase := entries[e.rid].phase, sequence := e.sequence + 1, lastEvent := Some(eventId),
                                    target := entries[e.rid].target)
            && (owner.Ok? && owner.value != "" ==> entries[e.rid].target == Some(owner.value))
  {
    var rows := DefaultRows(Initialized, Routing);
    var owner := Route(e.declaredType, c.config);
    if owner.Ok? {
      var info: Info := map[RoutingTarget := owner.value, Reason := ""];
      OneAction(rows[0], e, Routing, Truthy(info));
    }
  }

  /** The default snapshot itself is one the safety and progress theorems are about. */
  lemma DefaultQualifies()
    ensures SameLimits(DEFAULT, DEFAULT) && DEFAULT_INBOUND <= DEFAULT.inbound
    ensures forall declared :: declared in DEFAULT.routing ==> Route(declared, DEFAULT).Ok?
  {
    DefaultTabulated();
  }
}
