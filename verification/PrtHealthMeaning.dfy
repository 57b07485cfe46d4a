/** What a provider's evidence amounts to, told by the entries alone: whether it is disabled,
    how many failures count, how reliable it is, and when it is available. */
module PrtHealthMeaning {
  import opened PrtHealth
  import opened PrtHealthFold
  import opened PrtOverrides
  import opened Wrappers

  predicate Acts(e: Evidence, act: AdminKind) {
    e.Admin? && e.act == act
  }

  predicate Fails(e: Evidence) {
    e.Live? && (e.live == ExecFailed || e.live == ExecTimeout)
  }

  predicate Completes(e: Evidence) {
    e.Live? && e.live == ExecCompleted
  }

  predicate Forces(e: Evidence) {
    Acts(e, ForceQuarantine) || Acts(e, ForceRelease)
  }

  /** Disabled, and not enabled since. */
  predicate Disabled(own: seq<Evidence>) {
    exists i :: 0 <= i < |own| && Acts(own[i], Disable) && forall j :: i < j < |own| ==> !Acts(own[j], Enable)
  }

  /** The failures since the last completion or forced state. */
  function FailuresSince(own: seq<Evidence>): set<nat> {
    set i: nat | i < |own| && Fails(own[i]) && forall j :: i < j < |own| ==> !Completes(own[j]) && !Forces(own[j])
  }

  /** The completions since the last failure or forced state. */
  function CompletionsSince(own: seq<Evidence>): set<nat> {
    set i: nat | i < |own| && Completes(own[i]) && forall j :: i < j < |own| ==> !Fails(own[j]) && !Forces(own[j])
  }

  /** The last prior on record. */
  predicate LastPrior(own: seq<Evidence>, prior: real, version: int) {
    exists i :: 0 <= i < |own| && own[i].Priors? && own[i].prior == prior && own[i].priorsVersion == version
                && forall j :: i < j < |own| ==> !own[j].Priors?
  }

  lemma OneMoreDisabled(own: seq<Evidence>, e: Evidence)
    ensures Disabled(own + [e]) <==> Acts(e, Disable) || (Disabled(own) && !Acts(e, Enable))
  {
    var all := own + [e];
    if Disabled(all) {
      var i :| 0 <= i < |all| && Acts(all[i], Disable) && forall j :: i < j < |all| ==> !Acts(all[j], Enable);
      if i < |own| {
        assert own[i] == all[i] && forall j :: i < j < |own| ==> own[j] == all[j];
        assert all[|own|] == e;
      }
    }
    if Disabled(own) && !Acts(e, Enable) {
      var i :| 0 <= i < |own| && Acts(own[i], Disable) && forall j :: i < j < |own| ==> !Acts(own[j], Enable);
      assert all[i] == own[i] && forall j :: i < j < |own| ==> all[j] == own[j];
    }
    if Acts(e, Disable) {
      assert all[|own|] == e;
    }
  }

  lemma OneMoreFailure(own: seq<Evidence>, e: Evidence)
    ensures |FailuresSince(own + [e])| == if Completes(e) || Forces(e) then 0 else |FailuresSince(own)| + if Fails(e) then 1 else 0
  {
    var all := own + [e];
    assert all[|own|] == e && forall i :: 0 <= i < |own| ==> all[i] == own[i];
    assert |own| !in FailuresSince(own);
    assert FailuresSince(all) == if Completes(e) || Forces(e) then {} else FailuresSince(own) + if Fails(e) then {|own|} else {};
  }

  lemma OneMoreCompletion(own: seq<Evidence>, e: Evidence)
    ensures |CompletionsSince(own + [e])| == if Fails(e) || Forces(e) then 0 else |CompletionsSince(own)| + if Completes(e) then 1 else 0
  {
    var all := own + [e];
    assert all[|own|] == e && forall i :: 0 <= i < |own| ==> all[i] == own[i];
    assert |own| !in CompletionsSince(own);
    assert CompletionsSince(all) == if Fails(e) || Forces(e) then {} else CompletionsSince(own) + if Completes(e) then {|own|} else {};
  }

  lemma OneMorePrior(own: seq<Evidence>, e: Evidence, prior: real, version: int)
    ensures LastPrior(own + [e], prior, version)
            <==> if e.Priors? then e.prior == prior && e.priorsVersion == version else LastPrior(own, prior, version)
  {
    var all := own + [e];
    assert all[|own|] == e && forall i :: 0 <= i < |own| ==> all[i] == own[i];
    if LastPrior(all, prior, version) {
      var i :| 0 <= i < |all| && all[i].Priors? && all[i].prior == prior && all[i].priorsVersion == version
               && forall j :: i < j < |all| ==> !all[j].Priors?;
    }
    if e.Priors? {
      assert all[|own|].Priors?;
    }
  }

  lemma StepCounts(c: Carry, e: Evidence, t: Thresholds, legal: Legality, p: string)
    ensures var after := Step(c, e, t, legal, p);
            && after.cf == (if Completes(e) || Forces(e) then 0 else c.cf + if Fails(e) then 1 else 0)
            && after.cs == (if Fails(e) || Forces(e) then 0 else c.cs + if Completes(e) then 1 else 0)
  {
  }

  lemma {:induction false} CountsTell(own: seq<Evidence>, t: Thresholds, legal: Legality, p: string)
    ensures var c := Fold(own, t, legal, p);
            c.cf == |FailuresSince(own)| && c.cs == |CompletionsSince(own)|
  {
    if own != [] {
      var front, e := own[..|own| - 1], own[|own| - 1];
      CountsTell(front, t, legal, p);
      assert own == front + [e];
      StepCounts(Fold(front, t, legal, p), e, t, legal, p);
      OneMoreFailure(front, e);
      OneMoreCompletion(front, e);
    }
  }

  lemma {:induction false} FlagTells(own: seq<Evidence>, t: Thresholds, legal: Legality, p: string)
    ensures Fold(own, t, legal, p).disabled <==> Disabled(own)
  {
    if own != [] {
      var front, e := own[..|own| - 1], own[|own| - 1];
      FlagTells(front, t, legal, p);
      assert own == front + [e];
      OneMoreDisabled(front, e);
    }
  }

  lemma {:induction false} PriorTells(own: seq<Evidence>, t: Thresholds, legal: Legality, p: string, prior: real, version: int)
    ensures var c := Fold(own, t, legal, p);
            && (LastPrior(own, prior, version) ==> c.reliability == prior && c.priorsVersion == Some(version))
            && ((forall i :: 0 <= i < |own| ==> !own[i].Priors?) ==> c.reliability == 0.5 && c.priorsVersion == None)
  {
    if own != [] {
      var front, e := own[..|own| - 1], own[|own| - 1];
      PriorTells(front, t, legal, p, prior, version);
      assert own == front + [e];
      OneMorePrior(front, e, prior, version);
    }
  }

  /** What the carry counts is what is on record: the disabled flag, the failures and
      completions that still count, and the last prior; 0.5 with none. Whatever was legal. */
  lemma CarryTells(own: seq<Evidence>, t: Thresholds, legal: Legality, p: string)
    ensures var c := Fold(own, t, legal, p);
            && (c.disabled <==> Disabled(own))
            && c.cf == |FailuresSince(own)| && c.cs == |CompletionsSince(own)|
            && (forall prior, version :: LastPrior(own, prior, version) ==> c.reliability == prior && c.priorsVersion == Some(version))
            && ((forall i :: 0 <= i < |own| ==> !own[i].Priors?) ==> c.reliability == 0.5 && c.priorsVersion == None)
  {
    CountsTell(own, t, legal, p);
    FlagTells(own, t, legal, p);
    PriorTells(own, t, legal, p, 0.0, 0);
    forall prior, version | LastPrior(own, prior, version)
      ensures var c := Fold(own, t, legal, p); c.reliability == prior && c.priorsVersion == Some(version)
    {
      PriorTells(own, t, legal, p, prior, version);
    }
  }

  /** In a snapshot a provider is available if and only if it is not disabled and is healthy,
      degraded or recovered underneath; shown as unavailable if and only if disabled. */
  lemma AvailableExactly(entries: seq<Evidence>, t: Thresholds, legal: Legality, ids: set<string>, p: string)
    requires p in ids
    ensures p in HealthOf(entries, t, legal, ids)
    ensures var own, entry := EntriesFor(entries, p), HealthOf(entries, t, legal, ids)[p];
            var c := Fold(own, t, legal, p);
            && (entry.available <==> !Disabled(own) && (c.state == Healthy || c.state == Degraded || c.state == Recovered))
            && (Effective(c) == Unavailable <==> Disabled(own))
            && (!Disabled(own) ==> Effective(c) == c.state)
            && (forall prior, version :: LastPrior(own, prior, version) ==> entry.reliability == prior)
            && ((forall i :: 0 <= i < |own| ==> !own[i].Priors?) ==> entry.reliability == 0.5)
  {
    CarryTells(EntriesFor(entries, p), t, legal, p);
    NeverUnderlyingUnavailable(EntriesFor(entries, p), t, legal, p);
  }

  /** Which entries are a provider's own. */
  lemma {:induction false} OwnEntries(entries: seq<Evidence>, p: string, e: Evidence)
    ensures e in EntriesFor(entries, p) <==> e in entries && e.providerId == p
  {
    if entries != [] {
      OwnEntries(entries[..|entries| - 1], p, e);
      assert entries == entries[..|entries| - 1] + [entries[|entries| - 1]];
    }
  }

  // -- how the state moves ------------------------------------------------------------------

  /** Forcing moves at once, whatever is legal; disabling, enabling and priors move nothing
      underneath; other evidence moves only where it is legal. */
  lemma MovesOnlyLegally(own: seq<Evidence>, e: Evidence, t: Thresholds, legal: Legality, p: string)
    ensures var before, after := Fold(own, t, legal, p).state, Fold(own + [e], t, legal, p).state;
            && (Acts(e, ForceQuarantine) ==> after == Quarantined)
            && (Acts(e, ForceRelease) ==> after == Healthy)
            && (Acts(e, Disable) || Acts(e, Enable) || e.Priors? ==> after == before)
            && (e.Live? && after != before ==> legal(p, before, after))
  {
    assert (own + [e])[..|own|] == own;
  }

  /** Failures of a degraded or just recovered provider quarantine it at the threshold and
      leave it degraded before; a quarantined one they leave where it is. */
  lemma {:induction false} FailuresWear(c: Carry, kinds: seq<LiveKind>, t: Thresholds, legal: Legality, p: string)
    requires Permissive(legal) && c.state in {Degraded, Recovered, Quarantined} && kinds != [] && AllFailures(kinds)
    ensures var after := AfterLive(c, kinds, t, legal, p);
            && after.cf == c.cf + |kinds| && after.cs == 0
            && after.state == if c.state == Quarantined || c.cf + |kinds| >= t.quarantine then Quarantined else Degraded
  {
    var n := |kinds| - 1;
    if n > 0 {
      FailuresWear(c, kinds[..n], t, legal, p);
    } else {
      assert AfterLive(c, kinds[..n], t, legal, p) == c;
    }
    var before := AfterLive(c, kinds[..n], t, legal, p);
    var proposed := PrtHealthFold.Proposed(before.state, before.cf + 1, 0, kinds[n], t);
    assert proposed != before.state ==> (before.state, proposed) in HEALTH_TRANSITIONS;
  }

  /** One completion heals a degraded or recovered provider, starts a quarantined one on its
      recovery, and ends a recovery once enough have come in a row. */
  lemma CompletionMends(c: Carry, detail: string, t: Thresholds, legal: Legality, p: string)
    requires Permissive(legal) && c.state != Unavailable
    ensures var after := Step(c, Live(p, ExecCompleted, detail), t, legal, p);
            && after.cf == 0 && after.cs == c.cs + 1
            && (c.state in {Healthy, Degraded, Recovered} ==> after.state == Healthy)
            && (c.state == Quarantined ==> after.state == Recovering)
            && (c.state == Recovering ==> after.state == if c.cs + 1 >= t.recover then Recovered else Recovering)
  {
    assert (Degraded, Healthy) in HEALTH_TRANSITIONS && (Recovered, Healthy) in HEALTH_TRANSITIONS
           && (Quarantined, Recovering) in HEALTH_TRANSITIONS && (Recovering, Recovered) in HEALTH_TRANSITIONS;
  }
}
