/** The evidence journal, the legality machine and the health manager's incremental cache,
    over a bus that may refuse any change event. */
module PrtHealth {
  import opened PrtChain
  import opened PrtHealthFold
  import opened PrtOverrides
  import opened Wrappers

  /** One provider's entries, in order. */
  function EntriesFor(entries: seq<Evidence>, providerId: string): seq<Evidence> {
    if entries == [] then []
    else EntriesFor(entries[..|entries| - 1], providerId)
         + if entries[|entries| - 1].providerId == providerId then [entries[|entries| - 1]] else []
  }

  lemma OneMoreEntry(entries: seq<Evidence>, e: Evidence, providerId: string)
    ensures EntriesFor(entries + [e], providerId) == EntriesFor(entries, providerId) + if e.providerId == providerId then [e] else []
  {
    assert (entries + [e])[..|entries|] == entries;
  }

  /** Append-only. */
  class EvidenceJournal {
    var entries: seq<Evidence>

    constructor ()
      ensures entries == []
    {
      entries := [];
    }

    method AppendLive(providerId: string, kind: LiveKind, detail: string) returns (sequence: nat)
      modifies this
      ensures sequence == |old(entries)| && entries == old(entries) + [Live(providerId, kind, detail)]
    {
      sequence := |entries|;
      entries := entries + [Live(providerId, kind, detail)];
    }

    /** Refused, leaving nothing behind, without an actor and a reason. */
    method AppendAdmin(providerId: string, act: AdminKind, actor: string, reason: string) returns (sequence: Option<nat>)
      modifies this
      ensures sequence == if actor == [] || reason == [] then None else Some(|old(entries)|)
      ensures entries == old(entries) + if sequence.Some? then [Admin(providerId, act, actor, reason)] else []
    {
      if actor == [] || reason == [] {
        return None;
      }
      sequence := Some(|entries|);
      entries := entries + [Admin(providerId, act, actor, reason)];
    }

    method AppendPriors(providerId: string, prior: real, version: int) returns (sequence: nat)
      modifies this
      ensures sequence == |old(entries)| && entries == old(entries) + [Priors(providerId, prior, version)]
    {
      sequence := |entries|;
      entries := entries + [Priors(providerId, prior, version)];
    }

    method ListFor(providerId: string) returns (listed: seq<Evidence>)
      ensures listed == EntriesFor(entries, providerId)
    {
      listed := [];
      for i := 0 to |entries|
        invariant listed == EntriesFor(entries[..i], providerId)
      {
        assert entries[..i + 1][..i] == entries[..i];
        if entries[i].providerId == providerId {
          listed := listed + [entries[i]];
        }
      }
      assert entries[..|entries|] == entries;
    }

    /** Everything up to a sequence number: a prefix. */
    method Upto(sequence: nat) returns (listed: seq<Evidence>)
      ensures listed <= entries && |listed| == if sequence < |entries| then sequence + 1 else |entries|
    {
      return if sequence < |entries| then entries[..sequence + 1] else entries;
    }
  }

  /** A transition table, with overrides granted by outside decisions. */
  class LifecycleLegality {
    const table: set<(Health, Health)>
    var overrides: set<(string, Health, Health)>
    var calls: seq<(string, Health, Health)>

    constructor (transitions: set<(Health, Health)>)
      ensures table == transitions && overrides == {} && calls == []
    {
      table, overrides, calls := transitions, {}, [];
    }

    function Permits(subject: string, from: Health, to: Health): bool
      reads this`overrides
    {
      (subject, from, to) in overrides || (from, to) in table
    }

    method Call(subject: string, from: Health, to: Health) returns (ok: bool)
      modifies this`calls
      ensures ok == Permits(subject, from, to) && calls == old(calls) + [(subject, from, to)]
    {
      calls := calls + [(subject, from, to)];
      ok := (subject, from, to) in overrides || (from, to) in table;
    }

    method OnLifecycleEvent(subject: string, from: Health, to: Health)
      modifies this`overrides
      ensures overrides == old(overrides) + {(subject, from, to)}
    {
      overrides := overrides + {(subject, from, to)};
    }
  }

  type Cache = map<string, Carry>
  type Folded = map<string, nat>

  function CarryOf(cache: Cache, providerId: string): Carry {
    if providerId in cache then cache[providerId] else INITIAL
  }

  function FoldedOf(folded: Folded, providerId: string): nat {
    if providerId in folded then folded[providerId] else 0
  }

  /** Whatever has been folded in, the cache holds what folding it from scratch gives. */
  ghost predicate CacheOk(cache: Cache, folded: Folded, entries: seq<Evidence>, t: Thresholds, legal: Legality) {
    forall p: string :: FoldedOk(cache, folded, EntriesFor(entries, p), t, legal, p)
  }

  ghost predicate FoldedOk(cache: Cache, folded: Folded, own: seq<Evidence>, t: Thresholds, legal: Legality, p: string) {
    FoldedOf(folded, p) <= |own| && CarryOf(cache, p) == Fold(own[..FoldedOf(folded, p)], t, legal, p)
  }

  predicate SaneOf(cache: Cache, folded: Folded, own: seq<Evidence>, p: string) {
    FoldedOf(folded, p) <= |own| && CarryOf(cache, p).state != Unavailable
  }

  /** Appending evidence, by whomever, never invalidates the cache. */
  lemma CacheSurvivesAppend(cache: Cache, folded: Folded, entries: seq<Evidence>, t: Thresholds, legal: Legality, e: Evidence)
    requires CacheOk(cache, folded, entries, t, legal)
    ensures CacheOk(cache, folded, entries + [e], t, legal)
  {
    forall p: string ensures FoldedOk(cache, folded, EntriesFor(entries + [e], p), t, legal, p) {
      OneMoreEntry(entries, e, p);
      assert FoldedOk(cache, folded, EntriesFor(entries, p), t, legal, p);
      var n := FoldedOf(folded, p);
      assert EntriesFor(entries + [e], p)[..n] == EntriesFor(entries, p)[..n];
    }
  }

  /** Both legalities fold every history of every provider alike. */
  ghost predicate Alike(a: Legality, b: Legality, t: Thresholds) {
    forall entries, p :: !Differs(entries, t, a, b, p)
  }

  /** Replacing a legality by one that folds alike never invalidates the cache. */
  lemma CacheSurvivesOverride(cache: Cache, folded: Folded, entries: seq<Evidence>, t: Thresholds, before: Legality, after: Legality)
    requires CacheOk(cache, folded, entries, t, before) && Alike(before, after, t)
    ensures CacheOk(cache, folded, entries, t, after)
  {
    forall p: string ensures FoldedOk(cache, folded, EntriesFor(entries, p), t, after, p) {
      assert FoldedOk(cache, folded, EntriesFor(entries, p), t, before, p);
      assert !Differs(EntriesFor(entries, p)[..FoldedOf(folded, p)], t, before, after, p);
    }
  }

  lemma InconsequentialAlike(legal: Legality, who: string, from: Health, to: Health, t: Thresholds)
    requires !Consequential(legal, who, from, to)
    ensures Alike(legal, Granted(legal, who, from, to), t)
  {
    forall entries, p ensures !Differs(entries, t, legal, Granted(legal, who, from, to), p) {
      if p == who {
        NoConsequence(entries, t, legal, who, from, to);
      } else {
        OthersUntouched(entries, t, legal, who, from, to, p);
      }
    }
  }

  datatype HealthEntry = HealthEntry(available: bool, reliability: real)
  type HealthData = map<string, HealthEntry>

  /** The digest of a snapshot. There are as many digests as snapshots, so that one without
      collisions exists. */
  datatype Hash = Hash(of: HealthData)

  function EntryOf(c: Carry): HealthEntry {
    HealthEntry(Effective(c) in {Healthy, Degraded, Recovered}, c.reliability)
  }

  /** A snapshot of these providers, from the evidence alone. */
  ghost function HealthOf(entries: seq<Evidence>, t: Thresholds, legal: Legality, ids: set<string>): HealthData {
    map p | p in ids :: EntryOf(Fold(EntriesFor(entries, p), t, legal, p))
  }

  /** Which attempts to publish a change fail: any schedule whatever. */
  type Outage = nat -> bool

  datatype BusDown = BusDown

  class HealthManager {
    const journal: EvidenceJournal
    const thresholds: Thresholds
    const legality: LifecycleLegality
    var cache: Cache
    var folded: Folded
    /** The changes that got out, and how many were tried. */
    var emitted: seq<Change>
    var attempted: nat

    constructor (j: EvidenceJournal, t: Thresholds, l: LifecycleLegality)
      ensures journal == j && thresholds == t && legality == l && emitted == [] && cache == map[] && folded == map[]
      ensures forall legal: Legality :: Consistent(legal) ==> Valid(legal)
      ensures Chained()
    {
      journal, thresholds, legality := j, t, l;
      cache, folded, emitted, attempted := map[], map[], [], 0;
    }

    /** The legality machine currently answers as this function does, wherever it is asked. */
    ghost predicate Consistent(legal: Legality)
      reads legality
    {
      forall who, from, to :: (from, to) in HEALTH_TRANSITIONS ==> legality.Permits(who, from, to) == legal(who, from, to)
    }

    /** The cache holds what folding from scratch gives, whatever the bus did. */
    ghost predicate Valid(legal: Legality)
      reads this, journal, legality
    {
      Consistent(legal) && CacheOk(cache, folded, journal.entries, thresholds, legal)
    }

    /** What a sync relies on even when the cache is out of date: it covers no more than
        the journal, and no carry is unavailable underneath. */
    ghost predicate Sane()
      reads this, journal
    {
      forall p: string :: SaneOf(cache, folded, EntriesFor(journal.entries, p), p)
    }

    lemma ValidIsSane(legal: Legality)
      requires CacheOk(cache, folded, journal.entries, thresholds, legal)
      ensures Sane()
    {
      forall p: string ensures SaneOf(cache, folded, EntriesFor(journal.entries, p), p) {
        var own := EntriesFor(journal.entries, p);
        assert FoldedOk(cache, folded, own, thresholds, legal, p);
        NeverUnderlyingUnavailable(own[..FoldedOf(folded, p)], thresholds, legal, p);
      }
    }

    /** The chain of changes is unbroken and stands, for every provider, where the cache does. */
    ghost predicate Chained()
      reads this
    {
      InStepWith(emitted, cache)
    }

    /** _step, asking the legality machine only when there is a transition to ask about. */
    method Advance(c: Carry, e: Evidence, providerId: string, ghost legal: Legality) returns (next: Carry)
      requires Consistent(legal) && c.state != Unavailable
      modifies legality`calls
      ensures next == Step(c, e, thresholds, legal, providerId)
    {
      match e
      case Priors(_, prior, version) => return c.(reliability := prior, priorsVersion := Some(version));
      case Admin(_, act, _, _) =>
        match act {
          case Disable => return c.(disabled := true);
          case Enable => return c.(disabled := false);
          case ForceQuarantine => return c.(state := Quarantined, cf := 0, cs := 0);
          case ForceRelease => return c.(state := Healthy, cf := 0, cs := 0);
        }
      case Live(_, kind, _) =>
        var cf, cs := c.cf, c.cs;
        if kind == ExecCompleted {
          cf, cs := 0, cs + 1;
        } else {
          cf, cs := cf + 1, 0;
        }
        var state := c.state;
        var proposed := Proposed(state, cf, cs, kind, thresholds);
        if proposed != state {
          assert (state, proposed) in HEALTH_TRANSITIONS;
          var ok := legality.Call(providerId, state, proposed);
          if ok {
            state := proposed;
          }
        }
        return c.(state := state, cf := cf, cs := cs);
    }

    /** One entry folded in; a change of the displayed state is published, unless the bus
        refuses it. */
    method Absorb(carry: Carry, e: Evidence, providerId: string, down: Outage, ghost legal: Legality) returns (next: Carry, ok: bool)
      requires Consistent(legal) && carry.state != Unavailable
      modifies this`emitted, this`attempted, legality`calls
      ensures next == Step(carry, e, thresholds, legal, providerId)
      ensures var change := ChangeOf(carry, next, providerId);
              && ok == (change == [] || !down(old(attempted)))
              && emitted == old(emitted) + (if ok then change else [])
              && attempted == old(attempted) + |change|
    {
      ok := true;
      next := Advance(carry, e, providerId, legal);
      if Effective(next) != Effective(carry) {
        ok := !down(attempted);
        attempted := attempted + 1;
        if ok {
          emitted := emitted + [Change(providerId, Effective(carry), Effective(next))];
        }
      }
    }

    /** How many of these changes, tried from the n-th attempt on, get out before one fails. */
    ghost predicate Delivered(changes: seq<Change>, from: nat, down: Outage, n: nat) {
      && n <= |changes|
      && (forall k: nat :: from <= k < from + n ==> !down(k))
      && (n < |changes| ==> down(from + n))
    }

    /** The loop over the entries not yet folded in. */
    method FoldIn(entries: seq<Evidence>, start: Carry, providerId: string, down: Outage, ghost legal: Legality)
      returns (carry: Carry, ok: bool, ghost delivered: nat)
      requires Consistent(legal) && start.state != Unavailable
      modifies this`emitted, this`attempted, legality`calls
      ensures var changes := Changes(start, entries, thresholds, legal, providerId);
              && Delivered(changes, old(attempted), down, delivered)
              && emitted == old(emitted) + changes[..delivered]
              && (ok <==> delivered == |changes|)
      ensures ok ==> carry == FoldOn(start, entries, thresholds, legal, providerId)
    {
      carry, ok, delivered := start, true, 0;
      ghost var all := Changes(start, entries, thresholds, legal, providerId);
      Begins(start, entries, thresholds, legal, providerId);
      for i := 0 to |entries|
        invariant Underway(all, start, entries, i, carry, delivered, thresholds, legal, providerId) && ok
        invariant emitted == old(emitted) + all[..delivered] && attempted == old(attempted) + delivered
        invariant forall k: nat :: old(attempted) <= k < old(attempted) + delivered ==> !down(k)
      {
        Proceeds(all, start, entries, i, carry, delivered, thresholds, legal, providerId);
        ghost var change := ChangeOf(carry, Step(carry, entries[i], thresholds, legal, providerId), providerId);
        carry, ok := Absorb(carry, entries[i], providerId, down, legal);
        if !ok {
          return;
        }
        delivered := delivered + |change|;
      }
      Completes(all, start, entries, carry, delivered, thresholds, legal, providerId);
    }

    /** A provider's entries not folded in yet, and the changes they make. */
    ghost function News(providerId: string): seq<Evidence>
      reads this`folded, journal
    {
      var own := EntriesFor(journal.entries, providerId);
      if FoldedOf(folded, providerId) <= |own| then own[FoldedOf(folded, providerId)..] else []
    }

    ghost function Pending(providerId: string, legal: Legality): seq<Change>
      reads this`cache, this`folded, journal
    {
      Changes(CarryOf(cache, providerId), News(providerId), thresholds, legal, providerId)
    }

    /** _sync: fold in what is new. If the bus refuses a change, the changes before it are
        out and cache and fold marks are as they were. */
    method CatchUp(providerId: string, down: Outage, ghost legal: Legality) returns (r: Result<Carry, BusDown>, ghost delivered: nat)
      requires Consistent(legal) && SaneOf(cache, folded, EntriesFor(journal.entries, providerId), providerId)
      modifies this, legality`calls
      ensures Delivered(old(Pending(providerId, legal)), old(attempted), down, delivered)
      ensures emitted == old(emitted) + old(Pending(providerId, legal))[..delivered]
      ensures r.Ok? <==> delivered == |old(Pending(providerId, legal))|
      ensures r.Ok? ==>
        && r.value == FoldOn(CarryOf(old(cache), providerId), old(News(providerId)), thresholds, legal, providerId)
        && cache == old(cache)[providerId := r.value]
        && folded == old(folded)[providerId := |EntriesFor(journal.entries, providerId)|]
      ensures r.Err? ==> cache == old(cache) && folded == old(folded)
    {
      var own := journal.ListFor(providerId);
      var start, done := CarryOf(cache, providerId), FoldedOf(folded, providerId);
      assert own[done..] == News(providerId);
      var carry, ok;
      carry, ok, delivered := FoldIn(own[done..], start, providerId, down, legal);
      if !ok {
        return Err(BusDown), delivered;
      }
      cache, folded := cache[providerId := carry], folded[providerId := |own|];
      r := Ok(carry);
    }

    /** A sync under any outage: the cache stays what folding from scratch gives, and an
        interrupted one leaves the chain in step with the cache if and only if the change
        refused starts where the cache stands, as the first always does. */
    method Sync(providerId: string, down: Outage, ghost legal: Legality) returns (r: Result<Carry, BusDown>, ghost delivered: nat)
      requires Valid(legal)
      modifies this, legality`calls
      ensures Valid(legal)
      ensures Delivered(old(Pending(providerId, legal)), old(attempted), down, delivered)
      ensures r.Ok? <==> delivered == |old(Pending(providerId, legal))|
      ensures r.Ok? ==> r.value == Fold(EntriesFor(journal.entries, providerId), thresholds, legal, providerId)
                        && cache == old(cache)[providerId := r.value]
      ensures r.Err? ==> cache == old(cache) && folded == old(folded)
      ensures emitted == old(emitted) + old(Pending(providerId, legal))[..delivered]
      ensures old(Chained()) ==>
        (Chained() <==> r.Ok? || old(Pending(providerId, legal))[delivered].from == Effective(CarryOf(cache, providerId)))
    {
      ValidIsSane(legal);
      ghost var own, start, news := EntriesFor(journal.entries, providerId), CarryOf(cache, providerId), News(providerId);
      ghost var before, wasFolded, pending := cache, folded, Pending(providerId, legal);
      assert SaneOf(cache, folded, own, providerId);
      ChangesLinked(start, news, thresholds, legal, providerId);
      r, delivered := CatchUp(providerId, down, legal);
      if old(Chained()) {
        ChainAfter(old(emitted), pending, delivered, before, providerId);
        if r.Ok? {
          ChainCaughtUp(emitted, before, providerId, r.value);
        } else {
          ChainLeftBehind(emitted, cache, providerId);
        }
      }
      if r.Ok? {
        Refolded(before, wasFolded, providerId, r.value, own, legal);
      }
    }

    lemma Refolded(cache: Cache, folded: Folded, providerId: string, carry: Carry, own: seq<Evidence>, legal: Legality)
      requires CacheOk(cache, folded, journal.entries, thresholds, legal) && own == EntriesFor(journal.entries, providerId)
      requires FoldedOf(folded, providerId) <= |own|
      requires carry == FoldOn(CarryOf(cache, providerId), own[FoldedOf(folded, providerId)..], thresholds, legal, providerId)
      ensures carry == Fold(own, thresholds, legal, providerId)
      ensures CacheOk(cache[providerId := carry], folded[providerId := |own|], journal.entries, thresholds, legal)
    {
      assert FoldedOk(cache, folded, own, thresholds, legal, providerId);
      FoldSplits(own, FoldedOf(folded, providerId), thresholds, legal, providerId);
      var cache', folded' := cache[providerId := carry], folded[providerId := |own|];
      forall p: string ensures FoldedOk(cache', folded', EntriesFor(journal.entries, p), thresholds, legal, p) {
        assert FoldedOk(cache, folded, EntriesFor(journal.entries, p), thresholds, legal, p);
        if p == providerId {
          assert own[..|own|] == own;
        }
      }
    }

    /** state: the displayed state of the from-scratch fold, however syncs, appends and
        outages interleaved. */
    method State(providerId: string, down: Outage, ghost legal: Legality) returns (r: Result<Health, BusDown>)
      requires Valid(legal)
      modifies this, legality`calls
      ensures Valid(legal)
      ensures r.Ok? ==> r.value == Effective(Fold(EntriesFor(journal.entries, providerId), thresholds, legal, providerId))
      ensures r.Ok? && old(Chained()) ==> Chained() && r.value == LastShown(emitted, providerId)
    {
      var carry, delivered := Sync(providerId, down, legal);
      if carry.Err? {
        return Err(BusDown);
      }
      assert old(Chained()) ==> Shown(emitted, cache, providerId);
      return Ok(Effective(carry.value));
    }

    /** The observation is on record even when the sync after it is cut short. */
    method RecordOutcome(providerId: string, kind: LiveKind, detail: string, down: Outage, ghost legal: Legality)
      returns (r: Result<Health, BusDown>)
      requires Valid(legal)
      modifies this, journal, legality`calls
      ensures Valid(legal) && journal.entries == old(journal.entries) + [Live(providerId, kind, detail)]
      ensures r.Ok? ==> r.value == Effective(Fold(EntriesFor(journal.entries, providerId), thresholds, legal, providerId))
    {
      CacheSurvivesAppend(cache, folded, journal.entries, thresholds, legal, Live(providerId, kind, detail));
      var sequence := journal.AppendLive(providerId, kind, detail);
      r := State(providerId, down, legal);
    }

    /** force_quarantine, force_release, disable, enable; None where the journal refuses. */
    method Administer(providerId: string, act: AdminKind, actor: string, reason: string, down: Outage, ghost legal: Legality)
      returns (r: Option<Result<Health, BusDown>>)
      requires Valid(legal)
      modifies this, journal, legality`calls
      ensures Valid(legal)
      ensures r.None? <==> actor == [] || reason == []
      ensures journal.entries == old(journal.entries) + if r.Some? then [Admin(providerId, act, actor, reason)] else []
      ensures r.Some? && r.value.Ok? ==>
        r.value.value == Effective(Fold(EntriesFor(journal.entries, providerId), thresholds, legal, providerId))
    {
      CacheSurvivesAppend(cache, folded, journal.entries, thresholds, legal, Admin(providerId, act, actor, reason));
      var sequence := journal.AppendAdmin(providerId, act, actor, reason);
      if sequence.None? {
        assert journal.entries == old(journal.entries);
        return None;
      }
      var s := State(providerId, down, legal);
      return Some(s);
    }

    /** A snapshot of the named providers: exactly what the evidence says, whatever was
        cached; none when a change event could not be published on the way. */
    method Snapshot(ids: seq<string>, down: Outage, ghost legal: Legality) returns (r: Result<HealthData, BusDown>)
      requires Valid(legal)
      modifies this, legality`calls
      ensures Valid(legal)
      ensures r.Ok? ==> r.value == HealthOf(journal.entries, thresholds, legal, set p | p in ids)
      ensures (forall k: nat :: !down(k)) ==> r.Ok?
    {
      var data: HealthData := map[];
      for i := 0 to |ids|
        invariant Valid(legal) && journal.entries == old(journal.entries)
        invariant data == HealthOf(journal.entries, thresholds, legal, set p | p in ids[..i])
      {
        assert ids[..i + 1] == ids[..i] + [ids[i]];
        var carry, delivered := Sync(ids[i], down, legal);
        if carry.Err? {
          return Err(BusDown);
        }
        data := data[ids[i] := EntryOf(carry.value)];
      }
      assert ids[..|ids|] == ids;
      return Ok(data);
    }
  }

  ghost predicate InStepWith(emitted: seq<Change>, cache: Cache) {
    Unbroken(emitted) && forall p: string :: Shown(emitted, cache, p)
  }

  predicate Shown(emitted: seq<Change>, cache: Cache, p: string) {
    LastShown(emitted, p) == Effective(CarryOf(cache, p))
  }

  lemma ChainCaughtUp(emitted: seq<Change>, before: Cache, p: string, carry: Carry)
    requires Unbroken(emitted) && (forall q: string :: q != p ==> Shown(emitted, before, q))
    requires LastShown(emitted, p) == Effective(carry)
    ensures InStepWith(emitted, before[p := carry])
  {
    var after := before[p := carry];
    forall q: string ensures Shown(emitted, after, q) {
      assert q != p ==> Shown(emitted, before, q);
    }
  }

  lemma ChainLeftBehind(emitted: seq<Change>, cache: Cache, p: string)
    requires Unbroken(emitted) && (forall q: string :: q != p ==> Shown(emitted, cache, q))
    ensures InStepWith(emitted, cache) <==> LastShown(emitted, p) == Effective(CarryOf(cache, p))
  {
    if LastShown(emitted, p) == Effective(CarryOf(cache, p)) {
      forall q: string ensures Shown(emitted, cache, q) {
      }
    } else {
      assert !Shown(emitted, cache, p);
    }
  }

  /** Where the chain and the cache stand after a sync of one provider. */
  lemma ChainAfter(emitted: seq<Change>, changes: seq<Change>, delivered: nat, cache: Cache, p: string)
    requires InStepWith(emitted, cache)
    requires delivered <= |changes| && Linked(changes, Effective(CarryOf(cache, p)), p)
    ensures var after := emitted + changes[..delivered];
            && Unbroken(after)
            && (forall q: string :: q != p ==> Shown(after, cache, q))
            && LastShown(after, p) == (if delivered < |changes| then changes[delivered].from
                                       else EndOf(changes, Effective(CarryOf(cache, p))))
  {
    assert Shown(emitted, cache, p);
    LinkedPrefix(changes, delivered, Effective(CarryOf(cache, p)), p);
    Emits(emitted, changes[..delivered], Effective(CarryOf(cache, p)), p);
    assert delivered == |changes| ==> changes[..delivered] == changes;
    forall q: string | q != p ensures Shown(emitted + changes[..delivered], cache, q) {
      assert Shown(emitted, cache, q);
    }
  }

  // -- overrides ---------------------------------------------------------------------------

  /** A decision from outside reaches the legality machine under a live manager. The
      manager is then right about the new legality whenever the override is one that
      cannot matter (OverrideMattersExactly says which those are); on top of the default
      table that is every override. */
  method Override(m: HealthManager, who: string, from: Health, to: Health, ghost before: Legality) returns (ghost after: Legality)
    requires m.Valid(before)
    modifies m.legality`overrides
    ensures after == Granted(before, who, from, to) && m.Consistent(after)
    ensures !Consequential(before, who, from, to) ==> m.Valid(after)
    ensures Permissive(before) ==> m.Valid(before) && m.Valid(after)
  {
    after := Granted(before, who, from, to);
    m.legality.OnLifecycleEvent(who, from, to);
    if !Consequential(before, who, from, to) {
      InconsequentialAlike(before, who, from, to, m.thresholds);
      CacheSurvivesOverride(m.cache, m.folded, m.journal.entries, m.thresholds, before, after);
    }
  }

  /** With a table that forbids (Healthy, Degraded) one can: a failure is recorded and
      folded in while the transition is refused, the override arrives, and from then on
      the cache, however often it is synced, differs from the fold from scratch. */
  method OverrideBreaksTheCache(p: string, down: Outage) returns (m: HealthManager, again: Result<Carry, BusDown>, ghost after: Legality)
    ensures m.Consistent(after) && m.journal.entries == [Live(p, ExecFailed, "")]
    ensures again.Ok? && again.value.state == Healthy && m.cache == map[p := again.value]
    ensures Fold(EntriesFor(m.journal.entries, p), m.thresholds, after, p).state == Degraded
  {
    ghost var before: Legality := (w, f, t) => (f, t) in HEALTH_TRANSITIONS - {(Healthy, Degraded)};
    m := FailUnderStrictTable(p, down, before);
    after := Granted(before, p, Healthy, Degraded);
    OneFailure(p, after);
    m.legality.OnLifecycleEvent(p, Healthy, Degraded);
    ghost var own := m.journal.entries;
    assert own[1..] == [];
    ghost var delivered;
    again, delivered := m.CatchUp(p, down, after);
  }

  /** A manager over the stricter table, with one failure recorded and folded in. */
  method FailUnderStrictTable(p: string, down: Outage, ghost legal: Legality) returns (m: HealthManager)
    requires forall w, f, t :: legal(w, f, t) <==> (f, t) in HEALTH_TRANSITIONS - {(Healthy, Degraded)}
    ensures m.Consistent(legal) && m.journal.entries == [Live(p, ExecFailed, "")] && m.thresholds == DEFAULT_THRESHOLDS
    ensures fresh(m) && fresh(m.legality) && fresh(m.journal)
    ensures m.cache.Keys == {p} && m.cache[p].state == Healthy && m.folded == map[p := 1]
  {
    var journal := new EvidenceJournal();
    var legality := new LifecycleLegality(HEALTH_TRANSITIONS - {(Healthy, Degraded)});
    m := new HealthManager(journal, DEFAULT_THRESHOLDS, legality);
    var sequence := journal.AppendLive(p, ExecFailed, "");
    OneFailure(p, legal);
    FreshNews(m, p, legal);
    var first, delivered := m.CatchUp(p, down, legal);
  }

  lemma FreshNews(m: HealthManager, p: string, legal: Legality)
    requires m.journal.entries == [Live(p, ExecFailed, "")] && m.thresholds == DEFAULT_THRESHOLDS && m.cache == map[] && m.folded == map[]
    requires !legal(p, Healthy, Degraded)
    ensures m.News(p) == [Live(p, ExecFailed, "")] && m.Pending(p, legal) == []
    ensures FoldOn(INITIAL, m.News(p), DEFAULT_THRESHOLDS, legal, p).state == Healthy
  {
    OneFailure(p, legal);
    var own := m.journal.entries;
    assert own[0..] == own;
  }

  lemma OneFailure(p: string, legal: Legality)
    ensures EntriesFor([Live(p, ExecFailed, "")], p) == [Live(p, ExecFailed, "")]
    ensures var own := [Live(p, ExecFailed, "")];
            var c := Fold(own, DEFAULT_THRESHOLDS, legal, p);
            && c.state == (if legal(p, Healthy, Degraded) then Degraded else Healthy)
            && FoldOn(INITIAL, own, DEFAULT_THRESHOLDS, legal, p) == c
            && (!legal(p, Healthy, Degraded) ==> Changes(INITIAL, own, DEFAULT_THRESHOLDS, legal, p) == [])
  {
    var own := [Live(p, ExecFailed, "")];
    assert own[..0] == [];
    OneMoreEntry([], own[0], p);
  }
}
