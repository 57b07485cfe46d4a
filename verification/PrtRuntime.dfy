/** The plugin runtime: binding under coordinates that can be replayed for ever. */
module PrtRuntime {
  import opened Orders
  import opened PrtBinding
  import opened PrtRegistry
  import opened PrtRules
  import opened Wrappers
  import F = PrtHealthFold
  import H = PrtHealth
  import PrtPipeline

  const LOAD_TRANSITIONS: set<(LoadState, LoadState)> := {
    (NotLoaded, Loading), (NotLoaded, Unloadable), (Loading, Prepared), (Loading, Unloadable), (Prepared, Loaded),
    (Prepared, Unloadable), (Loaded, Released), (Loaded, Unloadable), (Released, Loading), (Released, Unloadable), (Unloadable, NotLoaded)
  }

  /** The stage after this one on the way of loading, which releasing leads back into. */
  function NextStage(s: LoadState): LoadState {
    match s
    case NotLoaded => Loading
    case Loading => Prepared
    case Prepared => Loaded
    case Loaded => Released
    case Released => Loading
    case Unloadable => NotLoaded
  }

  /** A provider may always go one stage on, and be found unloadable from any other state;
      nothing else, so that the one way back from unloadable is to the beginning. */
  lemma LoadsStepByStep(from: LoadState, to: LoadState)
    ensures (from, to) in LOAD_TRANSITIONS <==> to == NextStage(from) || (to == Unloadable && from != Unloadable)
  {
  }

  type Digest = H.HealthData -> H.Hash
  type Artifacts = map<H.Hash, H.HealthData>

  /** Snapshots are stored under their own digest. */
  ghost predicate Addressed(storage: Artifacts, digest: Digest) {
    forall h :: h in storage ==> digest(storage[h]) == h
  }

  ghost predicate Injective(digest: Digest) {
    forall a, b :: digest(a) == digest(b) ==> a == b
  }

  /** Published versions and stored snapshots are kept as they are; others may join them. */
  ghost predicate Grows(before: seq<Snapshot>, stored: Artifacts, after: seq<Snapshot>, storage: Artifacts) {
    && before <= after
    && forall h :: h in stored ==> h in storage && storage[h] == stored[h]
  }

  lemma GrowsOn(a: seq<Snapshot>, s: Artifacts, b: seq<Snapshot>, t: Artifacts, c: seq<Snapshot>, u: Artifacts)
    requires Grows(a, s, b, t) && Grows(b, t, c, u)
    ensures Grows(a, s, c, u)
  {
  }

  /** The coordinates a contract cites are on record and answer with it. */
  ghost predicate Remembered(history: seq<Snapshot>, storage: Artifacts, policy: Policy, k: Contract) {
    && k.registryVersion < |history| && k.healthHash in storage
    && forall loads :: Answers(history[k.registryVersion].content, k.registryVersion, k.capabilityId, storage[k.healthHash],
                               k.healthHash, policy, loads, Bound(k))
  }

  /** What is remembered once is remembered for ever. */
  lemma RememberedForever(before: seq<Snapshot>, stored: Artifacts, after: seq<Snapshot>, storage: Artifacts, policy: Policy, k: Contract)
    requires Grows(before, stored, after, storage) && Remembered(before, stored, policy, k)
    ensures Remembered(after, storage, policy, k)
  {
  }

  datatype ReplayError = NoSuchVersion | MissingSnapshot | HashMismatch | ContractMismatch

  /** What can happen to a runtime between a binding and its replay. */
  datatype Event =
    | Declared(declaration: Bundle, storageUp: bool)
    | Mutated(mutation: Mutation)
    | Observed(providerId: string, kind: F.LiveKind, detail: string)
    | ReliabilityUpdated(providerId: string, prior: real, version: int)
    | Administered(providerId: string, act: F.AdminKind, actor: string, reason: string)
    | LoadRequested(providerId: string, to: LoadState)
    | BindRequested(capabilityId: string, storageUp: bool)
    | HealthDecided(providerId: string, before: F.Health, after: F.Health)
    | LoadDecided(providerId: string, from: LoadState, to: LoadState)

  /** Why a binding is not answered: a change event or the snapshot could not be put out. */
  datatype BindError = BusRefused | StorageRefused

  class PluginRuntime {
    const registry: Registry
    const health: H.HealthManager
    const policy: Policy
    const digest: Digest
    var storage: Artifacts
    var loads: Loads
    /** Load transitions granted by outside decisions. */
    var loadOverrides: set<(string, LoadState, LoadState)>

    constructor (p: Policy, d: Digest, t: F.Thresholds, ghost legal: F.Legality)
      requires Injective(d) && F.Permissive(legal)
      ensures Valid(legal) && fresh(registry) && fresh(health) && fresh(health.journal) && fresh(health.legality)
      ensures policy == p && digest == d && registry.Contents() == EMPTY && storage == map[]
    {
      registry := new Registry();
      var journal := new H.EvidenceJournal();
      var legality := new H.LifecycleLegality(F.HEALTH_TRANSITIONS);
      health := new H.HealthManager(journal, t, legality);
      policy, digest := p, d;
      storage, loads, loadOverrides := map[], map[], {};
      new;
      assert health.Consistent(legal);
    }

    ghost predicate Valid(legal: F.Legality)
      reads this, registry, health, health.journal, health.legality
    {
      && registry.Valid() && health.Valid(legal) && F.Permissive(legal)
      && Addressed(storage, digest) && Injective(digest)
    }

    /** The health of a capability's providers, as the evidence has it now; none if a
        change event is refused on the way. */
    method TakeSnapshot(id: string, down: H.Outage, ghost legal: F.Legality)
      returns (candidates: seq<Binding>, data: Result<H.HealthData, H.BusDown>)
      requires Valid(legal)
      modifies health, health.legality`calls
      ensures Valid(legal) && health.journal.entries == old(health.journal.entries)
      ensures Elements(candidates) == BindingsFor(registry.Contents(), id)
      ensures data.Ok? ==> BoundUnder(data.value, health.journal.entries, health.thresholds, legal, id)
      ensures (forall k: nat :: !down(k)) ==> data.Ok?
    {
      candidates := registry.ListBindings(id);
      var ids := seq(|candidates|, i requires 0 <= i < |candidates| => candidates[i].providerId);
      data := health.Snapshot(ids, down, legal);
      SnapshotIds(candidates, ids);
    }

    /** _persist_snapshot_artifact: written once under its digest; false when storage refuses. */
    method StoreSnapshot(data: H.HealthData, storageUp: bool) returns (ok: bool)
      requires Addressed(storage, digest) && Injective(digest)
      modifies this`storage
      ensures Addressed(storage, digest)
      ensures ok <==> storageUp || digest(data) in old(storage)
      ensures storage == if ok then old(storage)[digest(data) := data] else old(storage)
      ensures forall h :: h in old(storage) ==> h in storage && storage[h] == old(storage)[h]
    {
      var hash := digest(data);
      if hash in storage {
        assert storage[hash] == data;
        assert storage == storage[hash := data];
        return true;
      }
      if !storageUp {
        return false;
      }
      storage := storage[hash := data];
      return true;
    }

    /** bind: the health snapshot is taken once, stored under its digest, and decides
        together with the current registry version. */
    method Bind(id: string, storageUp: bool, down: H.Outage, ghost legal: F.Legality)
      returns (o: Result<Outcome, BindError>, ghost data: H.HealthData)
      requires Valid(legal)
      modifies this`storage, health, health.legality`calls
      ensures Valid(legal)
      ensures Grows(registry.history, old(storage), registry.history, storage)
      ensures o.Err? && o.error.StorageRefused? ==> !storageUp
      ensures (forall k: nat :: !down(k)) && storageUp ==> o.Ok?
      ensures o.Ok? ==> BoundUnder(data, health.journal.entries, health.thresholds, legal, id)
      ensures o.Ok? ==> Answers(registry.Contents(), registry.version, id, data, digest(data), policy, loads, o.value)
      ensures o.Ok? && o.value.Bound? ==> Remembered(registry.history, storage, policy, o.value.contract)
    {
      data := map[];
      var candidates, taken := TakeSnapshot(id, down, legal);
      if taken.Err? {
        return Err(BusRefused), data;
      }
      data := taken.value;
      var ok := StoreSnapshot(taken.value, storageUp);
      if !ok {
        return Err(StorageRefused), data;
      }
      var answer := Answer(id, candidates, taken.value);
      return Ok(answer), data;
    }

    method Answer(id: string, candidates: seq<Binding>, data: H.HealthData) returns (o: Outcome)
      requires registry.Valid() && Elements(candidates) == BindingsFor(registry.Contents(), id)
      requires digest(data) in storage && storage[digest(data)] == data
      ensures Answers(registry.Contents(), registry.version, id, data, digest(data), policy, loads, o)
      ensures o.Bound? ==> Remembered(registry.history, storage, policy, o.contract)
    {
      assert registry.history[registry.version].content == registry.Contents();
      o := ResolveBinding(registry.Contents(), registry.version, id, data, digest(data), policy, loads, candidates);
      if o.Bound? {
        ContractRemembered(registry.Contents(), registry.version, id, data, digest(data), o.contract);
      }
    }

    lemma SnapshotIds(candidates: seq<Binding>, ids: seq<string>)
      requires |ids| == |candidates| && forall i :: 0 <= i < |ids| ==> ids[i] == candidates[i].providerId
      ensures (set p | p in ids) == ProviderIds(Elements(candidates))
    {
      forall p ensures p in ids <==> p in ProviderIds(Elements(candidates)) {
        if p in ids {
          var i :| 0 <= i < |ids| && ids[i] == p;
          assert candidates[i] in Elements(candidates);
        }
        if p in ProviderIds(Elements(candidates)) {
          var i :| 0 <= i < |candidates| && candidates[i].providerId == p;
          assert ids[i] == p;
        }
      }
    }

    /** The snapshot covers the capability's providers, as the evidence has them now. */
    ghost predicate BoundUnder(data: H.HealthData, entries: seq<F.Evidence>, t: F.Thresholds, legal: F.Legality, id: string)
      reads registry
    {
      data == H.HealthOf(entries, t, legal, ProviderIds(BindingsFor(registry.Contents(), id)))
    }

    lemma ContractRemembered(c: Content, version: nat, id: string, data: H.HealthData, hash: H.Hash, k: Contract)
      requires RegistryOk(c) && Answers(c, version, id, data, hash, policy, loads, Bound(k))
      ensures k.registryVersion == version && k.healthHash == hash
      ensures forall other :: Answers(c, version, k.capabilityId, data, hash, policy, other, Bound(k))
    {
      CanonicalAnswers(c, version, id, data, hash, policy, loads, k);
      var canonical := k.capabilityId;
      forall other ensures Answers(c, version, k.capabilityId, data, hash, policy, other, Bound(k)) {
        EligibleIgnoresLoads(c, Resolve(c, canonical).value, policy, loads, other, data);
      }
    }

    /** replay_bind: from the history and the stored snapshot alone. A remembered contract
        comes back as it was. */
    method ReplayBind(k: Contract, ghost legal: F.Legality) returns (r: Result<Outcome, ReplayError>)
      requires Valid(legal)
      ensures Remembered(registry.history, storage, policy, k) ==> r == Ok(Bound(k))
      ensures r.Ok? && r.value.Bound? ==> r.value.contract == k
    {
      var snapshot := registry.AtVersion(k.registryVersion);
      if snapshot.None? {
        return Err(NoSuchVersion);
      }
      if k.healthHash !in storage {
        return Err(MissingSnapshot);
      }
      var data := storage[k.healthHash];
      if digest(data) != k.healthHash {
        return Err(HashMismatch);
      }
      var c := snapshot.value.content;
      var candidates := ListAny(BindingsFor(c, k.capabilityId));
      var o := ResolveBinding(c, k.registryVersion, k.capabilityId, data, k.healthHash, policy, loads, candidates);
      if Remembered(registry.history, storage, policy, k) {
        AnswerIsDetermined(c, k.registryVersion, k.capabilityId, data, k.healthHash, policy, loads, loads, o, Bound(k));
      }
      if o.Bound? && o.contract != k {
        return Err(ContractMismatch);
      }
      return Ok(o);
    }

    /** A healed prior goes to the journal; the manager will fold it in when next asked. */
    method UpdateReliability(providerId: string, prior: real, version: int, ghost legal: F.Legality)
      requires Valid(legal)
      modifies health.journal
      ensures Valid(legal)
    {
      H.CacheSurvivesAppend(health.cache, health.folded, health.journal.entries, health.thresholds, legal, F.Priors(providerId, prior, version));
      var sequence := health.journal.AppendPriors(providerId, prior, version);
    }

    method RequestLoad(providerId: string, to: LoadState) returns (enacted: bool)
      modifies this`loads
      ensures var from := if providerId in old(loads) then old(loads)[providerId] else NotLoaded;
              enacted <==> (from, to) in LOAD_TRANSITIONS || (providerId, from, to) in loadOverrides
      ensures loads == if enacted then old(loads)[providerId := to] else old(loads)
    {
      var from := if providerId in loads then loads[providerId] else NotLoaded;
      enacted := (providerId, from, to) in loadOverrides || (from, to) in LOAD_TRANSITIONS;
      if enacted {
        loads := loads[providerId := to];
      }
    }

    /** One event, dispatched, whatever the bus refuses on the way. None of them loses a
        version or a stored snapshot. */
    method Handle(e: Event, down: H.Outage, ghost legal: F.Legality)
      requires Valid(legal)
      modifies this, registry, health, health.journal, health.legality
      ensures Valid(legal)
      ensures Grows(old(registry.history), old(storage), registry.history, storage)
    {
      match e
      case Declared(declaration, storageUp) =>
        var candidacy := PrtPipeline.AdmitDeclaration(registry, declaration, storageUp);
      case Mutated(mutation) =>
        var r := registry.Apply(mutation);
      case LoadRequested(providerId, to) =>
        var enacted := RequestLoad(providerId, to);
      case BindRequested(capabilityId, storageUp) =>
        var o, data := Bind(capabilityId, storageUp, down, legal);
      case LoadDecided(providerId, from, to) =>
        loadOverrides := loadOverrides + {(providerId, from, to)};
      case _ =>
        HandleHealth(e, down, legal);
    }

    method HandleHealth(e: Event, down: H.Outage, ghost legal: F.Legality)
      requires Valid(legal)
      requires e.Observed? || e.ReliabilityUpdated? || e.Administered? || e.HealthDecided?
      modifies health, health.journal, health.legality
      ensures Valid(legal)
    {
      match e
      case Observed(providerId, kind, detail) =>
        var shown := health.RecordOutcome(providerId, kind, detail, down, legal);
      case ReliabilityUpdated(providerId, prior, version) =>
        UpdateReliability(providerId, prior, version, legal);
      case Administered(providerId, act, actor, reason) =>
        var shown := health.Administer(providerId, act, actor, reason, down, legal);
      case HealthDecided(providerId, before, after) =>
        ghost var granted := H.Override(health, providerId, before, after, legal);
    }

    method HandleAll(events: seq<Event>, down: H.Outage, ghost legal: F.Legality)
      requires Valid(legal)
      modifies this, registry, health, health.journal, health.legality
      ensures Valid(legal)
      ensures Grows(old(registry.history), old(storage), registry.history, storage)
    {
      ghost var history, stored := registry.history, storage;
      for i := 0 to |events|
        invariant Valid(legal) && Grows(history, stored, registry.history, storage)
      {
        ghost var before, artifacts := registry.history, storage;
        Handle(events[i], down, legal);
        GrowsOn(history, stored, before, artifacts, registry.history, storage);
      }
    }

    /** A contract remembered now, as every contract Bind returns is, is replayed exactly
        after any further events. */
    method RunThenReplay(k: Contract, events: seq<Event>, down: H.Outage, ghost legal: F.Legality) returns (r: Result<Outcome, ReplayError>)
      requires Valid(legal) && Remembered(registry.history, storage, policy, k)
      modifies this, registry, health, health.journal, health.legality
      ensures Valid(legal)
      ensures r == Ok(Bound(k))
    {
      ghost var history, stored := registry.history, storage;
      HandleAll(events, down, legal);
      RememberedForever(history, stored, registry.history, storage, policy, k);
      r := ReplayBind(k, legal);
    }
  }

  /** The elements of a set, in some order. */
  method ListAny<T(==)>(s: set<T>) returns (l: seq<T>)
    ensures Elements(l) == s
  {
    l := [];
    var rest := s;
    while rest != {}
      invariant rest <= s && Elements(l) == s - rest
      decreases rest
    {
      var x :| x in rest;
      ElementsAppend(l, x);
      l := l + [x];
      rest := rest - {x};
    }
  }
}
