/** Driving one declaration through the admission pipeline. */
module PrtPipeline {
  import opened PrtAdmission
  import opened PrtRegistry
  import opened PrtRules
  import opened Wrappers

  datatype State = Discovered | Candidate | Validated | Admitted | Rejected

  datatype Outcome = Passed | Refused(refusal: AdmissionRefusal) | StorageRefused | AdmittedAt(version: nat)
  datatype Entry = Entry(stage: Stage, outcome: Outcome)

  /** A candidacy only moves forward; a terminal one refuses every further step. The
      methods answer false where the program raises, and then change nothing. */
  class Candidacy {
    const declaration: Bundle
    var state: State
    var log: seq<Entry>
    var failingStage: Option<Stage>
    var refusal: Option<AdmissionRefusal>
    var mintedVersion: Option<nat>

    constructor (d: Bundle)
      ensures declaration == d && state == Discovered && log == [] && failingStage.None? && refusal.None? && mintedVersion.None?
    {
      declaration, state, log, failingStage, refusal, mintedVersion := d, Discovered, [], None, None, None;
    }

    predicate Terminal()
      reads this
    {
      state == Admitted || state == Rejected
    }

    method Begin() returns (ok: bool)
      modifies this`state
      ensures ok <==> !old(Terminal())
      ensures state == if ok then Candidate else old(state)
    {
      if Terminal() {
        return false;
      }
      state := Candidate;
      return true;
    }

    method RecordPass(stage: Stage) returns (ok: bool)
      modifies this`log
      ensures ok <==> !Terminal()
      ensures log == if ok then old(log) + [Entry(stage, Passed)] else old(log)
    {
      if Terminal() {
        return false;
      }
      log := log + [Entry(stage, Passed)];
      return true;
    }

    method Reject(stage: Stage, why: AdmissionRefusal) returns (ok: bool)
      modifies this
      ensures ok <==> !old(Terminal())
      ensures ok ==> state == Rejected && log == old(log) + [Entry(stage, Refused(why))] && failingStage == Some(stage)
                     && refusal == Some(why) && mintedVersion == old(mintedVersion)
      ensures !ok ==> unchanged(this)
    {
      if Terminal() {
        return false;
      }
      log := log + [Entry(stage, Refused(why))];
      state, failingStage, refusal := Rejected, Some(stage), Some(why);
      return true;
    }

    method Validate() returns (ok: bool)
      modifies this`state
      ensures ok <==> old(state) == Candidate
      ensures state == if ok then Validated else old(state)
    {
      if Terminal() || state != Candidate {
        return false;
      }
      state := Validated;
      return true;
    }

    method MarkPublicationFailed() returns (ok: bool)
      modifies this`log
      ensures ok <==> state == Validated
      ensures log == if ok then old(log) + [Entry(PublicationStage, StorageRefused)] else old(log)
    {
      if state != Validated {
        return false;
      }
      log := log + [Entry(PublicationStage, StorageRefused)];
      return true;
    }

    method Admit(version: nat) returns (ok: bool)
      modifies this
      ensures ok <==> old(state) == Validated
      ensures ok ==> state == Admitted && log == old(log) + [Entry(PublicationStage, AdmittedAt(version))]
                     && mintedVersion == Some(version) && failingStage == old(failingStage) && refusal == old(refusal)
      ensures !ok ==> unchanged(this)
    {
      if state != Validated {
        return false;
      }
      log := log + [Entry(PublicationStage, AdmittedAt(version))];
      state, mintedVersion := Admitted, Some(version);
      return true;
    }
  }

  /** How many of the seven pre-checks pass in a row, from the k-th on. */
  function PassedFrom(c: Content, d: Bundle, k: nat): (n: nat)
    requires k <= |STAGES|
    ensures k <= n <= |STAGES|
    decreases |STAGES| - k
  {
    if k == |STAGES| || Check(c, d, STAGES[k]).Some? then k else PassedFrom(c, d, k + 1)
  }

  lemma {:induction false} PassedMeaning(c: Content, d: Bundle, k: nat)
    requires k <= |STAGES|
    ensures var n := PassedFrom(c, d, k);
            && (forall i :: k <= i < n ==> Check(c, d, STAGES[i]).None?)
            && (n < |STAGES| ==> Check(c, d, STAGES[n]).Some?)
    decreases |STAGES| - k
  {
    if k < |STAGES| && Check(c, d, STAGES[k]).None? {
      PassedMeaning(c, d, k + 1);
    }
  }

  function Passes(stages: seq<Stage>): seq<Entry> {
    seq(|stages|, i requires 0 <= i < |stages| => Entry(stages[i], Passed))
  }

  lemma OneMorePass(stages: seq<Stage>, k: nat)
    requires k < |stages|
    ensures Passes(stages[..k + 1]) == Passes(stages[..k]) + [Entry(stages[k], Passed)]
  {
  }

  /** One pre-check, as it runs. */
  method RunCheck(c: Content, d: Bundle, s: Stage) returns (v: Verdict)
    requires s != ConsistencyStage
    ensures v == Check(c, d, s)
  {
    match s
    case IdentityStage => {
      v := CheckProviderIdentity(c, d.provider);
      if v.None? {
        v := CheckEach(d.capabilities, cap => CheckCapabilityIdentity(c, cap));
      }
    }
    case CapabilityStage => v := CheckEach(d.bindings, b => CheckReference(c, d, b));
    case MetadataStage => v := CheckEach(d.capabilities, cap => CheckMetadata(cap));
    case ConstraintStage => v := CheckEach(d.bindings, b => CheckTerms(d, b));
    case RelationshipStage => v := CheckEach(d.relationships, r => CheckEndpoints(c, d, r));
    case BindingStage => v := CheckEach(d.bindings, b => CheckBinding(c, d, b));
    case CompatibilityStage => {
      v := CheckProviderClash(c, d.provider);
      if v.None? {
        v := CheckEach(d.capabilities, cap => CheckAliasClash(c, d, cap));
      }
    }
    case PublicationStage => return None;
  }

  /** The first seven stages: stop at the first refusal; None when all pass. */
  method FirstFailing(c: Content, candidacy: Candidacy) returns (failing: Option<Stage>, v: Verdict)
    requires candidacy.state == Candidate
    modifies candidacy`log
    ensures var n := PassedFrom(c, candidacy.declaration, 0);
            && candidacy.log == old(candidacy.log) + Passes(STAGES[..n])
            && failing == (if n < |STAGES| then Some(STAGES[n]) else None)
            && (n < |STAGES| ==> v == Check(c, candidacy.declaration, STAGES[n]))
  {
    var d := candidacy.declaration;
    var k := 0;
    v := None;
    while k < |STAGES| && v.None?
      invariant k <= |STAGES| && candidacy.log == old(candidacy.log) + Passes(STAGES[..k])
      invariant PassedFrom(c, d, k) == PassedFrom(c, d, 0)
      invariant v.Some? ==> k < |STAGES| && v == Check(c, d, STAGES[k])
      decreases |STAGES| - k, v.None?
    {
      v := RunCheck(c, d, STAGES[k]);
      if v.None? {
        OneMorePass(STAGES, k);
        var recorded := candidacy.RecordPass(STAGES[k]);
        k := k + 1;
      }
    }
    failing := if v.Some? then Some(STAGES[k]) else None;
  }

  method RunPreChecks(registry: Registry, candidacy: Candidacy) returns (passed: bool)
    requires registry.Valid() && candidacy.state == Candidate
    modifies candidacy
    ensures candidacy.mintedVersion == old(candidacy.mintedVersion)
    ensures var n := PassedFrom(registry.Contents(), candidacy.declaration, 0);
            if n < |STAGES| then
              !passed && Halted(candidacy, old(candidacy.log) + Passes(STAGES[..n]), STAGES[n],
                                Check(registry.Contents(), candidacy.declaration, STAGES[n]))
            else
              passed && candidacy.state == Candidate && candidacy.log == old(candidacy.log) + Passes(STAGES)
  {
    PassedMeaning(registry.Contents(), candidacy.declaration, 0);
    var failing, v := FirstFailing(registry.Contents(), candidacy);
    passed := failing.None?;
    if failing.Some? {
      var rejected := candidacy.Reject(failing.value, v.value);
    } else {
      assert STAGES[..|STAGES|] == STAGES;
    }
  }

  /** Rejected at a stage: everything before it passed, nothing after it was tried. */
  ghost predicate Halted(candidacy: Candidacy, before: seq<Entry>, stage: Stage, why: Option<AdmissionRefusal>)
    reads candidacy
  {
    && why.Some? && candidacy.state == Rejected && candidacy.log == before + [Entry(stage, Refused(why.value))]
    && candidacy.failingStage == Some(stage) && candidacy.refusal == why
  }

  ghost predicate Untouched(registry: Registry, version: nat, history: seq<Snapshot>, content: Content)
    reads registry
  {
    registry.version == version && registry.history == history && registry.Contents() == content
  }

  /** Stages eight and nine, for a candidacy whose pre-checks passed: dry run, persist, commit. */
  method Publish(registry: Registry, candidacy: Candidacy, storageUp: bool)
    requires registry.Valid() && candidacy.state == Candidate
    modifies registry, candidacy
    ensures registry.Valid()
    ensures Published(old(registry.Contents()), old(registry.version), old(registry.history), registry, candidacy, storageUp,
                      old(candidacy.log), Admit(old(registry.Contents()), AdmitBundle(candidacy.declaration)))
    ensures candidacy.state != Admitted ==> candidacy.mintedVersion == old(candidacy.mintedVersion)
  {
    var m := AdmitBundle(candidacy.declaration);
    var refused := registry.DryRun(m);
    if refused.Some? {
      var rejected := candidacy.Reject(ConsistencyStage, FromRegistry(refused.value));
      return;
    }
    var recorded := candidacy.RecordPass(ConsistencyStage);
    var validated := candidacy.Validate();
    if !storageUp {
      var failed := candidacy.MarkPublicationFailed();
      return;
    }
    var version := registry.Apply(m);
    var admitted := candidacy.Admit(version.value);
  }

  /** Admitted with exactly one new version holding the whole bundle, or the registry is
      untouched: rejected by the consistency stage, or validated but not stored. */
  ghost predicate Published(c: Content, version: nat, history: seq<Snapshot>, registry: Registry, candidacy: Candidacy,
                            storageUp: bool, log: seq<Entry>, spec: Result<Content, Refusal>)
    reads registry, candidacy
  {
    if spec.Err? then
      Halted(candidacy, log, ConsistencyStage, Some(FromRegistry(spec.error))) && Untouched(registry, version, history, c)
    else if !storageUp then
      && candidacy.state == Validated
      && candidacy.log == log + [Entry(ConsistencyStage, Passed), Entry(PublicationStage, StorageRefused)]
      && Untouched(registry, version, history, c)
    else
      && candidacy.state == Admitted && candidacy.mintedVersion == Some(registry.version)
      && candidacy.log == log + [Entry(ConsistencyStage, Passed), Entry(PublicationStage, AdmittedAt(registry.version))]
      && Untouched(registry, version + 1, history + [Snapshot(registry.version, spec.value)], spec.value)
  }

  /** admit: rejected at the first pre-check that refuses, with the registry untouched;
      otherwise as Published says. The commit itself is never refused. */
  method AdmitDeclaration(registry: Registry, d: Bundle, storageUp: bool) returns (candidacy: Candidacy)
    requires registry.Valid()
    modifies registry
    ensures registry.Valid() && fresh(candidacy) && candidacy.declaration == d
    ensures var c := old(registry.Contents());
            var n := PassedFrom(c, d, 0);
            if n < |STAGES| then
              && Halted(candidacy, Passes(STAGES[..n]), STAGES[n], Check(c, d, STAGES[n]))
              && Untouched(registry, old(registry.version), old(registry.history), c)
            else
              Published(c, old(registry.version), old(registry.history), registry, candidacy, storageUp, Passes(STAGES),
                        Admit(c, AdmitBundle(d)))
    ensures candidacy.mintedVersion.Some? <==> candidacy.state == Admitted
  {
    candidacy := new Candidacy(d);
    var begun := candidacy.Begin();
    var passed := RunPreChecks(registry, candidacy);
    if passed {
      Publish(registry, candidacy, storageUp);
    }
  }

  /** When a declaration is admitted, provided storage is up: exactly when it passes the
      seven pre-checks and its capabilities are fresh; and then nothing already there changed
      except bindings it restates. */
  lemma AdmittedExactly(c: Content, d: Bundle)
    requires RegistryOk(c)
    ensures PassedFrom(c, d, 0) == |STAGES| && AdmittedBundle(c, d).Ok? <==> PreChecked(c, d) && Fresh(c, d.capabilities)
    ensures PassedFrom(c, d, 0) == |STAGES| && AdmittedBundle(c, d).Ok? ==> OnlyAdds(c, d, AdmittedBundle(c, d).value)
  {
    PassedMeaning(c, d, 0);
    if PreChecked(c, d) {
      ConsistencyRefusesOnlyStaleness(c, d);
    }
  }
}
