/** A compiled layer, told by the records, the rulings and the thresholds alone: which
    artifacts it holds, what each rests on, how mature it is and where it points. */
module LieMeaning {
  import opened LieRules
  import opened LieTheorems
  import opened Orders
  import opened Wrappers

  /** Some deprecation or supersession takes the record out. */
  predicate TakenOut(overlay: seq<Ruling>, record: string) {
    exists i :: 0 <= i < |overlay| && overlay[i].kind in {Deprecation, Supersession} && RecordId(record) in overlay[i].targets
  }

  /** Some contradiction was resolved against the artifact. */
  predicate RuledOut(overlay: seq<Ruling>, id: Id) {
    exists i :: 0 <= i < |overlay| && overlay[i].kind == ContradictionResolution && id in overlay[i].targets
  }

  /** An episode on record and not taken out. */
  predicate Heard(records: seq<Rec>, overlay: seq<Ruling>, e: Episode) {
    EpisodeRec(e) in records && !TakenOut(overlay, e.id)
  }

  predicate HeardDecision(records: seq<Rec>, overlay: seq<Ruling>, d: Decision) {
    DecisionRec(d) in records && !TakenOut(overlay, d.id)
  }

  /** The situation is exactly this set of facets. */
  predicate InSituation(e: Episode, facets: Signature) {
    (forall f :: f in e.facets ==> f in facets) && forall f :: f in facets ==> f in e.facets
  }

  /** What speaks for an artifact: a success for the positive lesson of its situation, for the
      pattern of its approach and for the recipe of its steps; a failure for the negative
      lesson and for the anti-pattern; any episode for its project's dossier. */
  predicate SpeaksFor(e: Episode, id: Id) {
    match id
    case LessonId(facets, Positive) => e.verdict == Passed && InSituation(e, facets)
    case LessonId(facets, Negative) => e.verdict == NotPassed && InSituation(e, facets)
    case PatternId(facets, approach) => e.verdict == Passed && InSituation(e, facets) && e.approach == approach
    case AntiId(facets, approach) => e.verdict == NotPassed && InSituation(e, facets) && e.approach == approach
    case RecipeId(facets, steps) => e.verdict == Passed && InSituation(e, facets) && e.approach.steps == Some(steps)
    case DossierId(project) => e.project == project
    case PackId(_) => false
    case RecordId(_) => false
  }

  function Speakers(records: seq<Rec>, overlay: seq<Ruling>, id: Id): set<Episode> {
    set r | r in records && r.EpisodeRec? && Heard(records, overlay, r.episode) && SpeaksFor(r.episode, id) :: r.episode
  }

  /** The layer of these records under these rulings and rules. */
  ghost predicate Compiled(records: seq<Rec>, overlay: seq<Ruling>, rules: Ruleset, le: Order, layer: seq<Artifact>) {
    RulesetOk(rules) && LayerOf(CorpusOf(Elements(records), Elements(overlay), rules), le, layer)
  }

  // -- the corpus -----------------------------------------------------------------------

  lemma TakenOutMeans(overlay: seq<Ruling>, record: string)
    ensures TakenOut(overlay, record) <==> RecordId(record) in Excluded(Elements(overlay))
  {
  }

  lemma RuledOutMeans(overlay: seq<Ruling>, id: Id)
    ensures RuledOut(overlay, id) <==> id in RuledAgainst(Elements(overlay))
  {
  }

  lemma HeardMeans(records: seq<Rec>, overlay: seq<Ruling>, rules: Ruleset)
    ensures var c := CorpusOf(Elements(records), Elements(overlay), rules);
            && (forall e :: e in c.episodes <==> Heard(records, overlay, e))
            && (forall d :: d in c.decisions <==> HeardDecision(records, overlay, d))
            && (forall id :: id in c.ruled <==> RuledOut(overlay, id))
  {
    var c := CorpusOf(Elements(records), Elements(overlay), rules);
    forall e ensures e in c.episodes <==> Heard(records, overlay, e) {
      TakenOutMeans(overlay, e.id);
      assert EpisodeRec(e) in Elements(records) <==> EpisodeRec(e) in records;
    }
    forall d ensures d in c.decisions <==> HeardDecision(records, overlay, d) {
      TakenOutMeans(overlay, d.id);
      assert DecisionRec(d) in Elements(records) <==> DecisionRec(d) in records;
    }
    forall id ensures id in c.ruled <==> RuledOut(overlay, id) {
      RuledOutMeans(overlay, id);
    }
  }

  lemma SituationMeans(e: Episode, facets: Signature)
    ensures InSituation(e, facets) <==> SignatureOf(e) == facets
  {
  }

  lemma SpeakersAreEvidence(records: seq<Rec>, overlay: seq<Ruling>, rules: Ruleset, id: Id)
    ensures Evidence(CorpusOf(Elements(records), Elements(overlay), rules).episodes, id) == Speakers(records, overlay, id)
  {
    var c := CorpusOf(Elements(records), Elements(overlay), rules);
    HeardMeans(records, overlay, rules);
    forall e ensures e in Evidence(c.episodes, id) <==> e in Speakers(records, overlay, id) {
      if id.LessonId? || id.PatternId? || id.AntiId? || id.RecipeId? {
        SituationMeans(e, id.facets);
      }
      if e in Speakers(records, overlay, id) {
        assert Heard(records, overlay, e);
      }
      if Heard(records, overlay, e) && SpeaksFor(e, id) {
        assert EpisodeRec(e).episode == e;
      }
    }
  }

  /** The compiler refuses if and only if an episode it hears has no known verdict. */
  lemma RefusedExactly(records: seq<Rec>, overlay: seq<Ruling>, rules: Ruleset)
    ensures VerdictsKnown(CorpusOf(Elements(records), Elements(overlay), rules))
            <==> forall e :: Heard(records, overlay, e) ==> e.verdict == Passed || e.verdict == NotPassed
  {
    HeardMeans(records, overlay, rules);
  }

  // -- what the layer holds -----------------------------------------------------------------

  /** A lesson is in the layer if and only if one episode speaks for it, a dossier likewise;
      a pattern or anti-pattern needs patternMin, a recipe recipeMin of them; and none was
      ruled against. */
  lemma HeldExactly(records: seq<Rec>, overlay: seq<Ruling>, rules: Ruleset, le: Order, layer: seq<Artifact>, id: Id)
    requires Compiled(records, overlay, rules, le, layer)
    ensures id.LessonId? || id.DossierId? ==>
      (Has(layer, id) <==> !RuledOut(overlay, id) && exists e :: Heard(records, overlay, e) && SpeaksFor(e, id))
    ensures id.PatternId? || id.AntiId? ==>
      (Has(layer, id) <==> !RuledOut(overlay, id) && |Speakers(records, overlay, id)| >= rules.patternMin)
    ensures id.RecipeId? ==>
      (Has(layer, id) <==> !RuledOut(overlay, id) && |Speakers(records, overlay, id)| >= rules.recipeMin)
    ensures id.RecordId? ==> !Has(layer, id)
  {
    var c, group := CorpusOf(Elements(records), Elements(overlay), rules), Speakers(records, overlay, id);
    SpeakersAreEvidence(records, overlay, rules, id);
    HeardMeans(records, overlay, rules);
    assert InLayer(c, id) <==> Has(layer, id);
    if e :| Heard(records, overlay, e) && SpeaksFor(e, id) {
      assert EpisodeRec(e).episode == e && e in group;
      assert |group| >= 1;
    }
    if |group| >= 1 {
      var e :| e in group;
      assert Heard(records, overlay, e) && SpeaksFor(e, id);
    }
  }

  /** What one artifact rests on: exactly the episodes that speak for it, and their projects;
      it is established by enough projects, else corroborated by enough episodes. */
  ghost predicate Rests(a: Artifact, group: set<Episode>, rules: Ruleset) {
    && (forall x :: x in a.evidence <==> exists e :: e in group && e.id == x)
    && (forall p :: p in a.projects <==> exists e :: e in group && e.project == p)
    && (a.maturity == Established <==> |a.projects| >= rules.establishedMin)
    && (a.maturity == Corroborated <==> |a.projects| < rules.establishedMin && |group| >= rules.corroboratedMin)
  }

  lemma GroupRests(a: Artifact, group: set<Episode>, rules: Ruleset)
    requires a.evidence == EpisodeIds(group) && a.projects == Projects(group) && a.maturity == Grade(group, rules)
    ensures Rests(a, group, rules)
  {
  }

  lemma RestsOnSpeakers(records: seq<Rec>, overlay: seq<Ruling>, rules: Ruleset, le: Order, layer: seq<Artifact>, i: nat)
    requires Compiled(records, overlay, rules, le, layer) && i < |layer| && !layer[i].id.PackId?
    ensures Rests(layer[i], Speakers(records, overlay, layer[i].id), rules)
    ensures layer[i].body.Lesson? || layer[i].body.AntiPattern? ==> layer[i].body.count == |Speakers(records, overlay, layer[i].id)|
    ensures match layer[i].id
            case LessonId(facets, _) => layer[i].facets == facets && layer[i].body.Lesson?
            case PatternId(facets, _) => layer[i].facets == facets && layer[i].body.Pattern?
            case AntiId(facets, _) => layer[i].facets == facets && layer[i].body.AntiPattern?
            case RecipeId(facets, _) => layer[i].facets == facets && layer[i].body.Recipe?
            case _ => layer[i].body.Dossier?
  {
    var c, a := CorpusOf(Elements(records), Elements(overlay), rules), layer[i];
    SpeakersAreEvidence(records, overlay, rules, a.id);
    assert ArtifactOf(c, le, a.id, a);
    assert Has(layer, a.id) && InLayer(c, a.id);
    GroupRests(a, Speakers(records, overlay, a.id), rules);
  }

  // -- where an anti-pattern points -----------------------------------------------------------

  /** Of the artifacts held, the least that is so. */
  ghost predicate LeastHeld(layer: seq<Artifact>, le: Order, target: Option<Id>, kind: Id -> bool) {
    && target.Some? && Has(layer, target.value) && kind(target.value)
    && forall i :: 0 <= i < |layer| && kind(layer[i].id) ==> le(target.value, layer[i].id)
  }

  ghost predicate SomeHeld(layer: seq<Artifact>, kind: Id -> bool) {
    exists i :: 0 <= i < |layer| && kind(layer[i].id)
  }

  /** The least other pattern of the situation; failing that its least recipe; failing that
      its positive lesson, if some success there took another approach; else nowhere. */
  ghost predicate Points(records: seq<Rec>, overlay: seq<Ruling>, le: Order, layer: seq<Artifact>, facets: Signature, approach: Approach,
                         target: Option<Id>) {
    var patterns := (id: Id) => id.PatternId? && id.facets == facets && id.approach != approach;
    var recipes := (id: Id) => id.RecipeId? && id.facets == facets;
    if SomeHeld(layer, patterns) then LeastHeld(layer, le, target, patterns)
    else if SomeHeld(layer, recipes) then LeastHeld(layer, le, target, recipes)
    else if Has(layer, LessonId(facets, Positive))
            && exists e :: Heard(records, overlay, e) && e.verdict == Passed && InSituation(e, facets) && e.approach != approach
    then target == Some(LessonId(facets, Positive))
    else target == None
  }

  lemma DerivedIsHeld(c: Corpus, le: Order, layer: seq<Artifact>, ids: set<Id>, kind: Id -> bool)
    requires RulesetOk(c.rules) && LayerOf(c, le, layer)
    requires forall id :: id in ids <==> id in DerivedIds(c) && kind(id)
    requires forall id :: kind(id) ==> !id.PackId?
    ensures SomeHeld(layer, kind) <==> ids != {}
    ensures forall target :: LeastHeld(layer, le, target, kind) <==> target.Some? && Least(target.value, ids, le)
  {
    forall id | kind(id) ensures id in ids <==> Has(layer, id) {
      DerivedIdsExact(c, id);
      assert InLayer(c, id) <==> Has(layer, id);
    }
    if id :| id in ids {
      assert Has(layer, id);
    }
    if i :| 0 <= i < |layer| && kind(layer[i].id) {
      assert Has(layer, layer[i].id);
    }
    forall target: Option<Id> ensures LeastHeld(layer, le, target, kind) <==> target.Some? && Least(target.value, ids, le) {
      if LeastHeld(layer, le, target, kind) {
        forall other | other in ids ensures le(target.value, other) {
          assert Has(layer, other);
        }
      }
      if target.Some? && Least(target.value, ids, le) {
        forall i | 0 <= i < |layer| && kind(layer[i].id) ensures le(target.value, layer[i].id) {
          assert Has(layer, layer[i].id);
        }
      }
    }
  }

  lemma AntiPatternPoints(records: seq<Rec>, overlay: seq<Ruling>, rules: Ruleset, le: Order, layer: seq<Artifact>, i: nat)
    requires Compiled(records, overlay, rules, le, layer) && i < |layer| && layer[i].id.AntiId?
    ensures layer[i].body.AntiPattern?
    ensures Points(records, overlay, le, layer, layer[i].id.facets, layer[i].id.approach, layer[i].body.insteadOf)
  {
    var c, a := CorpusOf(Elements(records), Elements(overlay), rules), layer[i];
    var facets, approach := a.id.facets, a.id.approach;
    assert ArtifactOf(c, le, a.id, a);
    assert Instead(c, le, facets, approach, a.body.insteadOf);
    DerivedIsHeld(c, le, layer, OtherPatterns(c, facets, approach),
                  (id: Id) => id.PatternId? && id.facets == facets && id.approach != approach);
    DerivedIsHeld(c, le, layer, RecipesFor(c, facets), (id: Id) => id.RecipeId? && id.facets == facets);
    SpeakersAreEvidence(records, overlay, rules, LessonId(facets, Positive));
    assert InLayer(c, LessonId(facets, Positive)) <==> Has(layer, LessonId(facets, Positive));
    OtherApproachMeans(records, overlay, rules, facets, approach);
  }

  lemma OtherApproachMeans(records: seq<Rec>, overlay: seq<Ruling>, rules: Ruleset, facets: Signature, approach: Approach)
    ensures OtherApproach(CorpusOf(Elements(records), Elements(overlay), rules).episodes, facets, approach)
            <==> exists e :: Heard(records, overlay, e) && e.verdict == Passed && InSituation(e, facets) && e.approach != approach
  {
    var id := LessonId(facets, Positive);
    SpeakersAreEvidence(records, overlay, rules, id);
    forall e ensures e in Speakers(records, overlay, id) <==> Heard(records, overlay, e) && SpeaksFor(e, id) {
      assert EpisodeRec(e).episode == e;
    }
  }

  // -- dossiers ---------------------------------------------------------------------------------

  /** Some episode or decision of the project has the facet. */
  predicate Recorded(records: seq<Rec>, overlay: seq<Ruling>, project: string, f: string) {
    exists i :: 0 <= i < |records| && RecordedAt(records[i], overlay, project, f)
  }

  predicate RecordedAt(r: Rec, overlay: seq<Ruling>, project: string, f: string) {
    match r
    case EpisodeRec(e) => !TakenOut(overlay, e.id) && e.project == project && f in e.facets
    case DecisionRec(d) => !TakenOut(overlay, d.id) && d.project == project && f in d.facets
  }

  lemma RecordedMeans(records: seq<Rec>, overlay: seq<Ruling>, rules: Ruleset, project: string, f: string)
    ensures Recorded(records, overlay, project, f) <==> f in ProjectFacets(CorpusOf(Elements(records), Elements(overlay), rules), project)
  {
    var c := CorpusOf(Elements(records), Elements(overlay), rules);
    HeardMeans(records, overlay, rules);
    if i :| 0 <= i < |records| && RecordedAt(records[i], overlay, project, f) {
      match records[i]
      case EpisodeRec(e) => assert Heard(records, overlay, e);
      case DecisionRec(d) => assert HeardDecision(records, overlay, d);
    }
    if e :| e in c.episodes && e.project == project && f in e.facets {
      assert EpisodeRec(e) in records;
      var i :| 0 <= i < |records| && records[i] == EpisodeRec(e);
      assert RecordedAt(records[i], overlay, project, f);
    }
    if d :| d in c.decisions && d.project == project && f in d.facets {
      assert DecisionRec(d) in records;
      var i :| 0 <= i < |records| && records[i] == DecisionRec(d);
      assert RecordedAt(records[i], overlay, project, f);
    }
  }

  /** A dossier has its project's facets and decisions; the lessons one of its own episodes
      speaks for; and every other project with episodes it shares a facet with, and which. */
  lemma DossierTells(records: seq<Rec>, overlay: seq<Ruling>, rules: Ruleset, le: Order, layer: seq<Artifact>, i: nat, project: string)
    requires Compiled(records, overlay, rules, le, layer) && i < |layer| && layer[i].id == DossierId(project)
    ensures layer[i].body.Dossier?
    ensures forall f :: f in layer[i].facets <==> Recorded(records, overlay, project, f)
    ensures forall x :: x in layer[i].body.decisions <==> exists d :: HeardDecision(records, overlay, d) && d.project == project && d.id == x
    ensures forall id :: id in layer[i].body.lessons <==> id.LessonId? && Has(layer, id) && Taught(records, overlay, project, id)
    ensures forall other :: other in layer[i].body.resemblances <==>
              other != project && (exists e :: Heard(records, overlay, e) && e.project == other) && Shares(records, overlay, project, other)
    ensures forall other, f :: other in layer[i].body.resemblances ==>
              (f in layer[i].body.resemblances[other] <==> Recorded(records, overlay, project, f) && Recorded(records, overlay, other, f))
  {
    var c, a := CorpusOf(Elements(records), Elements(overlay), rules), layer[i];
    assert ArtifactOf(c, le, a.id, a);
    HeardMeans(records, overlay, rules);
    forall f ensures Recorded(records, overlay, project, f) <==> f in ProjectFacets(c, project) {
      RecordedMeans(records, overlay, rules, project, f);
    }
    forall id ensures id in LessonsOf(c, project) <==> id.LessonId? && Has(layer, id) && Taught(records, overlay, project, id) {
      LessonsTell(records, overlay, rules, le, layer, project, id);
    }
    ResemblancesTell(records, overlay, rules, project);
  }

  lemma SharesMean(records: seq<Rec>, overlay: seq<Ruling>, rules: Ruleset, a: string, b: string)
    ensures var c := CorpusOf(Elements(records), Elements(overlay), rules);
            Shares(records, overlay, a, b) <==> ProjectFacets(c, a) * ProjectFacets(c, b) != {}
  {
    var c := CorpusOf(Elements(records), Elements(overlay), rules);
    if f :| Recorded(records, overlay, a, f) && Recorded(records, overlay, b, f) {
      RecordedMeans(records, overlay, rules, a, f);
      RecordedMeans(records, overlay, rules, b, f);
      assert f in ProjectFacets(c, a) * ProjectFacets(c, b);
    }
    if ProjectFacets(c, a) * ProjectFacets(c, b) != {} {
      var f :| f in ProjectFacets(c, a) * ProjectFacets(c, b);
      RecordedMeans(records, overlay, rules, a, f);
      RecordedMeans(records, overlay, rules, b, f);
    }
  }

  lemma ResemblancesTell(records: seq<Rec>, overlay: seq<Ruling>, rules: Ruleset, project: string)
    ensures var m := Resemblances(CorpusOf(Elements(records), Elements(overlay), rules), project);
            && (forall other :: other in m <==>
                  other != project && (exists e :: Heard(records, overlay, e) && e.project == other) && Shares(records, overlay, project, other))
            && forall other, f :: other in m ==>
                 (f in m[other] <==> Recorded(records, overlay, project, f) && Recorded(records, overlay, other, f))
  {
    var c := CorpusOf(Elements(records), Elements(overlay), rules);
    var m := Resemblances(c, project);
    HeardMeans(records, overlay, rules);
    forall other ensures Shares(records, overlay, project, other) <==> ProjectFacets(c, project) * ProjectFacets(c, other) != {} {
      SharesMean(records, overlay, rules, project, other);
    }
    forall other ensures other in Projects(c.episodes) <==> exists e :: Heard(records, overlay, e) && e.project == other {
    }
    forall other, f | other in m ensures f in m[other] <==> Recorded(records, overlay, project, f) && Recorded(records, overlay, other, f) {
      RecordedMeans(records, overlay, rules, project, f);
      RecordedMeans(records, overlay, rules, other, f);
    }
  }

  ghost predicate Shares(records: seq<Rec>, overlay: seq<Ruling>, a: string, b: string) {
    exists f :: Recorded(records, overlay, a, f) && Recorded(records, overlay, b, f)
  }

  /** One of the project's episodes speaks for the lesson. */
  ghost predicate Taught(records: seq<Rec>, overlay: seq<Ruling>, project: string, id: Id) {
    exists e :: Heard(records, overlay, e) && e.project == project && SpeaksFor(e, id)
  }

  lemma LessonsTell(records: seq<Rec>, overlay: seq<Ruling>, rules: Ruleset, le: Order, layer: seq<Artifact>, project: string, id: Id)
    requires Compiled(records, overlay, rules, le, layer)
    ensures id in LessonsOf(CorpusOf(Elements(records), Elements(overlay), rules), project)
            <==> id.LessonId? && Has(layer, id) && Taught(records, overlay, project, id)
  {
    var c := CorpusOf(Elements(records), Elements(overlay), rules);
    HeardMeans(records, overlay, rules);
    DerivedIdsExact(c, id);
    assert InLayer(c, id) <==> Has(layer, id);
    SpeakersAreEvidence(records, overlay, rules, id);
    SpeakersAreEvidence(records, overlay, rules, DossierId(project));
    if e :| Heard(records, overlay, e) && e.project == project && SpeaksFor(e, id) {
      assert EpisodeRec(e).episode == e;
      assert e in Evidence(c.episodes, id) * Evidence(c.episodes, DossierId(project));
    }
    if Evidence(c.episodes, id) * Evidence(c.episodes, DossierId(project)) != {} {
      var e :| e in Evidence(c.episodes, id) * Evidence(c.episodes, DossierId(project));
      assert Heard(records, overlay, e);
    }
  }

  // -- packs ------------------------------------------------------------------------------------

  /** A lesson, pattern, anti-pattern or recipe of the layer within the scope. */
  ghost predicate CoreWithin(layer: seq<Artifact>, scope: Signature, id: Id) {
    (id.LessonId? || id.PatternId? || id.AntiId? || id.RecipeId?) && id.facets <= scope && Has(layer, id)
  }

  /** A measured episode within the scope. */
  predicate MeasuredWithin(records: seq<Rec>, overlay: seq<Ruling>, scope: Signature, e: Episode) {
    Heard(records, overlay, e) && e.measured && forall f :: f in e.facets ==> f in scope
  }

  ghost predicate Collected(records: seq<Rec>, overlay: seq<Ruling>, layer: seq<Artifact>, scope: Signature, id: Id) {
    CoreWithin(layer, scope, id) || exists e :: MeasuredWithin(records, overlay, scope, e) && id == RecordId(e.id)
  }

  lemma CollectedMeans(records: seq<Rec>, overlay: seq<Ruling>, rules: Ruleset, le: Order, layer: seq<Artifact>, scope: Signature)
    requires Compiled(records, overlay, rules, le, layer)
    ensures var c := CorpusOf(Elements(records), Elements(overlay), rules);
            && (forall e :: e in Measured(c, scope) <==> MeasuredWithin(records, overlay, scope, e))
            && (forall id :: id in CoreInScope(c, scope) <==> CoreWithin(layer, scope, id))
            && (forall id :: id in PackMembers(c, scope) <==> Collected(records, overlay, layer, scope, id))
  {
    var c := CorpusOf(Elements(records), Elements(overlay), rules);
    HeardMeans(records, overlay, rules);
    forall id ensures id in CoreInScope(c, scope) <==> CoreWithin(layer, scope, id) {
      DerivedIdsExact(c, id);
      assert InLayer(c, id) <==> Has(layer, id);
    }
    forall e ensures e in Measured(c, scope) <==> MeasuredWithin(records, overlay, scope, e) {
      assert SignatureOf(e) <= scope <==> forall f :: f in e.facets ==> f in scope;
    }
  }

  /** A pack is in the layer if and only if its scope is configured, it was not ruled
      against and something falls in the scope. It lists exactly what does: the artifacts
      and the measured episodes. It rests on the measured episodes and on whatever speaks
      for one of its artifacts. */
  lemma PackTells(records: seq<Rec>, overlay: seq<Ruling>, rules: Ruleset, le: Order, layer: seq<Artifact>, name: string)
    requires Compiled(records, overlay, rules, le, layer)
    ensures Has(layer, PackId(name)) <==>
              name in rules.packScopes && !RuledOut(overlay, PackId(name))
              && exists id :: Collected(records, overlay, layer, rules.packScopes[name], id)
    ensures forall i :: 0 <= i < |layer| && layer[i].id == PackId(name) ==>
              && name in rules.packScopes && layer[i].facets == rules.packScopes[name] && layer[i].body.Pack?
              && (forall id :: id in layer[i].body.members <==> Collected(records, overlay, layer, rules.packScopes[name], id))
              && (forall x :: x in layer[i].evidence <==>
                    exists e: Episode :: e.id == x && Supports(records, overlay, layer, rules.packScopes[name], e))
  {
    var c := CorpusOf(Elements(records), Elements(overlay), rules);
    HeardMeans(records, overlay, rules);
    assert InLayer(c, PackId(name)) <==> Has(layer, PackId(name));
    if name in rules.packScopes {
      var scope := rules.packScopes[name];
      CollectedMeans(records, overlay, rules, le, layer, scope);
      assert PackMembers(c, scope) != {} <==> exists id :: id in PackMembers(c, scope);
      forall e ensures e in PackEvidence(c, scope) <==> Supports(records, overlay, layer, scope, e) {
        SupportMeans(records, overlay, rules, le, layer, scope, e);
      }
    }
    forall i | 0 <= i < |layer| && layer[i].id == PackId(name) ensures ArtifactOf(c, le, PackId(name), layer[i]) {
    }
  }

  /** An episode a pack rests on. */
  ghost predicate Supports(records: seq<Rec>, overlay: seq<Ruling>, layer: seq<Artifact>, scope: Signature, e: Episode) {
    || MeasuredWithin(records, overlay, scope, e)
    || (Heard(records, overlay, e) && exists id :: CoreWithin(layer, scope, id) && SpeaksFor(e, id))
  }

  lemma SupportMeans(records: seq<Rec>, overlay: seq<Ruling>, rules: Ruleset, le: Order, layer: seq<Artifact>, scope: Signature, e: Episode)
    requires Compiled(records, overlay, rules, le, layer)
    ensures e in PackEvidence(CorpusOf(Elements(records), Elements(overlay), rules), scope) <==> Supports(records, overlay, layer, scope, e)
  {
    var c := CorpusOf(Elements(records), Elements(overlay), rules);
    CollectedMeans(records, overlay, rules, le, layer, scope);
    HeardMeans(records, overlay, rules);
    forall id ensures e in Evidence(c.episodes, id) <==> Heard(records, overlay, e) && SpeaksFor(e, id) {
      SpeakersAreEvidence(records, overlay, rules, id);
      if Heard(records, overlay, e) && SpeaksFor(e, id) {
        assert EpisodeRec(e).episode == e;
      }
    }
  }
}
