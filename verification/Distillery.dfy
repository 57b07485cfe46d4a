/** The compiler as it runs: dictionaries filled in admission order, proved to hold the
    one layer the rules describe. */
module Distillery {
  import opened LieLedger
  import opened LieRules
  import opened LieTheorems
  import opened Orders
  import opened Wrappers

  type Groups = map<Id, set<Episode>>
  type Key = Episode -> Option<Id>

  /** Each group holds exactly the episodes with its key, and no group is empty. */
  ghost predicate GroupedBy(groups: Groups, episodes: set<Episode>, key: Key) {
    forall id :: WithKey(episodes, key, id) == if id in groups then groups[id] else {}
  }

  function WithKey(episodes: set<Episode>, key: Key, id: Id): set<Episode> {
    set e | e in episodes && key(e) == Some(id)
  }

  ghost predicate NoneEmpty(groups: Groups) {
    forall id :: id in groups ==> groups[id] != {}
  }

  method GroupBy(episodes: seq<Episode>, key: Key) returns (groups: Groups)
    ensures GroupedBy(groups, Elements(episodes), key) && NoneEmpty(groups)
  {
    groups := map[];
    for i := 0 to |episodes|
      invariant GroupedBy(groups, Elements(episodes[..i]), key) && NoneEmpty(groups)
    {
      var e := episodes[i];
      OneMoreEpisode(episodes, i, key);
      var k := key(e);
      if k.Some? {
        groups := groups[k.value := (if k.value in groups then groups[k.value] else {}) + {e}];
      }
    }
    assert episodes[..|episodes|] == episodes;
  }

  lemma OneMoreEpisode(episodes: seq<Episode>, i: nat, key: Key)
    requires i < |episodes|
    ensures forall id :: WithKey(Elements(episodes[..i + 1]), key, id)
                         == WithKey(Elements(episodes[..i]), key, id) + if key(episodes[i]) == Some(id) then {episodes[i]} else {}
  {
    assert episodes[..i + 1] == episodes[..i] + [episodes[i]];
  }

  /** The groups with enough members that were not ruled against. */
  function Kept(groups: Groups, least: nat, ruled: set<Id>): Groups {
    map id | id in groups && |groups[id]| >= least && id !in ruled :: groups[id]
  }

  /** A dictionary of exactly the derived identities of a kind, each with its evidence. */
  ghost predicate Compiled(kept: Groups, c: Corpus, kind: Id -> bool) {
    forall id :: (id in kept <==> kind(id) && Derived(c, id)) && (id in kept ==> kept[id] == Evidence(c.episodes, id))
  }

  lemma KeptIsCompiled(groups: Groups, c: Corpus, key: Key, kind: Id -> bool, least: nat)
    requires GroupedBy(groups, c.episodes, key) && NoneEmpty(groups) && least >= 1
    requires forall id :: kind(id) ==> !id.PackId? && !id.RecordId? && Threshold(c.rules, id) == least
    requires forall id :: kind(id) ==> Evidence(c.episodes, id) == WithKey(c.episodes, key, id)
    requires forall id :: !kind(id) ==> WithKey(c.episodes, key, id) == {}
    ensures Compiled(Kept(groups, least, c.ruled), c, kind)
  {
    var kept := Kept(groups, least, c.ruled);
    forall id ensures (id in kept <==> kind(id) && Derived(c, id)) && (id in kept ==> kept[id] == Evidence(c.episodes, id)) {
      assert WithKey(c.episodes, key, id) == if id in groups then groups[id] else {};
    }
  }

  // -- overlay and records --------------------------------------------------------------------

  method ReadOverlay(overlay: seq<Ruling>) returns (excluded: set<Id>, ruled: set<Id>)
    ensures excluded == Excluded(Elements(overlay)) && ruled == RuledAgainst(Elements(overlay))
  {
    excluded, ruled := {}, {};
    for i := 0 to |overlay|
      invariant excluded == Excluded(Elements(overlay[..i])) && ruled == RuledAgainst(Elements(overlay[..i]))
    {
      assert overlay[..i + 1] == overlay[..i] + [overlay[i]];
      if overlay[i].kind == ContradictionResolution {
        ruled := ruled + overlay[i].targets;
      } else {
        excluded := excluded + overlay[i].targets;
      }
    }
    assert overlay[..|overlay|] == overlay;
  }

  method SplitRecords(records: seq<Rec>, excluded: set<Id>) returns (episodes: seq<Episode>, decisions: seq<Decision>)
    ensures Elements(episodes) == set r | r in Elements(records) && r.EpisodeRec? && RecordId(RecId(r)) !in excluded :: r.episode
    ensures Elements(decisions) == set r | r in Elements(records) && r.DecisionRec? && RecordId(RecId(r)) !in excluded :: r.decision
  {
    episodes, decisions := [], [];
    for i := 0 to |records|
      invariant Elements(episodes) == set r | r in Elements(records[..i]) && r.EpisodeRec? && RecordId(RecId(r)) !in excluded :: r.episode
      invariant Elements(decisions) == set r | r in Elements(records[..i]) && r.DecisionRec? && RecordId(RecId(r)) !in excluded :: r.decision
    {
      assert Elements(records[..i + 1]) == Elements(records[..i]) + {records[i]} by {
        assert records[..i + 1] == records[..i] + [records[i]];
      }
      if RecordId(RecId(records[i])) !in excluded {
        match records[i]
        case EpisodeRec(e) =>
          assert Elements(episodes + [e]) == Elements(episodes) + {e};
          episodes := episodes + [e];
        case DecisionRec(d) =>
          assert Elements(decisions + [d]) == Elements(decisions) + {d};
          decisions := decisions + [d];
      }
    }
    assert records[..|records|] == records;
  }

  method KnownVerdicts(episodes: seq<Episode>) returns (ok: bool)
    ensures ok <==> forall e :: e in episodes ==> e.verdict != UnknownVerdict
  {
    for i := 0 to |episodes|
      invariant forall j :: 0 <= j < i ==> episodes[j].verdict != UnknownVerdict
    {
      if episodes[i].verdict == UnknownVerdict {
        return false;
      }
    }
    return true;
  }

  // -- the layer under construction --------------------------------------------------------------

  type Built = map<Id, Artifact>

  /** Exactly these identities, each with its own artifact. */
  ghost predicate BuiltFor(built: Built, c: Corpus, le: Order, ids: set<Id>) {
    built.Keys == ids && forall id :: id in built ==> ArtifactOf(c, le, id, built[id])
  }

  function Make(id: Id, facets: Signature, group: set<Episode>, rules: Ruleset, body: Body): Artifact {
    Artifact(id, facets, EpisodeIds(group), Projects(group), Grade(group, rules), body)
  }

  lemma BuildOneMore(built: Built, c: Corpus, le: Order, ids: set<Id>, id: Id, a: Artifact)
    requires BuiltFor(built, c, le, ids) && ArtifactOf(c, le, id, a)
    ensures BuiltFor(built[id := a], c, le, ids + {id})
  {
  }

  lemma MergeBuilt(a: Built, b: Built, c: Corpus, le: Order, ids: set<Id>, more: set<Id>)
    requires BuiltFor(a, c, le, ids) && BuiltFor(b, c, le, more)
    ensures BuiltFor(a + b, c, le, ids + more)
  {
  }

  method BuildLessons(kept: Groups, ghost c: Corpus, rules: Ruleset, ghost le: Order) returns (built: Built)
    requires Compiled(kept, c, (id: Id) => id.LessonId?) && rules == c.rules
    ensures BuiltFor(built, c, le, kept.Keys)
  {
    built := map[];
    var todo := kept.Keys;
    while todo != {}
      invariant todo <= kept.Keys && BuiltFor(built, c, le, kept.Keys - todo)
      decreases todo
    {
      var id :| id in todo;
      var a := Make(id, id.facets, kept[id], rules, Lesson(|kept[id]|));
      BuildOneMore(built, c, le, kept.Keys - todo, id, a);
      assert kept.Keys - (todo - {id}) == (kept.Keys - todo) + {id};
      built := built[id := a];
      todo := todo - {id};
    }
  }

  method BuildRecipes(kept: Groups, ghost c: Corpus, rules: Ruleset, ghost le: Order) returns (built: Built)
    requires Compiled(kept, c, (id: Id) => id.RecipeId?) && rules == c.rules
    ensures BuiltFor(built, c, le, kept.Keys)
  {
    built := map[];
    var todo := kept.Keys;
    while todo != {}
      invariant todo <= kept.Keys && BuiltFor(built, c, le, kept.Keys - todo)
      decreases todo
    {
      var id :| id in todo;
      var a := Make(id, id.facets, kept[id], rules, Recipe);
      BuildOneMore(built, c, le, kept.Keys - todo, id, a);
      assert kept.Keys - (todo - {id}) == (kept.Keys - todo) + {id};
      built := built[id := a];
      todo := todo - {id};
    }
  }

  /** The sub-groups contested between patterns and anti-patterns: in both, neither ruled against. */
  function ContestedKeys(patternSpecs: Groups, antiSpecs: Groups, ruled: set<Id>): set<(Signature, Approach)> {
    set id | id in patternSpecs && id.PatternId? && AntiId(id.facets, id.approach) in antiSpecs
             && id !in ruled && AntiId(id.facets, id.approach) !in ruled
      :: (id.facets, id.approach)
  }

  method BuildPatterns(kept: Groups, contested: set<(Signature, Approach)>, ghost c: Corpus, rules: Ruleset, ghost le: Order) returns (built: Built)
    requires Compiled(kept, c, (id: Id) => id.PatternId?) && rules == c.rules
    requires forall f, a :: (f, a) in contested <==> Contested(c, f, a)
    ensures BuiltFor(built, c, le, kept.Keys)
  {
    built := map[];
    var todo := kept.Keys;
    while todo != {}
      invariant todo <= kept.Keys && BuiltFor(built, c, le, kept.Keys - todo)
      decreases todo
    {
      var id :| id in todo;
      var a := Make(id, id.facets, kept[id], rules, Pattern((id.facets, id.approach) in contested));
      BuildOneMore(built, c, le, kept.Keys - todo, id, a);
      assert kept.Keys - (todo - {id}) == (kept.Keys - todo) + {id};
      built := built[id := a];
      todo := todo - {id};
    }
  }

  /** The first of a non-empty set in the given order. */
  method FirstOf(ids: set<Id>, le: Order) returns (first: Id)
    requires TotalOrder(le) && ids != {}
    ensures Least(first, ids, le)
  {
    first :| first in ids;
    var todo := ids - {first};
    while todo != {}
      invariant todo <= ids && first in ids && first !in todo
      invariant forall id :: id in ids && id !in todo ==> le(first, id)
      decreases todo
    {
      var id :| id in todo;
      if le(id, first) {
        first := id;
      }
      todo := todo - {id};
    }
  }

  method FindInstead(patterns: set<Id>, recipes: set<Id>, lessons: Groups, positives: set<Episode>, facets: Signature, approach: Approach,
                     le: Order, ghost c: Corpus) returns (target: Option<Id>)
    requires TotalOrder(le)
    requires (set id | id in patterns && id.PatternId? && id.facets == facets && id.approach != approach) == OtherPatterns(c, facets, approach)
    requires (set id | id in recipes && id.RecipeId? && id.facets == facets) == RecipesFor(c, facets)
    requires LessonId(facets, Positive) in lessons <==> Derived(c, LessonId(facets, Positive))
    requires positives == Evidence(c.episodes, LessonId(facets, Positive))
    ensures Instead(c, le, facets, approach, target)
  {
    var others := set id | id in patterns && id.PatternId? && id.facets == facets && id.approach != approach;
    if others != {} {
      var first := FirstOf(others, le);
      return Some(first);
    }
    var here := set id | id in recipes && id.RecipeId? && id.facets == facets;
    if here != {} {
      var first := FirstOf(here, le);
      return Some(first);
    }
    if LessonId(facets, Positive) in lessons && exists e :: e in positives && e.approach != approach {
      return Some(LessonId(facets, Positive));
    }
    return None;
  }

  /** What the anti-pattern pass reads of the passes before it. */
  ghost predicate Ready(patterns: set<Id>, recipes: set<Id>, lessons: Groups, groups: Groups, c: Corpus) {
    && (forall id :: id in patterns <==> id.PatternId? && Derived(c, id))
    && (forall id :: id in recipes <==> id.RecipeId? && Derived(c, id))
    && (forall id :: id in lessons <==> id.LessonId? && Derived(c, id))
    && GroupedBy(groups, c.episodes, LessonKey)
    && RulesetOk(c.rules)
  }

  lemma ReadyFor(patterns: set<Id>, recipes: set<Id>, lessons: Groups, groups: Groups, c: Corpus, facets: Signature, approach: Approach)
    requires Ready(patterns, recipes, lessons, groups, c)
    ensures (set id | id in patterns && id.PatternId? && id.facets == facets && id.approach != approach) == OtherPatterns(c, facets, approach)
    ensures (set id | id in recipes && id.RecipeId? && id.facets == facets) == RecipesFor(c, facets)
    ensures (if LessonId(facets, Positive) in groups then groups[LessonId(facets, Positive)] else {})
            == Evidence(c.episodes, LessonId(facets, Positive))
  {
    forall id ensures id in DerivedIds(c) <==> Derived(c, id) {
      DerivedIdsExact(c, id);
    }
    assert WithKey(c.episodes, LessonKey, LessonId(facets, Positive)) == Evidence(c.episodes, LessonId(facets, Positive));
  }

  method ChooseInstead(patterns: set<Id>, recipes: set<Id>, lessons: Groups, groups: Groups, facets: Signature, approach: Approach,
                       le: Order, ghost c: Corpus) returns (target: Option<Id>)
    requires TotalOrder(le) && Ready(patterns, recipes, lessons, groups, c)
    ensures Instead(c, le, facets, approach, target)
  {
    ReadyFor(patterns, recipes, lessons, groups, c, facets, approach);
    var lesson := LessonId(facets, Positive);
    target := FindInstead(patterns, recipes, lessons, if lesson in groups then groups[lesson] else {}, facets, approach, le, c);
  }

  lemma AntiPatternMade(c: Corpus, le: Order, id: Id, body: Body, a: Artifact)
    requires id.AntiId? && body.AntiPattern? && Instead(c, le, id.facets, id.approach, body.insteadOf)
    requires body.contested == Contested(c, id.facets, id.approach) && body.count == |Evidence(c.episodes, id)|
    requires a == Make(id, id.facets, Evidence(c.episodes, id), c.rules, body)
    ensures ArtifactOf(c, le, id, a)
  {
    assert BodyOf(c, le, id, body);
  }

  method BuildAntiPattern(id: Id, group: set<Episode>, contested: bool, patterns: set<Id>, recipes: set<Id>, lessons: Groups,
                          groups: Groups, ghost c: Corpus, rules: Ruleset, le: Order) returns (a: Artifact)
    requires id.AntiId? && group == Evidence(c.episodes, id) && rules == c.rules && TotalOrder(le)
    requires contested == Contested(c, id.facets, id.approach) && Ready(patterns, recipes, lessons, groups, c)
    ensures ArtifactOf(c, le, id, a)
  {
    var target := ChooseInstead(patterns, recipes, lessons, groups, id.facets, id.approach, le, c);
    var body := AntiPattern(contested, |group|, target);
    a := Make(id, id.facets, group, rules, body);
    AntiPatternMade(c, le, id, body, a);
  }

  method BuildAntiPatterns(kept: Groups, contested: set<(Signature, Approach)>, patterns: set<Id>, recipes: set<Id>, lessons: Groups,
                           groups: Groups, ghost c: Corpus, rules: Ruleset, le: Order) returns (built: Built)
    requires Compiled(kept, c, (id: Id) => id.AntiId?) && rules == c.rules && TotalOrder(le)
    requires forall f, a :: (f, a) in contested <==> Contested(c, f, a)
    requires Ready(patterns, recipes, lessons, groups, c)
    ensures BuiltFor(built, c, le, kept.Keys)
  {
    built := map[];
    var todo := kept.Keys;
    while todo != {}
      invariant todo <= kept.Keys && BuiltFor(built, c, le, kept.Keys - todo)
      decreases todo
    {
      var id :| id in todo;
      assert id.AntiId? && kept[id] == Evidence(c.episodes, id);
      var a := BuildAntiPattern(id, kept[id], (id.facets, id.approach) in contested, patterns, recipes, lessons, groups, c, rules, le);
      BuildOneMore(built, c, le, kept.Keys - todo, id, a);
      assert kept.Keys - (todo - {id}) == (kept.Keys - todo) + {id};
      built := built[id := a];
      todo := todo - {id};
    }
  }

  // -- dossiers and packs ---------------------------------------------------------------------------

  /** The facet profile of every project that has an episode. */
  method ProjectSignatures(projects: Groups, decisions: seq<Decision>, ghost c: Corpus) returns (profiles: map<string, Signature>)
    requires GroupedBy(projects, c.episodes, DossierKey) && NoneEmpty(projects) && Elements(decisions) == c.decisions
    ensures profiles.Keys == Projects(c.episodes) && forall p :: p in profiles ==> profiles[p] == ProjectFacets(c, p)
  {
    profiles := map[];
    var todo := projects.Keys;
    while todo != {}
      invariant todo <= projects.Keys
      invariant profiles.Keys == set id | id in projects && id !in todo && id.DossierId? :: id.project
      invariant forall p :: p in profiles ==> profiles[p] == ProjectFacets(c, p)
      decreases todo
    {
      var id :| id in todo;
      GroupIsProject(projects, c, id);
      var facets := set e, f | e in projects[id] && f in e.facets :: f;
      for i := 0 to |decisions|
        invariant facets == (set e, f | e in projects[id] && f in e.facets :: f)
                            + (set d, f | d in decisions[..i] && d.project == id.project && f in d.facets :: f)
      {
        assert decisions[..i + 1] == decisions[..i] + [decisions[i]];
        if decisions[i].project == id.project {
          facets := facets + FacetSet(decisions[i].facets);
        }
      }
      assert decisions[..|decisions|] == decisions;
      assert forall d :: d in decisions <==> d in c.decisions;
      profiles := profiles[id.project := facets];
      todo := todo - {id};
    }
    ProjectsAreGrouped(projects, c);
  }

  lemma GroupIsProject(projects: Groups, c: Corpus, id: Id)
    requires GroupedBy(projects, c.episodes, DossierKey) && NoneEmpty(projects) && id in projects
    ensures id.DossierId? && projects[id] == set e | e in c.episodes && e.project == id.project
    ensures projects[id] == Evidence(c.episodes, id)
  {
    assert WithKey(c.episodes, DossierKey, id) == projects[id];
    var e :| e in projects[id];
  }

  lemma ProjectsAreGrouped(projects: Groups, c: Corpus)
    requires GroupedBy(projects, c.episodes, DossierKey) && NoneEmpty(projects)
    ensures (set id | id in projects && id.DossierId? :: id.project) == Projects(c.episodes)
  {
    forall id | id in projects && id.DossierId? ensures id.project in Projects(c.episodes) {
      GroupIsProject(projects, c, id);
      var e :| e in projects[id];
    }
    forall p | p in Projects(c.episodes) ensures DossierId(p) in projects {
      var e :| e in c.episodes && e.project == p;
      assert e in WithKey(c.episodes, DossierKey, DossierId(p));
    }
  }

  /** What the dossier pass reads of the passes before it. */
  ghost predicate Profiled(profiles: map<string, Signature>, lessons: Groups, decisions: seq<Decision>, c: Corpus) {
    && Compiled(lessons, c, (id: Id) => id.LessonId?) && RulesetOk(c.rules) && Elements(decisions) == c.decisions
    && profiles.Keys == Projects(c.episodes) && forall p :: p in profiles ==> profiles[p] == ProjectFacets(c, p)
  }

  method BuildDossier(id: Id, group: set<Episode>, profiles: map<string, Signature>, lessons: Groups, decisions: seq<Decision>,
                      ghost c: Corpus, rules: Ruleset, ghost le: Order) returns (a: Artifact)
    requires id.DossierId? && Derived(c, id) && group == Evidence(c.episodes, id)
    requires Profiled(profiles, lessons, decisions, c) && rules == c.rules
    ensures ArtifactOf(c, le, id, a)
  {
    DossierProject(c, id);
    var decisionIds := set d | d in decisions && d.project == id.project :: d.id;
    DossierDecisions(decisions, c, id.project);
    var lessonIds := set l | l in lessons && lessons[l] * group != {};
    DossierLessons(lessons, c, id.project, lessonIds);
    var resemblances := ResemblancesIn(profiles, id.project);
    ProfiledResemblances(profiles, c, id.project);
    a := Make(id, profiles[id.project], group, rules, Dossier(decisionIds, lessonIds, resemblances));
  }

  function ResemblancesIn(profiles: map<string, Signature>, project: string): map<string, Signature>
    requires project in profiles
  {
    map other | other in profiles.Keys && other != project && profiles[project] * profiles[other] != {}
      :: profiles[project] * profiles[other]
  }

  lemma ProfiledResemblances(profiles: map<string, Signature>, c: Corpus, project: string)
    requires profiles.Keys == Projects(c.episodes) && forall p :: p in profiles ==> profiles[p] == ProjectFacets(c, p)
    requires project in profiles
    ensures ResemblancesIn(profiles, project) == Resemblances(c, project)
  {
  }

  lemma DossierDecisions(decisions: seq<Decision>, c: Corpus, project: string)
    requires Elements(decisions) == c.decisions
    ensures (set d | d in decisions && d.project == project :: d.id) == DecisionIds(c, project)
  {
    assert forall d :: d in decisions <==> d in c.decisions;
  }

  method BuildDossiers(kept: Groups, profiles: map<string, Signature>, lessons: Groups, decisions: seq<Decision>,
                       ghost c: Corpus, rules: Ruleset, ghost le: Order) returns (built: Built)
    requires Compiled(kept, c, (id: Id) => id.DossierId?) && Profiled(profiles, lessons, decisions, c) && rules == c.rules
    ensures BuiltFor(built, c, le, kept.Keys)
  {
    built := map[];
    var todo := kept.Keys;
    while todo != {}
      invariant todo <= kept.Keys && BuiltFor(built, c, le, kept.Keys - todo)
      decreases todo
    {
      var id :| id in todo;
      var a := BuildDossier(id, kept[id], profiles, lessons, decisions, c, rules, le);
      BuildOneMore(built, c, le, kept.Keys - todo, id, a);
      assert kept.Keys - (todo - {id}) == (kept.Keys - todo) + {id};
      built := built[id := a];
      todo := todo - {id};
    }
  }

  lemma DossierProject(c: Corpus, id: Id)
    requires id.DossierId? && Derived(c, id)
    ensures id.project in Projects(c.episodes)
  {
    var group := Evidence(c.episodes, id);
    assert |group| >= 1;
    var e :| e in group;
  }

  lemma DossierLessons(lessons: Groups, c: Corpus, project: string, ids: set<Id>)
    requires Compiled(lessons, c, (id: Id) => id.LessonId?) && RulesetOk(c.rules)
    requires ids == set l | l in lessons && lessons[l] * Evidence(c.episodes, DossierId(project)) != {}
    ensures ids == LessonsOf(c, project)
  {
    forall id ensures id in DerivedIds(c) <==> Derived(c, id) {
      DerivedIdsExact(c, id);
    }
  }

  /** All core artifacts, with their evidence. */
  ghost predicate IsCore(core: Groups, c: Corpus) {
    Compiled(core, c, Core)
  }

  function PackIds(c: Corpus, names: set<string>): set<Id> {
    set name | name in names && Packed(c, name) :: PackId(name)
  }

  method BuildPacks(core: Groups, episodes: seq<Episode>, ruled: set<Id>, ghost c: Corpus, rules: Ruleset, ghost le: Order) returns (built: Built)
    requires IsCore(core, c) && rules == c.rules && RulesetOk(rules) && ruled == c.ruled && Elements(episodes) == c.episodes
    ensures BuiltFor(built, c, le, PackIds(c, rules.packScopes.Keys))
  {
    built := map[];
    var todo := rules.packScopes.Keys;
    ghost var done: set<string> := {};
    while todo != {}
      invariant todo + done == rules.packScopes.Keys && BuiltFor(built, c, le, PackIds(c, done))
      decreases todo
    {
      var name :| name in todo;
      var a := BuildPack(name, core, episodes, ruled, c, rules, le);
      PackIdsMore(c, done, name);
      if a.Some? {
        BuildOneMore(built, c, le, PackIds(c, done), PackId(name), a.value);
        built := built[PackId(name) := a.value];
      }
      todo, done := todo - {name}, done + {name};
    }
  }

  lemma PackIdsMore(c: Corpus, names: set<string>, name: string)
    ensures PackIds(c, names + {name}) == PackIds(c, names) + if Packed(c, name) then {PackId(name)} else {}
  {
  }

  method BuildPack(name: string, core: Groups, episodes: seq<Episode>, ruled: set<Id>, ghost c: Corpus, rules: Ruleset, ghost le: Order)
    returns (a: Option<Artifact>)
    requires IsCore(core, c) && rules == c.rules && RulesetOk(rules) && ruled == c.ruled && Elements(episodes) == c.episodes
    requires name in rules.packScopes
    ensures a.Some? <==> Packed(c, name)
    ensures a.Some? ==> ArtifactOf(c, le, PackId(name), a.value)
  {
    var scope := rules.packScopes[name];
    var inScope := set id | id in core.Keys && ScopedIn(id, scope);
    var measured := set e | e in episodes && e.measured && SignatureOf(e) <= scope;
    ScopeOfMeasured(episodes, c, scope);
    ScopeOfCore(core, c, scope, inScope);
    var members := inScope + set e | e in measured :: RecordId(e.id);
    if PackId(name) in ruled || members == {} {
      a := None;
    } else {
      var group := (set id, e | id in inScope && e in core[id] :: e) + measured;
      assert group == PackEvidence(c, scope);
      a := Some(Make(PackId(name), scope, group, rules, Pack(members)));
    }
  }

  lemma ScopeOfMeasured(episodes: seq<Episode>, c: Corpus, scope: Signature)
    requires Elements(episodes) == c.episodes
    ensures (set e | e in episodes && e.measured && SignatureOf(e) <= scope) == Measured(c, scope)
  {
    assert forall e :: e in episodes <==> e in c.episodes;
  }

  predicate ScopedIn(id: Id, scope: Signature) {
    Core(id) && id.facets <= scope
  }

  lemma ScopeOfCore(core: Groups, c: Corpus, scope: Signature, inScope: set<Id>)
    requires IsCore(core, c) && RulesetOk(c.rules)
    requires inScope == set id | id in core && ScopedIn(id, scope)
    ensures inScope == CoreInScope(c, scope)
    ensures forall id :: id in inScope ==> core[id] == Evidence(c.episodes, id)
  {
    forall id ensures id in DerivedIds(c) <==> Derived(c, id) {
      DerivedIdsExact(c, id);
    }
  }

  // -- regenerate ---------------------------------------------------------------------------------------

  lemma LessonsCompiled(groups: Groups, c: Corpus)
    requires GroupedBy(groups, c.episodes, LessonKey) && NoneEmpty(groups)
    ensures Compiled(Kept(groups, 1, c.ruled), c, (id: Id) => id.LessonId?)
  {
    KeptIsCompiled(groups, c, LessonKey, (id: Id) => id.LessonId?, 1);
  }

  lemma PatternsCompiled(groups: Groups, c: Corpus)
    requires GroupedBy(groups, c.episodes, PatternKey) && NoneEmpty(groups) && RulesetOk(c.rules)
    ensures Compiled(Kept(groups, c.rules.patternMin, c.ruled), c, (id: Id) => id.PatternId?)
  {
    KeptIsCompiled(groups, c, PatternKey, (id: Id) => id.PatternId?, c.rules.patternMin);
  }

  lemma AntiPatternsCompiled(groups: Groups, c: Corpus)
    requires GroupedBy(groups, c.episodes, AntiKey) && NoneEmpty(groups) && RulesetOk(c.rules)
    ensures Compiled(Kept(groups, c.rules.patternMin, c.ruled), c, (id: Id) => id.AntiId?)
  {
    KeptIsCompiled(groups, c, AntiKey, (id: Id) => id.AntiId?, c.rules.patternMin);
  }

  lemma RecipesCompiled(groups: Groups, c: Corpus)
    requires GroupedBy(groups, c.episodes, RecipeKey) && NoneEmpty(groups) && RulesetOk(c.rules)
    ensures Compiled(Kept(groups, c.rules.recipeMin, c.ruled), c, (id: Id) => id.RecipeId?)
  {
    KeptIsCompiled(groups, c, RecipeKey, (id: Id) => id.RecipeId?, c.rules.recipeMin);
  }

  lemma DossiersCompiled(groups: Groups, c: Corpus)
    requires GroupedBy(groups, c.episodes, DossierKey) && NoneEmpty(groups)
    ensures Compiled(Kept(groups, 1, c.ruled), c, (id: Id) => id.DossierId?)
  {
    KeptIsCompiled(groups, c, DossierKey, (id: Id) => id.DossierId?, 1);
  }

  lemma ContestedAreContested(patternGroups: Groups, antiGroups: Groups, c: Corpus)
    requires GroupedBy(patternGroups, c.episodes, PatternKey) && NoneEmpty(patternGroups) && RulesetOk(c.rules)
    requires GroupedBy(antiGroups, c.episodes, AntiKey) && NoneEmpty(antiGroups)
    ensures var contested := ContestedKeys(Kept(patternGroups, c.rules.patternMin, {}), Kept(antiGroups, c.rules.patternMin, {}), c.ruled);
            forall f, a :: (f, a) in contested <==> Contested(c, f, a)
  {
    PatternsCompiled(patternGroups, c);
    AntiPatternsCompiled(antiGroups, c);
    var patternSpecs, antiSpecs := Kept(patternGroups, c.rules.patternMin, {}), Kept(antiGroups, c.rules.patternMin, {});
    var patterns, antis := Kept(patternGroups, c.rules.patternMin, c.ruled), Kept(antiGroups, c.rules.patternMin, c.ruled);
    forall f, a ensures (f, a) in ContestedKeys(patternSpecs, antiSpecs, c.ruled) <==> Contested(c, f, a) {
      var p, n := PatternId(f, a), AntiId(f, a);
      assert p in patterns <==> p in patternSpecs && p !in c.ruled;
      assert n in antis <==> n in antiSpecs && n !in c.ruled;
      assert p in patterns <==> Derived(c, p);
      assert n in antis <==> Derived(c, n);
    }
  }

  /** The dictionaries of the passes over core artifacts. */
  datatype Passes = Passes(lessons: Groups, patterns: Groups, antis: Groups, recipes: Groups)

  ghost predicate PassesOk(p: Passes, c: Corpus) {
    && Compiled(p.lessons, c, (id: Id) => id.LessonId?) && Compiled(p.patterns, c, (id: Id) => id.PatternId?)
    && Compiled(p.antis, c, (id: Id) => id.AntiId?) && Compiled(p.recipes, c, (id: Id) => id.RecipeId?)
  }

  /** Group, keep and flag. */
  method CompileCore(episodes: seq<Episode>, ruled: set<Id>, rules: Ruleset, ghost c: Corpus)
    returns (p: Passes, lessonGroups: Groups, contested: set<(Signature, Approach)>)
    requires Elements(episodes) == c.episodes && ruled == c.ruled && rules == c.rules && RulesetOk(rules)
    ensures PassesOk(p, c) && GroupedBy(lessonGroups, c.episodes, LessonKey)
    ensures forall f, a :: (f, a) in contested <==> Contested(c, f, a)
  {
    lessonGroups := GroupBy(episodes, LessonKey);
    LessonsCompiled(lessonGroups, c);
    var patternGroups := GroupBy(episodes, PatternKey);
    PatternsCompiled(patternGroups, c);
    var antiGroups := GroupBy(episodes, AntiKey);
    AntiPatternsCompiled(antiGroups, c);
    var recipeGroups := GroupBy(episodes, RecipeKey);
    RecipesCompiled(recipeGroups, c);
    ContestedAreContested(patternGroups, antiGroups, c);
    contested := ContestedKeys(Kept(patternGroups, rules.patternMin, {}), Kept(antiGroups, rules.patternMin, {}), ruled);
    p := Passes(Kept(lessonGroups, 1, ruled), Kept(patternGroups, rules.patternMin, ruled), Kept(antiGroups, rules.patternMin, ruled),
                Kept(recipeGroups, rules.recipeMin, ruled));
  }

  function AllCore(p: Passes): Groups {
    p.lessons + p.patterns + p.antis + p.recipes
  }

  lemma CoreIsComplete(p: Passes, c: Corpus)
    requires PassesOk(p, c)
    ensures IsCore(AllCore(p), c)
  {
  }

  /** Build every core artifact. */
  method BuildCore(p: Passes, lessonGroups: Groups, contested: set<(Signature, Approach)>, ghost c: Corpus, rules: Ruleset, le: Order)
    returns (built: Built)
    requires PassesOk(p, c) && GroupedBy(lessonGroups, c.episodes, LessonKey) && rules == c.rules && RulesetOk(rules) && TotalOrder(le)
    requires forall f, a :: (f, a) in contested <==> Contested(c, f, a)
    ensures BuiltFor(built, c, le, AllCore(p).Keys)
  {
    var lessons := BuildLessons(p.lessons, c, rules, le);
    var patterns := BuildPatterns(p.patterns, contested, c, rules, le);
    var recipes := BuildRecipes(p.recipes, c, rules, le);
    assert Ready(p.patterns.Keys, p.recipes.Keys, p.lessons, lessonGroups, c);
    var antis := BuildAntiPatterns(p.antis, contested, p.patterns.Keys, p.recipes.Keys, p.lessons, lessonGroups, c, rules, le);
    MergeBuilt(lessons, patterns, c, le, p.lessons.Keys, p.patterns.Keys);
    MergeBuilt(lessons + patterns, antis, c, le, p.lessons.Keys + p.patterns.Keys, p.antis.Keys);
    MergeBuilt(lessons + patterns + antis, recipes, c, le, p.lessons.Keys + p.patterns.Keys + p.antis.Keys, p.recipes.Keys);
    built := lessons + patterns + antis + recipes;
    assert AllCore(p).Keys == p.lessons.Keys + p.patterns.Keys + p.antis.Keys + p.recipes.Keys;
  }

  /** Everything in the layer, not yet in order. */
  method BuildAll(episodes: seq<Episode>, decisions: seq<Decision>, ruled: set<Id>, ghost c: Corpus, rules: Ruleset, le: Order)
    returns (built: Built)
    requires Elements(episodes) == c.episodes && Elements(decisions) == c.decisions && ruled == c.ruled && rules == c.rules
    requires RulesetOk(rules) && TotalOrder(le)
    ensures (forall id :: id in built <==> InLayer(c, id)) && forall id :: id in built ==> ArtifactOf(c, le, id, built[id])
  {
    var p, lessonGroups, contested := CompileCore(episodes, ruled, rules, c);
    CoreIsComplete(p, c);
    var core := BuildCore(p, lessonGroups, contested, c, rules, le);
    var projects := GroupBy(episodes, DossierKey);
    DossiersCompiled(projects, c);
    var profiles := ProjectSignatures(projects, decisions, c);
    var dossiers := BuildDossiers(Kept(projects, 1, ruled), profiles, p.lessons, decisions, c, rules, le);
    var packs := BuildPacks(AllCore(p), episodes, ruled, c, rules, le);
    MergeBuilt(core, dossiers, c, le, AllCore(p).Keys, Kept(projects, 1, ruled).Keys);
    MergeBuilt(core + dossiers, packs, c, le, AllCore(p).Keys + Kept(projects, 1, ruled).Keys, PackIds(c, rules.packScopes.Keys));
    built := core + dossiers + packs;
    LayerIsAll(c, AllCore(p), Kept(projects, 1, ruled), built.Keys);
  }

  lemma LayerIsAll(c: Corpus, core: Groups, dossiers: Groups, ids: set<Id>)
    requires IsCore(core, c) && Compiled(dossiers, c, (id: Id) => id.DossierId?)
    requires ids == core.Keys + dossiers.Keys + PackIds(c, c.rules.packScopes.Keys)
    ensures forall id :: id in ids <==> InLayer(c, id)
  {
    forall id ensures id in ids <==> InLayer(c, id) {
      assert id in core <==> Core(id) && Derived(c, id);
      assert id in dossiers <==> id.DossierId? && Derived(c, id);
    }
  }

  datatype Layer = Layer(ledgerPosition: nat, overlayPosition: nat, rulesetVersion: nat, artifacts: seq<Artifact>)

  lemma ListedLayer(built: Built, ids: seq<Id>, artifacts: seq<Artifact>, id: Id)
    requires Elements(ids) == built.Keys && |artifacts| == |ids|
    requires forall i :: 0 <= i < |ids| ==> artifacts[i].id == ids[i]
    ensures id in built <==> Has(artifacts, id)
  {
    if id in built {
      assert id in Elements(ids);
      var i :| 0 <= i < |ids| && ids[i] == id;
      assert artifacts[i].id == id;
    }
    if Has(artifacts, id) {
      var i :| 0 <= i < |artifacts| && artifacts[i].id == id;
      assert ids[i] in Elements(ids);
    }
  }

  lemma LayerListed(built: Built, ids: seq<Id>, artifacts: seq<Artifact>, c: Corpus, le: Order)
    requires Elements(ids) == built.Keys && Sorted(ids, le) && Distinct(ids) && |artifacts| == |ids|
    requires forall i :: 0 <= i < |ids| ==> ids[i] in built && artifacts[i] == built[ids[i]] && artifacts[i].id == ids[i]
    requires (forall id :: id in built <==> InLayer(c, id)) && forall id :: id in built ==> ArtifactOf(c, le, id, built[id])
    ensures LayerOf(c, le, artifacts)
  {
    forall id ensures InLayer(c, id) <==> Has(artifacts, id) {
      ListedLayer(built, ids, artifacts, id);
    }
    forall i | 0 <= i < |artifacts| ensures ArtifactOf(c, le, artifacts[i].id, artifacts[i]) {
      assert ArtifactOf(c, le, ids[i], built[ids[i]]);
    }
  }

  /** The artifacts, sorted by identity. */
  method InOrder(built: Built, ghost c: Corpus, le: Order) returns (artifacts: seq<Artifact>)
    requires TotalOrder(le)
    requires (forall id :: id in built <==> InLayer(c, id)) && forall id :: id in built ==> ArtifactOf(c, le, id, built[id])
    ensures LayerOf(c, le, artifacts)
  {
    var ids := SortedBy(built.Keys, le);
    artifacts := Pick(built, ids);
    forall i | 0 <= i < |ids| ensures artifacts[i].id == ids[i] {
      assert ArtifactOf(c, le, ids[i], built[ids[i]]);
    }
    LayerListed(built, ids, artifacts, c, le);
  }

  function Pick(built: Built, ids: seq<Id>): (artifacts: seq<Artifact>)
    requires Elements(ids) == built.Keys
    ensures |artifacts| == |ids| && forall i :: 0 <= i < |ids| ==> ids[i] in built && artifacts[i] == built[ids[i]]
  {
    assert forall i :: 0 <= i < |ids| ==> ids[i] in Elements(ids);
    seq(|ids|, i requires 0 <= i < |ids| => built[ids[i]])
  }

  /** regenerate: the layer of the ledger's records under the overlay and the ruleset; None
      where an admitted episode has no known verdict. */
  method Regenerate(records: seq<Rec>, overlay: seq<Ruling>, rules: Ruleset, le: Order) returns (layer: Option<Layer>)
    requires RulesetOk(rules) && TotalOrder(le)
    ensures var c := CorpusOf(Elements(records), Elements(overlay), rules);
            && (layer.Some? <==> VerdictsKnown(c))
            && (layer.Some? ==>
                  && LayerOf(c, le, layer.value.artifacts)
                  && layer.value == Layer(|records|, |overlay|, rules.version, layer.value.artifacts))
  {
    ghost var c := CorpusOf(Elements(records), Elements(overlay), rules);
    var excluded, ruled := ReadOverlay(overlay);
    var episodes, decisions := SplitRecords(records, excluded);
    assert Elements(episodes) == c.episodes && Elements(decisions) == c.decisions && ruled == c.ruled;
    assert forall e :: e in episodes <==> e in Elements(episodes);
    var ok := KnownVerdicts(episodes);
    if !ok {
      return None;
    }
    var built := BuildAll(episodes, decisions, ruled, c, rules, le);
    var artifacts := InOrder(built, c, le);
    return Some(Layer(|records|, |overlay|, rules.version, artifacts));
  }
}
