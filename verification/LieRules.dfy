/** What the distillery must compile: a layer of artifacts, defined one identity at a
    time from the set of admitted experience, the rulings and the ruleset. Identities are
    kept structured where the program joins strings and digests. */
module LieRules {
  import opened Orders
  import opened Wrappers

  datatype Verdict = Passed | NotPassed | UnknownVerdict

  /** The approach as its canonical form; steps is present when it names a well-formed
      ordered step sequence. */
  datatype Approach = Approach(canonical: string, steps: Option<seq<string>>)

  datatype Episode = Episode(
    id: string, project: string, facets: seq<string>, verdict: Verdict, approach: Approach, measured: bool, attestation: string)
  datatype Decision = Decision(id: string, project: string, facets: seq<string>, attestation: string)

  datatype Rec = EpisodeRec(episode: Episode) | DecisionRec(decision: Decision)

  function RecId(r: Rec): string {
    match r
    case EpisodeRec(e) => e.id
    case DecisionRec(d) => d.id
  }

  /** A situation signature: the facets of a record, unordered and unrepeated. */
  type Signature = set<string>

  function FacetSet(facets: seq<string>): Signature {
    set f | f in facets
  }

  function SignatureOf(e: Episode): Signature {
    FacetSet(e.facets)
  }

  datatype Polarity = Positive | Negative

  datatype Id =
    | LessonId(facets: Signature, polarity: Polarity)
    | PatternId(facets: Signature, approach: Approach)
    | AntiId(facets: Signature, approach: Approach)
    | RecipeId(facets: Signature, steps: seq<string>)
    | DossierId(project: string)
    | PackId(name: string)
    | RecordId(record: string)

  datatype RulingKind = Deprecation | Supersession | ContradictionResolution
  datatype Ruling = Ruling(kind: RulingKind, targets: set<Id>)

  /** Thresholds are positive. */
  datatype Ruleset = Ruleset(version: nat, patternMin: nat, recipeMin: nat, corroboratedMin: nat, establishedMin: nat,
                             packScopes: map<string, Signature>)

  predicate RulesetOk(r: Ruleset) {
    r.patternMin >= 1 && r.recipeMin >= 1 && r.corroboratedMin >= 1 && r.establishedMin >= 1
  }

  /** What derivation sees: admitted and not excluded experience, and what was ruled against. */
  datatype Corpus = Corpus(episodes: set<Episode>, decisions: set<Decision>, ruled: set<Id>, rules: Ruleset)

  // -- evidence ----------------------------------------------------------------------------

  function LessonKey(e: Episode): Option<Id> {
    match e.verdict
    case Passed => Some(LessonId(SignatureOf(e), Positive))
    case NotPassed => Some(LessonId(SignatureOf(e), Negative))
    case UnknownVerdict => None
  }

  function PatternKey(e: Episode): Option<Id> {
    if e.verdict == Passed then Some(PatternId(SignatureOf(e), e.approach)) else None
  }

  function AntiKey(e: Episode): Option<Id> {
    if e.verdict == NotPassed then Some(AntiId(SignatureOf(e), e.approach)) else None
  }

  function RecipeKey(e: Episode): Option<Id> {
    if e.verdict == Passed && e.approach.steps.Some? then Some(RecipeId(SignatureOf(e), e.approach.steps.value)) else None
  }

  function DossierKey(e: Episode): Option<Id> {
    Some(DossierId(e.project))
  }

  /** The artifact of its kind, if any, that an episode is evidence for. */
  function KeyFor(e: Episode, id: Id): Option<Id> {
    match id
    case LessonId(_, _) => LessonKey(e)
    case PatternId(_, _) => PatternKey(e)
    case AntiId(_, _) => AntiKey(e)
    case RecipeId(_, _) => RecipeKey(e)
    case DossierId(_) => DossierKey(e)
    case PackId(_) => None
    case RecordId(_) => None
  }

  /** The evidence set of an artifact derived directly from episodes. */
  function Evidence(episodes: set<Episode>, id: Id): set<Episode> {
    set e | e in episodes && KeyFor(e, id) == Some(id)
  }

  function Threshold(rules: Ruleset, id: Id): nat {
    match id
    case PatternId(_, _) => rules.patternMin
    case AntiId(_, _) => rules.patternMin
    case RecipeId(_, _) => rules.recipeMin
    case _ => 1
  }

  /** Enough evidence, and not ruled against. */
  predicate Derived(c: Corpus, id: Id) {
    && !id.PackId? && !id.RecordId?
    && |Evidence(c.episodes, id)| >= Threshold(c.rules, id) && id !in c.ruled
  }

  predicate Core(id: Id) {
    id.LessonId? || id.PatternId? || id.AntiId? || id.RecipeId?
  }

  function KeysOf(e: Episode): set<Id> {
    (if LessonKey(e).Some? then {LessonKey(e).value} else {}) + (if PatternKey(e).Some? then {PatternKey(e).value} else {})
    + (if AntiKey(e).Some? then {AntiKey(e).value} else {}) + (if RecipeKey(e).Some? then {RecipeKey(e).value} else {})
    + {DossierId(e.project)}
  }

  /** Every derived identity; finite because each has an episode to show for itself. */
  function DerivedIds(c: Corpus): set<Id> {
    set e, id | e in c.episodes && id in KeysOf(e) && Derived(c, id) :: id
  }

  lemma DerivedIdsExact(c: Corpus, id: Id)
    requires RulesetOk(c.rules)
    ensures id in DerivedIds(c) <==> Derived(c, id)
  {
    if Derived(c, id) {
      var group := Evidence(c.episodes, id);
      assert |group| >= 1;
      var e :| e in group;
      assert id in KeysOf(e);
    }
  }

  // -- maturity ------------------------------------------------------------------------------

  datatype Maturity = Provisional | Corroborated | Established

  function MaturityRank(m: Maturity): nat {
    match m
    case Provisional => 0
    case Corroborated => 1
    case Established => 2
  }

  function Projects(group: set<Episode>): set<string> {
    set e | e in group :: e.project
  }

  function Grade(group: set<Episode>, rules: Ruleset): Maturity {
    if |Projects(group)| >= rules.establishedMin then Established
    else if |group| >= rules.corroboratedMin then Corroborated
    else Provisional
  }

  // -- links ---------------------------------------------------------------------------------

  /** Both valences of one signature and approach are derived. */
  predicate Contested(c: Corpus, facets: Signature, approach: Approach) {
    Derived(c, PatternId(facets, approach)) && Derived(c, AntiId(facets, approach))
  }

  type Order = (Id, Id) -> bool

  function OtherPatterns(c: Corpus, facets: Signature, approach: Approach): set<Id> {
    set id | id in DerivedIds(c) && id.PatternId? && id.facets == facets && id.approach != approach
  }

  function RecipesFor(c: Corpus, facets: Signature): set<Id> {
    set id | id in DerivedIds(c) && id.RecipeId? && id.facets == facets
  }

  predicate Least(id: Id, ids: set<Id>, le: Order) {
    id in ids && forall other {:trigger other in ids} :: other in ids ==> le(id, other)
  }

  /** Some success in this situation took another approach. */
  predicate OtherApproach(episodes: set<Episode>, facets: Signature, approach: Approach) {
    exists e :: e in Evidence(episodes, LessonId(facets, Positive)) && e.approach != approach
  }

  /** What to do instead: another pattern, else a recipe, else the positive lesson when it
      rests on another approach. */
  ghost predicate Instead(c: Corpus, le: Order, facets: Signature, approach: Approach, target: Option<Id>) {
    var patterns, recipes, lesson := OtherPatterns(c, facets, approach), RecipesFor(c, facets), LessonId(facets, Positive);
    if patterns != {} then target.Some? && Least(target.value, patterns, le)
    else if recipes != {} then target.Some? && Least(target.value, recipes, le)
    else if Derived(c, lesson) && OtherApproach(c.episodes, facets, approach) then target == Some(lesson)
    else target == None
  }

  // -- dossiers and packs -----------------------------------------------------------------------

  /** The facets of everything a project recorded. */
  function ProjectFacets(c: Corpus, project: string): Signature {
    (set e, f | e in c.episodes && e.project == project && f in e.facets :: f)
    + (set d, f | d in c.decisions && d.project == project && f in d.facets :: f)
  }

  /** The other projects it resembles, and the facets it resembles them in. */
  function Resemblances(c: Corpus, project: string): map<string, Signature> {
    map other | other in Projects(c.episodes) && other != project && ProjectFacets(c, project) * ProjectFacets(c, other) != {}
      :: ProjectFacets(c, project) * ProjectFacets(c, other)
  }

  function EpisodeIds(group: set<Episode>): set<string> {
    set e | e in group :: e.id
  }

  /** The lessons at least one of the project's episodes is evidence for. */
  function LessonsOf(c: Corpus, project: string): set<Id> {
    set id | id in DerivedIds(c) && id.LessonId? && Evidence(c.episodes, id) * Evidence(c.episodes, DossierId(project)) != {}
  }

  function Measured(c: Corpus, scope: Signature): set<Episode> {
    set e | e in c.episodes && e.measured && SignatureOf(e) <= scope
  }

  function CoreInScope(c: Corpus, scope: Signature): set<Id> {
    set id | id in DerivedIds(c) && Core(id) && id.facets <= scope
  }

  function PackMembers(c: Corpus, scope: Signature): set<Id> {
    CoreInScope(c, scope) + set e | e in Measured(c, scope) :: RecordId(e.id)
  }

  function PackEvidence(c: Corpus, scope: Signature): set<Episode> {
    (set id, e | id in CoreInScope(c, scope) && e in Evidence(c.episodes, id) :: e) + Measured(c, scope)
  }

  predicate Packed(c: Corpus, name: string) {
    name in c.rules.packScopes && PackId(name) !in c.ruled && PackMembers(c, c.rules.packScopes[name]) != {}
  }

  // -- artifacts ----------------------------------------------------------------------------------

  datatype Body =
    | Lesson(count: nat)
    | Pattern(contested: bool)
    | AntiPattern(contested: bool, count: nat, insteadOf: Option<Id>)
    | Recipe
    | Dossier(decisions: set<string>, lessons: set<Id>, resemblances: map<string, Signature>)
    | Pack(members: set<Id>)

  /** Sets stand for the program's sorted tuples. */
  datatype Artifact = Artifact(id: Id, facets: Signature, evidence: set<string>, projects: set<string>, maturity: Maturity, body: Body)

  function GroupOf(c: Corpus, id: Id): set<Episode> {
    if id.PackId? then (if id.name in c.rules.packScopes then PackEvidence(c, c.rules.packScopes[id.name]) else {})
    else Evidence(c.episodes, id)
  }

  function FacetsFor(c: Corpus, id: Id): Signature {
    match id
    case DossierId(project) => ProjectFacets(c, project)
    case PackId(name) => if name in c.rules.packScopes then c.rules.packScopes[name] else {}
    case RecordId(_) => {}
    case LessonId(facets, _) => facets
    case PatternId(facets, _) => facets
    case AntiId(facets, _) => facets
    case RecipeId(facets, _) => facets
  }

  function DecisionIds(c: Corpus, project: string): set<string> {
    set d | d in c.decisions && d.project == project :: d.id
  }

  ghost predicate BodyOf(c: Corpus, le: Order, id: Id, body: Body) {
    match id
    case LessonId(_, _) => body == Lesson(|Evidence(c.episodes, id)|)
    case PatternId(facets, approach) => body == Pattern(Contested(c, facets, approach))
    case AntiId(facets, approach) =>
      && body.AntiPattern? && body.contested == Contested(c, facets, approach) && body.count == |Evidence(c.episodes, id)|
      && Instead(c, le, facets, approach, body.insteadOf)
    case RecipeId(_, _) => body == Recipe
    case DossierId(project) => body == Dossier(DecisionIds(c, project), LessonsOf(c, project), Resemblances(c, project))
    case PackId(name) => name in c.rules.packScopes && body == Pack(PackMembers(c, c.rules.packScopes[name]))
    case RecordId(_) => false
  }

  /** The artifact of an identity. */
  ghost predicate ArtifactOf(c: Corpus, le: Order, id: Id, a: Artifact) {
    var group := GroupOf(c, id);
    && a.id == id && a.facets == FacetsFor(c, id) && a.evidence == EpisodeIds(group) && a.projects == Projects(group)
    && a.maturity == Grade(group, c.rules) && BodyOf(c, le, id, a.body)
  }

  /** The identities of the layer. */
  predicate InLayer(c: Corpus, id: Id) {
    Derived(c, id) || (id.PackId? && Packed(c, id.name))
  }

  ghost predicate Has(layer: seq<Artifact>, id: Id) {
    exists j :: 0 <= j < |layer| && layer[j].id == id
  }

  /** The compiled layer: exactly the identities that belong, each once, in order, each
      with its own artifact. */
  ghost predicate LayerOf(c: Corpus, le: Order, artifacts: seq<Artifact>) {
    && (forall id :: InLayer(c, id) <==> Has(artifacts, id))
    && (forall i, j :: 0 <= i < j < |artifacts| ==> artifacts[i].id != artifacts[j].id && le(artifacts[i].id, artifacts[j].id))
    && (forall i :: 0 <= i < |artifacts| ==> ArtifactOf(c, le, artifacts[i].id, artifacts[i]))
  }

  // -- from ledger and overlay to corpus -----------------------------------------------------------

  /** Records taken out of fresh evidence. */
  function Excluded(overlay: set<Ruling>): set<Id> {
    set r, t | r in overlay && r.kind != ContradictionResolution && t in r.targets :: t
  }

  function RuledAgainst(overlay: set<Ruling>): set<Id> {
    set r, t | r in overlay && r.kind == ContradictionResolution && t in r.targets :: t
  }

  function CorpusOf(records: set<Rec>, overlay: set<Ruling>, rules: Ruleset): Corpus {
    Corpus(set r | r in records && r.EpisodeRec? && RecordId(RecId(r)) !in Excluded(overlay) :: r.episode,
           set r | r in records && r.DecisionRec? && RecordId(RecId(r)) !in Excluded(overlay) :: r.decision,
           RuledAgainst(overlay), rules)
  }

  predicate VerdictsKnown(c: Corpus) {
    forall e :: e in c.episodes ==> e.verdict != UnknownVerdict
  }
}
