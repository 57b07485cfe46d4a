/** Candidates, fitted items and the closed list of sections. */
module CmTypes {
  import opened Wrappers

  datatype Section =
    | Symbols | Files | DependencyGraph | Knowledge | Experience
    | UnknownSection(name: string)

  const SECTIONS := [Symbols, Files, DependencyGraph, Knowledge, Experience]

  /** A section of the closed list. */
  predicate Known(s: Section) {
    !s.UnknownSection?
  }

  lemma KnownListed(s: Section)
    ensures s in SECTIONS <==> Known(s)
  {
    if Known(s) {
      assert SECTIONS[0] == Symbols && SECTIONS[1] == Files && SECTIONS[2] == DependencyGraph
             && SECTIONS[3] == Knowledge && SECTIONS[4] == Experience;
    }
  }

  /** A number for every section. */
  type Accounts = map<Section, int>

  predicate Complete(m: Accounts) {
    Symbols in m && Files in m && DependencyGraph in m && Knowledge in m && Experience in m
  }

  function Total(m: Accounts): int
    requires Complete(m)
  {
    m[Symbols] + m[Files] + m[DependencyGraph] + m[Knowledge] + m[Experience]
  }

  function SectionName(s: Section): string {
    match s
    case Symbols => "symbols"
    case Files => "files"
    case DependencyGraph => "dependency_graph"
    case Knowledge => "knowledge"
    case Experience => "experience"
    case UnknownSection(name) => name
  }

  datatype Tier = Full | SectionTier | Reference

  /** Content at one fidelity; None is content that is not text and costs nothing. */
  type Text = Option<string>

  /** All tiers (a tier may be missing), or content fitted upstream to a single text. */
  datatype Content =
    | Tiers(full: Option<Text>, section: Option<Text>, reference: Option<Text>)
    | Single(text: Text)

  datatype Candidate = Candidate(
    id: string, section: Section, content: Content, score: Option<real>,
    hasStale: bool, provenance: map<string, string>, contradiction: bool)

  /** An id, possibly made unique by a digest of the chosen content. */
  datatype ItemId = Plain(id: string) | Suffixed(original: string, content: Text)

  datatype Item = Item(
    id: ItemId, section: Section, fidelity: Tier, content: Text, score: Option<real>,
    hasStale: bool, provenance: map<string, string>, contradiction: bool, originalId: Option<string>)

  /** Relative weights of the sections; absent sections weigh nothing. */
  type Weights = map<Section, real>

  function WeightOf(weights: Weights, s: Section): real {
    if s in weights then weights[s] else 0.0
  }

  /** config_view.validate: no negative weight. */
  predicate WeightsValid(weights: Weights) {
    forall s :: s in weights ==> weights[s] >= 0.0
  }

  /** A score compares as itself; a missing one sorts below every number. */
  predicate ScoreLe(a: Option<real>, b: Option<real>) {
    a.None? || (b.Some? && a.value <= b.value)
  }
}
