/** The descriptor space as content and admission rules: what each mutation does to the
    content or why it is refused, what every reachable content satisfies, and how later
    versions relate to earlier ones. */
module RoSpaceRules {
  import opened CycleDetection
  import opened Orders
  import opened Wrappers

  datatype Lifecycle = Proposed | Active | Deprecated | Retired

  function Rank(l: Lifecycle): nat {
    match l
    case Proposed => 0
    case Active => 1
    case Deprecated => 2
    case Retired => 3
  }

  datatype Category = Interpretive | Analytic | Generative | Deliberative | Inferential
  datatype Rung = C0 | C1 | C2 | C3 | C4
  datatype RelationKind = Composition | Specialization | Dependency

  datatype Capability = Capability(id: string, category: Category, details: string, lifecycle: Lifecycle)
  datatype Relationship = Relationship(kind: RelationKind, src: string, dst: string)
  datatype Row = Row(providerId: string, claims: map<string, set<Rung>>, details: string)

  datatype Content = Content(capabilities: map<string, Capability>, relationships: seq<Relationship>, rows: map<string, Row>)

  const EMPTY := Content(map[], [], map[])

  datatype Mutation =
    | AddCapability(capability: Capability)
    | UpdateCapability(capability: Capability)
    | TransitionCapability(id: string, to: Option<Lifecycle>)
    | AddRelationship(relationship: Relationship)
    | RemoveRelationship(relationship: Relationship)
    | AddRow(row: Row)
    | UpdateRow(row: Row)
    | RemoveRow(providerId: string)
    | UnknownKind

  datatype Refusal =
    | UnknownMutation | TombstoneReuse | DuplicateId | NotFound | LifecycleTransition | CategoryFrozen
    | RelationshipEndpoint | DependencyCycle | DescriptorClaim | ClaimedRetirement

  // -- the handlers ---------------------------------------------------------------------

  function AddedCapability(c: Content, record: Capability): Result<Content, Refusal> {
    if record.id in c.capabilities then
      Err(if c.capabilities[record.id].lifecycle == Retired then TombstoneReuse else DuplicateId)
    else Ok(c.(capabilities := c.capabilities[record.id := record]))
  }

  function UpdatedCapability(c: Content, record: Capability): Result<Content, Refusal> {
    if record.id !in c.capabilities then Err(NotFound)
    else if c.capabilities[record.id].lifecycle == Retired then Err(TombstoneReuse)
    else if record.category != c.capabilities[record.id].category then Err(CategoryFrozen)
    else if record.lifecycle != c.capabilities[record.id].lifecycle then Err(LifecycleTransition)
    else Ok(c.(capabilities := c.capabilities[record.id := record]))
  }

  predicate Claimed(rows: map<string, Row>, id: string) {
    exists p :: p in rows && id in rows[p].claims
  }

  function Transitioned(c: Content, id: string, to: Option<Lifecycle>): Result<Content, Refusal> {
    if id !in c.capabilities then Err(NotFound)
    else if to.None? || Rank(to.value) <= Rank(c.capabilities[id].lifecycle) then Err(LifecycleTransition)
    else if to.value == Retired && Claimed(c.rows, id) then Err(ClaimedRetirement)
    else Ok(c.(capabilities := c.capabilities[id := c.capabilities[id].(lifecycle := to.value)]))
  }

  /** The dependency edges, in the order they were added. */
  function DependencyEdges(rs: seq<Relationship>): seq<(string, string)> {
    if rs == [] then []
    else DependencyEdges(rs[..|rs| - 1])
         + if rs[|rs| - 1].kind == Dependency then [(rs[|rs| - 1].src, rs[|rs| - 1].dst)] else []
  }

  /** The dependency graph. */
  function Dependencies(c: Content): Edges<string> {
    Elements(DependencyEdges(c.relationships))
  }

  ghost function AddedRelationship(c: Content, r: Relationship): Result<Content, Refusal> {
    if r.src !in c.capabilities || r.dst !in c.capabilities then Err(RelationshipEndpoint)
    else if r in c.relationships then Err(DuplicateId)
    else if r.kind == Dependency && Cyclic(Dependencies(c) + {(r.src, r.dst)}) then Err(DependencyCycle)
    else Ok(c.(relationships := c.relationships + [r]))
  }

  function RemoveFirst<T(==)>(s: seq<T>, x: T): seq<T> {
    if s == [] then [] else if s[0] == x then s[1..] else [s[0]] + RemoveFirst(s[1..], x)
  }

  function RemovedRelationship(c: Content, r: Relationship): Result<Content, Refusal> {
    if r !in c.relationships then Err(NotFound) else Ok(c.(relationships := RemoveFirst(c.relationships, r)))
  }

  predicate Matchable(capabilities: map<string, Capability>, id: string) {
    id in capabilities && (capabilities[id].lifecycle == Active || capabilities[id].lifecycle == Deprecated)
  }

  predicate ClaimsHold(capabilities: map<string, Capability>, row: Row) {
    forall id :: id in row.claims ==> Matchable(capabilities, id)
  }

  function AddedRow(c: Content, row: Row): Result<Content, Refusal> {
    if row.providerId in c.rows then Err(DuplicateId)
    else if !ClaimsHold(c.capabilities, row) then Err(DescriptorClaim)
    else Ok(c.(rows := c.rows[row.providerId := row]))
  }

  function UpdatedRow(c: Content, row: Row): Result<Content, Refusal> {
    if row.providerId !in c.rows then Err(NotFound)
    else if !ClaimsHold(c.capabilities, row) then Err(DescriptorClaim)
    else Ok(c.(rows := c.rows[row.providerId := row]))
  }

  function RemovedRow(c: Content, providerId: string): Result<Content, Refusal> {
    if providerId !in c.rows then Err(NotFound) else Ok(c.(rows := c.rows - {providerId}))
  }

  /** The next content, or the refusal. */
  ghost function Admit(c: Content, m: Mutation): Result<Content, Refusal> {
    match m
    case AddCapability(record) => AddedCapability(c, record)
    case UpdateCapability(record) => UpdatedCapability(c, record)
    case TransitionCapability(id, to) => Transitioned(c, id, to)
    case AddRelationship(r) => AddedRelationship(c, r)
    case RemoveRelationship(r) => RemovedRelationship(c, r)
    case AddRow(row) => AddedRow(c, row)
    case UpdateRow(row) => UpdatedRow(c, row)
    case RemoveRow(providerId) => RemovedRow(c, providerId)
    case UnknownKind => Err(UnknownMutation)
  }

  /** A run of mutations; a refused one changes nothing. */
  ghost function RunFrom(c: Content, ms: seq<Mutation>): Content
    decreases |ms|
  {
    if ms == [] then c
    else
      var next := Admit(c, ms[0]);
      RunFrom(if next.Ok? then next.value else c, ms[1..])
  }

  // -- what every reachable content satisfies -----------------------------------------------

  ghost predicate EndpointsExist(c: Content) {
    forall r :: r in c.relationships ==> r.src in c.capabilities && r.dst in c.capabilities
  }

  ghost predicate AllClaimsHold(c: Content) {
    forall p :: p in c.rows ==> ClaimsHold(c.capabilities, c.rows[p])
  }

  ghost predicate KeyedById(c: Content) {
    && (forall id :: id in c.capabilities ==> c.capabilities[id].id == id)
    && (forall p :: p in c.rows ==> c.rows[p].providerId == p)
  }

  ghost predicate SpaceOk(c: Content) {
    KeyedById(c) && EndpointsExist(c) && AllClaimsHold(c) && Distinct(c.relationships) && !Cyclic(Dependencies(c))
  }

  /** From one version to a later one: no capability vanishes or changes category, none
      moves back in its lifecycle, and a retired record never changes again. */
  ghost predicate Evolves(before: Content, after: Content) {
    forall id :: id in before.capabilities ==>
      && id in after.capabilities
      && after.capabilities[id].category == before.capabilities[id].category
      && Rank(before.capabilities[id].lifecycle) <= Rank(after.capabilities[id].lifecycle)
      && (before.capabilities[id].lifecycle == Retired ==> after.capabilities[id] == before.capabilities[id])
  }

  lemma EvolvesTransitive(a: Content, b: Content, c: Content)
    requires Evolves(a, b) && Evolves(b, c)
    ensures Evolves(a, c)
  {
    forall id | id in a.capabilities
      ensures id in c.capabilities && c.capabilities[id].category == a.capabilities[id].category
    {
      assert id in b.capabilities;
    }
  }

  // -- dependencies -----------------------------------------------------------------------------

  lemma {:induction false} EdgeMembers(rs: seq<Relationship>, src: string, dst: string)
    ensures (src, dst) in DependencyEdges(rs) <==> Relationship(Dependency, src, dst) in rs
  {
    if rs != [] {
      EdgeMembers(rs[..|rs| - 1], src, dst);
      assert rs == rs[..|rs| - 1] + [rs[|rs| - 1]];
    }
  }

  lemma DependencyIffListed(c: Content)
    ensures forall src, dst :: (src, dst) in Dependencies(c) <==> Relationship(Dependency, src, dst) in c.relationships
  {
    forall src, dst ensures (src, dst) in Dependencies(c) <==> Relationship(Dependency, src, dst) in c.relationships {
      EdgeMembers(c.relationships, src, dst);
    }
  }

  lemma OneMoreEdge(rs: seq<Relationship>, r: Relationship)
    ensures DependencyEdges(rs + [r]) == DependencyEdges(rs) + if r.kind == Dependency then [(r.src, r.dst)] else []
  {
    assert (rs + [r])[..|rs|] == rs;
  }

  lemma {:induction false} RemoveFirstMembers<T>(s: seq<T>, x: T)
    requires Distinct(s)
    ensures Distinct(RemoveFirst(s, x))
    ensures forall y :: y in RemoveFirst(s, x) <==> y in s && y != x
  {
    if s != [] && s[0] != x {
      RemoveFirstMembers(s[1..], x);
      assert s == [s[0]] + s[1..];
      assert s[0] !in s[1..];
      assert s[0] !in RemoveFirst(s[1..], x);
    } else if s != [] {
      assert s == [s[0]] + s[1..];
    }
  }

  // -- every admitted mutation keeps the invariant -----------------------------------------------

  lemma CapabilityRecorded(c: Content, record: Capability)
    requires SpaceOk(c)
    requires record.id in c.capabilities ==>
               && c.capabilities[record.id].lifecycle != Retired && c.capabilities[record.id].category == record.category
               && Rank(c.capabilities[record.id].lifecycle) <= Rank(record.lifecycle)
               && (record.lifecycle == Retired ==> !Claimed(c.rows, record.id))
    ensures var next := c.(capabilities := c.capabilities[record.id := record]);
            SpaceOk(next) && Evolves(c, next)
  {
    var next := c.(capabilities := c.capabilities[record.id := record]);
    forall p, id | p in c.rows && id in c.rows[p].claims ensures Matchable(next.capabilities, id) {
      assert ClaimsHold(c.capabilities, c.rows[p]);
      assert Matchable(c.capabilities, id);
      if id == record.id {
        assert Claimed(c.rows, id);
      }
    }
  }

  lemma RelationshipsReplaced(c: Content, rs: seq<Relationship>)
    requires SpaceOk(c) && Distinct(rs)
    requires forall r :: r in rs ==> r.src in c.capabilities && r.dst in c.capabilities
    requires !Cyclic(Elements(DependencyEdges(rs)))
    ensures SpaceOk(c.(relationships := rs))
  {
  }

  lemma RelationshipAdded(c: Content, r: Relationship)
    requires SpaceOk(c) && AddedRelationship(c, r).Ok?
    ensures SpaceOk(AddedRelationship(c, r).value)
  {
    var rs := c.relationships + [r];
    OneMoreEdge(c.relationships, r);
    assert Elements(DependencyEdges(rs)) == Dependencies(c) + if r.kind == Dependency then {(r.src, r.dst)} else {};
    assert r.kind != Dependency ==> Dependencies(c) + {} == Dependencies(c);
    RelationshipsReplaced(c, rs);
  }

  lemma RelationshipRemoved(c: Content, r: Relationship)
    requires SpaceOk(c) && r in c.relationships
    ensures SpaceOk(RemovedRelationship(c, r).value)
  {
    var rs := RemoveFirst(c.relationships, r);
    RemoveFirstMembers(c.relationships, r);
    DependencyIffListed(c);
    forall e | e in Elements(DependencyEdges(rs)) ensures e in Dependencies(c) {
      var (src, dst) := e;
      EdgeMembers(rs, src, dst);
    }
    FewerEdges(Elements(DependencyEdges(rs)), Dependencies(c));
    RelationshipsReplaced(c, rs);
  }

  /** Whatever is admitted keeps the space in order and only moves it forward. */
  lemma AdmitKeeps(c: Content, m: Mutation)
    requires SpaceOk(c) && Admit(c, m).Ok?
    ensures SpaceOk(Admit(c, m).value) && Evolves(c, Admit(c, m).value)
  {
    match m
    case AddCapability(record) => CapabilityRecorded(c, record);
    case UpdateCapability(record) => CapabilityRecorded(c, record);
    case TransitionCapability(id, to) => CapabilityRecorded(c, c.capabilities[id].(lifecycle := to.value));
    case AddRelationship(r) => RelationshipAdded(c, r);
    case RemoveRelationship(r) => RelationshipRemoved(c, r);
    case AddRow(row) =>
    case UpdateRow(row) =>
    case RemoveRow(providerId) =>
  }

  lemma EmptyOk()
    ensures SpaceOk(EMPTY)
  {
    forall p ensures !IsCycle(Dependencies(EMPTY), p) {
      if |p| >= 2 {
        assert !Linked(Dependencies(EMPTY), p, 0);
      }
    }
  }

  /** Over any run the space stays in order and only moves forward. */
  lemma {:induction false} RunKeeps(c: Content, ms: seq<Mutation>)
    requires SpaceOk(c)
    ensures SpaceOk(RunFrom(c, ms)) && Evolves(c, RunFrom(c, ms))
    decreases |ms|
  {
    if ms != [] {
      var next := Admit(c, ms[0]);
      if next.Ok? {
        AdmitKeeps(c, ms[0]);
        RunKeeps(next.value, ms[1..]);
        EvolvesTransitive(c, next.value, RunFrom(next.value, ms[1..]));
      } else {
        RunKeeps(c, ms[1..]);
      }
    }
  }

  /** A permanent refusal is permanent: an id refused as a tombstone is refused as one
      after any further run. */
  lemma TombstonesArePermanent(c: Content, ms: seq<Mutation>, record: Capability)
    requires SpaceOk(c) && AddedCapability(c, record) == Err(TombstoneReuse)
    ensures AddedCapability(RunFrom(c, ms), record) == Err(TombstoneReuse)
  {
    RunKeeps(c, ms);
  }

  /** A dependency is refused for its cycle exactly when its target already depends,
      directly or not, on its source. */
  lemma DependencyRefusedExactly(c: Content, src: string, dst: string)
    requires SpaceOk(c) && src in c.capabilities && dst in c.capabilities
    requires Relationship(Dependency, src, dst) !in c.relationships
    ensures Admit(c, AddRelationship(Relationship(Dependency, src, dst))) == Err(DependencyCycle)
            <==> Leads(Dependencies(c), dst, src)
  {
    EdgeClosesCycle(Dependencies(c), src, dst);
  }
}
