/** Dependency expansion: a bounded breadth-first walk over edges the caller hands in. */
module CmResolver {
  import opened Orders
  import opened Wrappers

  // -- inputs and outputs -----------------------------------------------------------

  datatype DepRecord = Edge(src: string, dst: string) | Malformed

  type Edges = set<(string, string)>

  /** A discovered dependency node and the depth it was found at. */
  datatype Stub = Stub(id: string, depth: nat)

  datatype Trace = Trace(depthCap: nat, frontiers: seq<seq<string>>, visited: seq<string>)

  datatype ResolverError = MalformedRecord | BadDepthCap

  predicate WellFormedRecord(r: DepRecord) {
    r.Edge? && r.src != "" && r.dst != ""
  }

  ghost function EdgeSet(records: seq<DepRecord>): Edges {
    set r | r in records && r.Edge? :: (r.src, r.dst)
  }

  // -- reachability --------------------------------------------------------------------

  predicate Hop(edges: Edges, p: seq<string>, i: nat)
    requires i < |p| - 1
  {
    (p[i], p[i + 1]) in edges
  }

  /** A walk along edges. */
  ghost predicate Walk(edges: Edges, p: seq<string>) {
    p != [] && forall i :: 0 <= i < |p| - 1 ==> Hop(edges, p, i)
  }

  lemma WalkOn(edges: Edges, p: seq<string>, node: string)
    requires Walk(edges, p) && (p[|p| - 1], node) in edges
    ensures Walk(edges, p + [node])
  {
    var q := p + [node];
    forall i | 0 <= i < |q| - 1 ensures Hop(edges, q, i) {
      if i < |p| - 1 {
        assert Hop(edges, p, i);
      }
    }
  }

  lemma WalkBack(edges: Edges, p: seq<string>)
    requires Walk(edges, p) && |p| >= 2
    ensures Walk(edges, p[..|p| - 1]) && (p[|p| - 2], p[|p| - 1]) in edges
  {
    var q := p[..|p| - 1];
    forall i | 0 <= i < |q| - 1 ensures Hop(edges, q, i) {
      assert Hop(edges, p, i);
    }
    assert Hop(edges, p, |p| - 2);
  }

  ghost predicate WalkTo(seeds: set<string>, edges: Edges, p: seq<string>, node: string, hops: int) {
    Walk(edges, p) && p[0] in seeds && p[|p| - 1] == node && |p| - 1 <= hops
  }

  /** `node` can be reached from a seed in at most `hops` hops. */
  ghost predicate Within(seeds: set<string>, edges: Edges, node: string, hops: int) {
    exists p :: WalkTo(seeds, edges, p, node, hops)
  }

  /** The shortest hop distance from the seeds is exactly d. */
  ghost predicate Distance(seeds: set<string>, edges: Edges, node: string, d: nat) {
    Within(seeds, edges, node, d) && !Within(seeds, edges, node, d - 1)
  }

  function Successors(nodes: set<string>, edges: Edges): set<string> {
    set e | e in edges && e.0 in nodes :: e.1
  }

  function Reach(seeds: set<string>, edges: Edges, k: nat): set<string> {
    if k == 0 then seeds
    else Reach(seeds, edges, k - 1) + Successors(Reach(seeds, edges, k - 1), edges)
  }

  /** Nodes first reached at depth k. */
  function Level(seeds: set<string>, edges: Edges, k: nat): set<string> {
    if k == 0 then seeds else Reach(seeds, edges, k) - Reach(seeds, edges, k - 1)
  }

  lemma {:induction false} ReachHasWalk(seeds: set<string>, edges: Edges, node: string, k: nat) returns (p: seq<string>)
    requires node in Reach(seeds, edges, k)
    ensures WalkTo(seeds, edges, p, node, k)
    decreases k
  {
    if k == 0 {
      p := [node];
    } else if node in Reach(seeds, edges, k - 1) {
      p := ReachHasWalk(seeds, edges, node, k - 1);
    } else {
      var e :| e in edges && e.0 in Reach(seeds, edges, k - 1) && e.1 == node;
      p := ReachHasWalk(seeds, edges, e.0, k - 1);
      WalkOn(edges, p, node);
      p := p + [node];
    }
  }

  lemma {:induction false} WalkReaches(seeds: set<string>, edges: Edges, p: seq<string>, node: string, k: nat)
    requires WalkTo(seeds, edges, p, node, k)
    ensures node in Reach(seeds, edges, k)
    decreases k
  {
    if |p| - 1 < k {
      WalkReaches(seeds, edges, p, node, k - 1);
    } else if k > 0 {
      var q := p[..|p| - 1];
      WalkBack(edges, p);
      WalkReaches(seeds, edges, q, q[|q| - 1], k - 1);
      assert (q[|q| - 1], node) in edges;
    }
  }

  lemma ReachIsWithin(seeds: set<string>, edges: Edges, node: string, k: nat)
    ensures node in Reach(seeds, edges, k) <==> Within(seeds, edges, node, k)
  {
    if node in Reach(seeds, edges, k) {
      var p := ReachHasWalk(seeds, edges, node, k);
    }
    if p :| WalkTo(seeds, edges, p, node, k) {
      WalkReaches(seeds, edges, p, node, k);
    }
  }

  lemma LevelIsDistance(seeds: set<string>, edges: Edges, node: string, k: nat)
    ensures node in Level(seeds, edges, k) <==> Distance(seeds, edges, node, k)
  {
    ReachIsWithin(seeds, edges, node, k);
    if k > 0 {
      ReachIsWithin(seeds, edges, node, k - 1);
    }
  }

  /** A level is found from the one before it. */
  lemma NextLevel(seeds: set<string>, edges: Edges, k: nat)
    ensures Level(seeds, edges, k + 1) == Successors(Level(seeds, edges, k), edges) - Reach(seeds, edges, k)
  {
    if k > 0 {
      forall n | n in Successors(Reach(seeds, edges, k - 1), edges) ensures n in Reach(seeds, edges, k) {
      }
      assert Reach(seeds, edges, k) == Reach(seeds, edges, k - 1) + Level(seeds, edges, k);
    }
  }

  /** Edges lead nowhere new. */
  predicate Closed(nodes: set<string>, edges: Edges) {
    Successors(nodes, edges) <= nodes
  }

  lemma NothingNewCloses(before: set<string>, now: set<string>, edges: Edges)
    requires now == before + Successors(before, edges) && now - before == {}
    ensures Closed(now, edges)
  {
    forall x | x in now ensures x in before {
      assert x !in now - before;
    }
    assert now == before;
  }

  lemma EmptyLevelCloses(seeds: set<string>, edges: Edges, k: nat)
    requires Level(seeds, edges, k) == {}
    ensures Closed(Reach(seeds, edges, k), edges)
  {
    if k > 0 {
      NothingNewCloses(Reach(seeds, edges, k - 1), Reach(seeds, edges, k), edges);
    }
  }

  lemma {:induction false} ReachStops(seeds: set<string>, edges: Edges, k: nat, m: nat)
    requires k <= m && Closed(Reach(seeds, edges, k), edges)
    ensures Reach(seeds, edges, m) == Reach(seeds, edges, k)
    decreases m
  {
    if k < m {
      ReachStops(seeds, edges, k, m - 1);
    }
  }

  lemma LevelIsNew(seeds: set<string>, edges: Edges, m: nat)
    requires m > 0 && Reach(seeds, edges, m) == Reach(seeds, edges, m - 1)
    ensures Level(seeds, edges, m) == {}
  {
  }

  lemma NothingBeyond(seeds: set<string>, edges: Edges, k: nat, m: nat)
    requires k <= m && Level(seeds, edges, k) == {}
    ensures Level(seeds, edges, m) == {}
  {
    if k < m {
      EmptyLevelCloses(seeds, edges, k);
      ReachStops(seeds, edges, k, m - 1);
      ReachStops(seeds, edges, k, m);
      LevelIsNew(seeds, edges, m);
    }
  }

  // -- the expansion ----------------------------------------------------------------------

  function Stubs(ids: seq<string>, depth: nat): (stubs: seq<Stub>)
    ensures |stubs| == |ids|
    ensures forall i :: 0 <= i < |ids| ==> stubs[i] == Stub(ids[i], depth)
  {
    seq(|ids|, i requires 0 <= i < |ids| => Stub(ids[i], depth))
  }

  /** Layers 1 to n of f, one after the other. */
  ghost function Stacked(f: nat -> seq<Stub>, n: nat): seq<Stub> {
    if n == 0 then [] else Stacked(f, n - 1) + f(n)
  }

  /** The stubs of one level, sorted by id. */
  ghost function Layer(seeds: set<string>, edges: Edges, k: nat): seq<Stub> {
    Stubs(Listing(Level(seeds, edges, k)), k)
  }

  ghost function Layers(seeds: set<string>, edges: Edges): nat -> seq<Stub> {
    (k: nat) => Layer(seeds, edges, k)
  }

  /** Level by level, each sorted by id. */
  ghost function Expansion(seeds: set<string>, edges: Edges, cap: nat): seq<Stub> {
    Stacked(Layers(seeds, edges), cap)
  }

  lemma ListingEmpty(s: set<string>)
    ensures Listing(s) == [] <==> s == {}
  {
    if Listing(s) != [] {
      assert Listing(s)[0] in Elements(Listing(s));
    }
  }

  lemma {:induction false} StackedStops(f: nat -> seq<Stub>, k: nat, n: nat)
    requires k <= n && forall j: nat :: k < j <= n ==> f(j) == []
    ensures Stacked(f, k) == Stacked(f, n)
    decreases n
  {
    if k < n {
      StackedStops(f, k, n - 1);
    }
  }

  /** Layer j holds stubs of depth j only. */
  ghost predicate OwnDepth(f: nat -> seq<Stub>, j: nat) {
    forall x :: x in f(j) ==> x.depth == j
  }

  lemma {:induction false} StackedMembers(f: nat -> seq<Stub>, n: nat, s: Stub)
    requires forall j: nat :: OwnDepth(f, j)
    ensures s in Stacked(f, n) <==> 1 <= s.depth <= n && s in f(s.depth)
    decreases n
  {
    if n > 0 {
      StackedMembers(f, n - 1, s);
      assert OwnDepth(f, n);
    }
  }

  lemma NothingToAdd(seeds: set<string>, edges: Edges, k: nat, cap: nat)
    requires k <= cap && Level(seeds, edges, k) == {}
    ensures Expansion(seeds, edges, k) == Expansion(seeds, edges, cap)
  {
    forall j: nat | k < j <= cap ensures Layers(seeds, edges)(j) == [] {
      NothingBeyond(seeds, edges, k, j);
      ListingEmpty({});
    }
    StackedStops(Layers(seeds, edges), k, cap);
  }

  lemma LayerMembers(seeds: set<string>, edges: Edges, k: nat, s: Stub)
    ensures s in Layer(seeds, edges, k) <==> s.depth == k && s.id in Level(seeds, edges, k)
  {
    var ids := Listing(Level(seeds, edges, k));
    assert forall id :: id in ids <==> id in Elements(ids);
    if s.depth == k && s.id in ids {
      var i :| 0 <= i < |ids| && ids[i] == s.id;
      assert Stubs(ids, k)[i] == s;
    }
  }

  lemma ExpansionMembers(seeds: set<string>, edges: Edges, cap: nat, node: string, d: nat)
    ensures Stub(node, d) in Expansion(seeds, edges, cap) <==> 1 <= d <= cap && node in Level(seeds, edges, d)
  {
    forall j: nat ensures OwnDepth(Layers(seeds, edges), j) {
      forall x | x in Layers(seeds, edges)(j) ensures x.depth == j {
        LayerMembers(seeds, edges, j, x);
      }
    }
    StackedMembers(Layers(seeds, edges), cap, Stub(node, d));
    LayerMembers(seeds, edges, d, Stub(node, d));
  }

  /** The expansion is exact: it holds a node at depth d exactly when d is the node's
      shortest hop distance from the seeds and lies between 1 and the cap. */
  lemma ExpansionExact(seeds: set<string>, edges: Edges, cap: nat, node: string, d: nat)
    ensures Stub(node, d) in Expansion(seeds, edges, cap) <==> 1 <= d <= cap && Distance(seeds, edges, node, d)
  {
    ExpansionMembers(seeds, edges, cap, node, d);
    LevelIsDistance(seeds, edges, node, d);
  }

  /** Strictly increasing by depth, then id. */
  predicate StubBefore(a: Stub, b: Stub) {
    a.depth < b.depth || (a.depth == b.depth && a.id != b.id && StrLe(a.id, b.id))
  }

  ghost predicate InOrder(x: seq<Stub>, cap: nat) {
    && (forall i :: 0 <= i < |x| ==> 1 <= x[i].depth <= cap)
    && (forall i, j :: 0 <= i < j < |x| ==> StubBefore(x[i], x[j]))
  }

  lemma LevelInOrder(ids: seq<string>, depth: nat)
    requires Sorted(ids, StrLe) && Distinct(ids) && depth >= 1
    ensures InOrder(Stubs(ids, depth), depth)
  {
  }

  lemma InOrderAppend(a: seq<Stub>, b: seq<Stub>, cap: nat)
    requires cap > 0 && InOrder(a, cap - 1) && InOrder(b, cap) && forall i :: 0 <= i < |b| ==> b[i].depth == cap
    ensures InOrder(a + b, cap)
  {
  }

  ghost predicate LayerOk(f: nat -> seq<Stub>, j: nat) {
    InOrder(f(j), j) && OwnDepth(f, j)
  }

  lemma {:induction false} StackedOrdered(f: nat -> seq<Stub>, n: nat)
    requires forall j: nat :: j >= 1 ==> LayerOk(f, j)
    ensures InOrder(Stacked(f, n), n)
    decreases n
  {
    if n > 0 {
      StackedOrdered(f, n - 1);
      assert LayerOk(f, n);
      InOrderAppend(Stacked(f, n - 1), f(n), n);
    }
  }

  lemma ExpansionOrdered(seeds: set<string>, edges: Edges, cap: nat)
    ensures InOrder(Expansion(seeds, edges, cap), cap)
  {
    forall j: nat | j >= 1 ensures LayerOk(Layers(seeds, edges), j) {
      LevelInOrder(Listing(Level(seeds, edges, j)), j);
    }
    StackedOrdered(Layers(seeds, edges), cap);
  }

  lemma {:induction false} ReachGrows(seeds: set<string>, edges: Edges, k: nat, m: nat)
    requires k <= m
    ensures Reach(seeds, edges, k) <= Reach(seeds, edges, m)
    decreases m
  {
    if k < m {
      ReachGrows(seeds, edges, k, m - 1);
    }
  }

  /** A node has one level only, and a seed none above zero. */
  lemma OneLevel(seeds: set<string>, edges: Edges, node: string, d: nat, e: nat)
    requires 1 <= d <= e && node in Level(seeds, edges, d)
    ensures node !in seeds && (node in Level(seeds, edges, e) ==> d == e)
  {
    ReachGrows(seeds, edges, 0, d - 1);
    if d < e {
      ReachGrows(seeds, edges, d, e - 1);
    }
  }

  lemma ListedAt(seeds: set<string>, edges: Edges, cap: nat, i: nat)
    requires i < |Expansion(seeds, edges, cap)|
    ensures var s := Expansion(seeds, edges, cap)[i]; 1 <= s.depth && s.id in Level(seeds, edges, s.depth) && s.id !in seeds
  {
    var s := Expansion(seeds, edges, cap)[i];
    assert Stub(s.id, s.depth) == s;
    ExpansionMembers(seeds, edges, cap, s.id, s.depth);
    OneLevel(seeds, edges, s.id, s.depth, s.depth);
  }

  /** No node is listed twice, and no seed is listed at all. */
  lemma ExpansionOnce(seeds: set<string>, edges: Edges, cap: nat, i: nat, j: nat)
    requires i < j < |Expansion(seeds, edges, cap)|
    ensures Expansion(seeds, edges, cap)[i].id != Expansion(seeds, edges, cap)[j].id
    ensures Expansion(seeds, edges, cap)[i].id !in seeds && Expansion(seeds, edges, cap)[j].id !in seeds
  {
    ListedAt(seeds, edges, cap, i);
    ListedAt(seeds, edges, cap, j);
    ExpansionOrdered(seeds, edges, cap);
    var a, b := Expansion(seeds, edges, cap)[i], Expansion(seeds, edges, cap)[j];
    assert StubBefore(a, b);
    OneLevel(seeds, edges, a.id, a.depth, b.depth);
  }

  // -- expand as it runs ---------------------------------------------------------------------

  type Adjacency = map<string, set<string>>

  ghost predicate AdjacencyOf(adjacency: Adjacency, edges: Edges) {
    && (forall e :: e in edges ==> e.0 in adjacency && e.1 in adjacency[e.0])
    && (forall s, d :: s in adjacency && d in adjacency[s] ==> (s, d) in edges)
  }

  method BuildAdjacency(records: seq<DepRecord>) returns (r: Result<Adjacency, ResolverError>)
    ensures r.Ok? <==> forall i :: 0 <= i < |records| ==> WellFormedRecord(records[i])
    ensures r.Ok? ==> AdjacencyOf(r.value, EdgeSet(records))
    ensures r.Err? ==> r.error == MalformedRecord
  {
    var adjacency: Adjacency := map[];
    for i := 0 to |records|
      invariant forall j :: 0 <= j < i ==> WellFormedRecord(records[j])
      invariant AdjacencyOf(adjacency, EdgeSet(records[..i]))
    {
      var rec := records[i];
      if !WellFormedRecord(rec) {
        return Err(MalformedRecord);
      }
      assert records[..i + 1] == records[..i] + [rec];
      assert EdgeSet(records[..i + 1]) == EdgeSet(records[..i]) + {(rec.src, rec.dst)};
      adjacency := adjacency[rec.src := (if rec.src in adjacency then adjacency[rec.src] else {}) + {rec.dst}];
    }
    assert records[..|records|] == records;
    return Ok(adjacency);
  }

  /** One turn of the loop: what the frontier leads to that has not been visited. */
  method Advance(frontier: seq<string>, adjacency: Adjacency, visited: set<string>, ghost edges: Edges) returns (next: set<string>)
    requires AdjacencyOf(adjacency, edges)
    ensures next == Successors(Elements(frontier), edges) - visited
  {
    next := {};
    for i := 0 to |frontier|
      invariant next == Successors(Elements(frontier[..i]), edges) - visited
    {
      var node := frontier[i];
      var neighbours := if node in adjacency then adjacency[node] else {};
      assert forall d :: d in neighbours <==> (node, d) in edges;
      assert frontier[..i + 1] == frontier[..i] + [node];
      assert Elements(frontier[..i + 1]) == Elements(frontier[..i]) + {node};
      var rest := neighbours;
      ghost var before := next;
      while rest != {}
        invariant rest <= neighbours && next == before + ((neighbours - rest) - visited)
        decreases rest
      {
        var n :| n in rest;
        if n !in visited {
          next := next + {n};
        }
        rest := rest - {n};
      }
      assert Successors(Elements(frontier[..i + 1]), edges) == Successors(Elements(frontier[..i]), edges) + neighbours;
    }
    assert frontier[..|frontier|] == frontier;
  }

  /** Hop d + 1 found its whole level, sorted, starting from a level that was not empty. */
  ghost predicate HopFound(frontier: seq<string>, seeds: set<string>, edges: Edges, d: nat) {
    frontier == Listing(Level(seeds, edges, d + 1)) && Level(seeds, edges, d) != {}
  }

  ghost predicate FrontiersOf(frontiers: seq<seq<string>>, seeds: set<string>, edges: Edges) {
    forall d :: 0 <= d < |frontiers| ==> HopFound(frontiers[d], seeds, edges, d)
  }

  /** What one turn of the loop does to the two sets it keeps. */
  lemma HopKeeps(seeds: set<string>, edges: Edges, depth: nat, frontier: seq<string>)
    requires frontier == Listing(Level(seeds, edges, depth))
    ensures Successors(Elements(frontier), edges) - Reach(seeds, edges, depth) == Level(seeds, edges, depth + 1)
    ensures Reach(seeds, edges, depth) + Level(seeds, edges, depth + 1) == Reach(seeds, edges, depth + 1)
  {
    NextLevel(seeds, edges, depth);
  }

  lemma FrontiersGrow(frontiers: seq<seq<string>>, next: seq<string>, seeds: set<string>, edges: Edges)
    requires FrontiersOf(frontiers, seeds, edges)
    requires next == Listing(Level(seeds, edges, |frontiers| + 1)) && Level(seeds, edges, |frontiers|) != {}
    ensures FrontiersOf(frontiers + [next], seeds, edges)
  {
  }

  lemma WalkEnds(seeds: set<string>, edges: Edges, depth: nat, cap: nat)
    requires depth <= cap && (depth < cap ==> Level(seeds, edges, depth) == {})
    ensures Expansion(seeds, edges, depth) == Expansion(seeds, edges, cap)
    ensures Reach(seeds, edges, depth) == Reach(seeds, edges, cap)
  {
    if depth < cap {
      NothingToAdd(seeds, edges, depth, cap);
      EmptyLevelCloses(seeds, edges, depth);
      ReachStops(seeds, edges, depth, cap);
    }
  }

  /** expand: the seeds' ids in, the discovered stubs and the trace out. Any order and
      multiplicity of the edge records gives the same answer. */
  method Expand(seedIds: seq<string>, records: seq<DepRecord>, depthCap: int)
    returns (r: Result<(seq<Stub>, Trace), ResolverError>)
    ensures r.Ok? <==> depthCap >= 0 && forall i :: 0 <= i < |records| ==> WellFormedRecord(records[i])
    ensures r.Ok? ==> r.value.0 == Expansion(Elements(seedIds), EdgeSet(records), depthCap)
    ensures r.Ok? ==>
      var seeds, edges, t := Elements(seedIds), EdgeSet(records), r.value.1;
      && t.depthCap == depthCap && |t.frontiers| <= depthCap
      && FrontiersOf(t.frontiers, seeds, edges)
      && (|t.frontiers| < depthCap ==> Level(seeds, edges, |t.frontiers|) == {})
      && t.visited == Listing(Reach(seeds, edges, depthCap))
  {
    if depthCap < 0 {
      return Err(BadDepthCap);
    }
    var built := BuildAdjacency(records);
    if built.Err? {
      return Err(built.error);
    }
    var found, trace := Walked(Elements(seedIds), built.value, depthCap, EdgeSet(records));
    return Ok((found, trace));
  }

  /** The loop's variables after `depth` hops. */
  ghost predicate Walking(depth: nat, visited: set<string>, frontier: seq<string>, found: seq<Stub>, frontiers: seq<seq<string>>,
                          seeds: set<string>, edges: Edges) {
    && |frontiers| == depth && visited == Reach(seeds, edges, depth) && frontier == Listing(Level(seeds, edges, depth))
    && found == Expansion(seeds, edges, depth) && FrontiersOf(frontiers, seeds, edges)
  }

  lemma OneHop(depth: nat, visited: set<string>, frontier: seq<string>, found: seq<Stub>, frontiers: seq<seq<string>>,
               seeds: set<string>, edges: Edges, next: set<string>)
    requires Walking(depth, visited, frontier, found, frontiers, seeds, edges) && frontier != []
    requires next == Successors(Elements(frontier), edges) - visited
    ensures Walking(depth + 1, visited + next, Listing(next), found + Stubs(Listing(next), depth + 1), frontiers + [Listing(next)], seeds, edges)
  {
    ListingEmpty(Level(seeds, edges, depth));
    HopKeeps(seeds, edges, depth, frontier);
    FrontiersGrow(frontiers, Listing(next), seeds, edges);
    ExpansionGrows(seeds, edges, depth);
  }

  lemma ExpansionGrows(seeds: set<string>, edges: Edges, depth: nat)
    ensures Expansion(seeds, edges, depth + 1) == Expansion(seeds, edges, depth) + Layer(seeds, edges, depth + 1)
  {
  }

  /** The while loop. */
  method Walked(seeds: set<string>, adjacency: Adjacency, cap: nat, ghost edges: Edges) returns (found: seq<Stub>, trace: Trace)
    requires AdjacencyOf(adjacency, edges)
    ensures found == Expansion(seeds, edges, cap)
    ensures trace.depthCap == cap && |trace.frontiers| <= cap && FrontiersOf(trace.frontiers, seeds, edges)
    ensures |trace.frontiers| < cap ==> Level(seeds, edges, |trace.frontiers|) == {}
    ensures trace.visited == Listing(Reach(seeds, edges, cap))
  {
    var visited := seeds;
    var frontier := SortedOf(visited);
    found := [];
    var frontiers: seq<seq<string>> := [];
    var depth := 0;
    while frontier != [] && depth < cap
      invariant depth <= cap && Walking(depth, visited, frontier, found, frontiers, seeds, edges)
      decreases cap - depth
    {
      var next := Advance(frontier, adjacency, visited, edges);
      OneHop(depth, visited, frontier, found, frontiers, seeds, edges, next);
      depth := depth + 1;
      frontier := SortedOf(next);
      frontiers := frontiers + [frontier];
      visited := visited + next;
      found := found + Stubs(frontier, depth);
    }
    ListingEmpty(Level(seeds, edges, depth));
    WalkEnds(seeds, edges, depth, cap);
    var listed := SortedOf(visited);
    trace := Trace(cap, frontiers, listed);
  }
}
