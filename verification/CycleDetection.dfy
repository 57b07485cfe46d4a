/** Cycle detection by three-colour depth-first search, proved exact: the search answers
    yes if and only if the edges form a directed cycle. */
module CycleDetection {
  import opened Orders

  type Edges<!T(==)> = set<(T, T)>

  predicate Linked<T(==)>(edges: Edges<T>, p: seq<T>, i: nat)
    requires i < |p| - 1
  {
    (p[i], p[i + 1]) in edges
  }

  /** Each node of p has an edge to the next. */
  predicate Walk<T(==)>(edges: Edges<T>, p: seq<T>) {
    p != [] && forall i :: 0 <= i < |p| - 1 ==> Linked(edges, p, i)
  }

  predicate IsCycle<T(==)>(edges: Edges<T>, p: seq<T>) {
    |p| >= 2 && p[0] == p[|p| - 1] && Walk(edges, p)
  }

  ghost predicate Cyclic<T(!new)>(edges: Edges<T>) {
    exists p :: IsCycle(edges, p)
  }

  /** There is a way from one node to another, possibly of no steps. */
  ghost predicate Leads<T(!new)>(edges: Edges<T>, from: T, to: T) {
    exists p :: Walk(edges, p) && p[0] == from && p[|p| - 1] == to
  }

  lemma FewerEdges<T(!new)>(small: Edges<T>, big: Edges<T>)
    requires small <= big && !Cyclic(big)
    ensures !Cyclic(small)
  {
    if p :| IsCycle(small, p) {
      CycleInMore(small, big, p);
      assert false;
    }
  }

  lemma CycleInMore<T>(small: Edges<T>, big: Edges<T>, p: seq<T>)
    requires small <= big && IsCycle(small, p)
    ensures IsCycle(big, p)
  {
    forall i | 0 <= i < |p| - 1 ensures Linked(big, p, i) {
      assert Linked(small, p, i);
    }
  }

  lemma {:induction false} AvoidEdge<T(!new)>(edges: Edges<T>, src: T, dst: T, q: seq<T>)
    requires Walk(edges + {(src, dst)}, q) && q[0] == dst && q[|q| - 1] == src
    ensures Leads(edges, dst, src)
    decreases |q|
  {
    if k :| 0 <= k < |q| - 1 && !Linked(edges, q, k) {
      assert Linked(edges + {(src, dst)}, q, k);
      var rest := q[k + 1..];
      forall i | 0 <= i < |rest| - 1 ensures Linked(edges + {(src, dst)}, rest, i) {
        assert Linked(edges + {(src, dst)}, q, k + 1 + i);
      }
      AvoidEdge(edges, src, dst, rest);
    } else {
      assert Walk(edges, q);
    }
  }

  /** A new edge closes a cycle exactly when its end already leads back to its start. */
  lemma EdgeClosesCycle<T(!new)>(edges: Edges<T>, src: T, dst: T)
    requires !Cyclic(edges)
    ensures Cyclic(edges + {(src, dst)}) <==> Leads(edges, dst, src)
  {
    var more := edges + {(src, dst)};
    if p :| Walk(edges, p) && p[0] == dst && p[|p| - 1] == src {
      var c := p + [dst];
      forall i | 0 <= i < |c| - 1 ensures Linked(more, c, i) {
        if i < |p| - 1 {
          assert Linked(edges, p, i);
        }
      }
      assert IsCycle(more, c);
    }
    if c :| IsCycle(more, c) {
      if Walk(edges, c) {
        assert IsCycle(edges, c);
      } else {
        var k :| 0 <= k < |c| - 1 && !Linked(edges, c, k);
        assert Linked(more, c, k);
        Rotate(more, c, k);
        AvoidEdge(edges, src, dst, c[k + 1..] + c[1..k + 1]);
      }
    }
  }

  lemma Rotate<T>(edges: Edges<T>, c: seq<T>, k: nat)
    requires IsCycle(edges, c) && k < |c| - 1
    ensures var q := c[k + 1..] + c[1..k + 1]; Walk(edges, q) && q[0] == c[k + 1] && q[|q| - 1] == c[k]
  {
    var front, back := c[k + 1..], c[1..k + 1];
    WalkTail(edges, c, k + 1);
    if k == 0 {
      assert back == [] && front + back == front;
    } else {
      WalkTail(edges, c, 1);
      WalkHead(edges, c[1..], k);
      assert back == c[1..][..k];
      assert Linked(edges, c, 0);
      WalkJoin(edges, front, back);
    }
  }

  lemma WalkTail<T>(edges: Edges<T>, p: seq<T>, k: nat)
    requires Walk(edges, p) && k < |p|
    ensures Walk(edges, p[k..])
  {
    forall i | 0 <= i < |p[k..]| - 1 ensures Linked(edges, p[k..], i) {
      assert Linked(edges, p, k + i);
    }
  }

  lemma WalkHead<T>(edges: Edges<T>, p: seq<T>, k: nat)
    requires Walk(edges, p) && 0 < k <= |p|
    ensures Walk(edges, p[..k])
  {
    forall i | 0 <= i < k - 1 ensures Linked(edges, p[..k], i) {
      assert Linked(edges, p, i);
    }
  }

  lemma WalkJoin<T>(edges: Edges<T>, p: seq<T>, q: seq<T>)
    requires Walk(edges, p) && Walk(edges, q) && (p[|p| - 1], q[0]) in edges
    ensures Walk(edges, p + q)
  {
    forall i | 0 <= i < |p + q| - 1 ensures Linked(edges, p + q, i) {
      if i < |p| - 1 {
        assert Linked(edges, p, i);
      } else if i >= |p| {
        assert Linked(edges, q, i - |p|);
      }
    }
  }

  // -- the search -----------------------------------------------------------------------

  type Graph<!T(==)> = map<T, seq<T>>

  /** The adjacency lists hold exactly these edges. */
  ghost predicate Represents<T(!new)>(graph: Graph<T>, edges: Edges<T>) {
    forall x, y :: (x, y) in edges <==> x in graph && y in graph[x]
  }

  method BuildGraph<T(==, !new)>(edgeList: seq<(T, T)>) returns (graph: Graph<T>)
    ensures Represents(graph, Elements(edgeList))
  {
    graph := map[];
    for i := 0 to |edgeList|
      invariant Represents(graph, Elements(edgeList[..i]))
    {
      var (src, dst) := edgeList[i];
      assert edgeList[..i + 1] == edgeList[..i] + [(src, dst)];
      assert Elements(edgeList[..i + 1]) == Elements(edgeList[..i]) + {(src, dst)};
      graph := graph[src := (if src in graph then graph[src] else []) + [dst]];
    }
    assert edgeList[..|edgeList|] == edgeList;
  }

  datatype Color = White | Gray | Black

  class DepthFirst<T(==, !new)> {
    const graph: Graph<T>
    var color: map<T, Color>
    /** The gray nodes, outermost first. */
    ghost var stack: seq<T>
    /** The black nodes in the order they turned black. */
    ghost var finished: seq<T>
    ghost const edges: Edges<T>

    constructor (g: Graph<T>, ghost e: Edges<T>)
      requires Represents(g, e)
      ensures graph == g && edges == e && Valid() && stack == [] && finished == []
    {
      graph, edges := g, e;
      color := map[];
      stack, finished := [], [];
    }

    function ColorOf(x: T): Color
      reads this
    {
      if x in color then color[x] else White
    }

    /** Gray nodes are the current path; a black node's successors all turned black before it. */
    ghost predicate Valid()
      reads this
    {
      && Represents(graph, edges)
      && (forall x :: ColorOf(x) == Gray <==> x in stack)
      && (forall x :: ColorOf(x) == Black <==> x in finished)
      && Distinct(stack) && Distinct(finished)
      && (stack != [] ==> Walk(edges, stack))
      && Settled(finished)
      && color.Keys <= Nodes() && (forall x :: x in color ==> color[x] != White)
    }

    ghost predicate Settled(order: seq<T>) {
      forall i, y :: 0 <= i < |order| && (order[i], y) in edges ==> y in order[..i]
    }

    ghost function Nodes(): set<T> {
      graph.Keys + set e | e in edges :: e.1
    }

    /** Visit an unvisited node that continues the current path. */
    method Visit(node: T) returns (found: bool)
      requires Valid() && ColorOf(node) == White && node in Nodes()
      requires stack != [] ==> (stack[|stack| - 1], node) in edges
      modifies this
      ensures found ==> Cyclic(edges)
      ensures !found ==> Valid() && stack == old(stack) && old(finished) <= finished && ColorOf(node) == Black
      ensures old(color.Keys) <= color.Keys <= Nodes()
      decreases Nodes() - color.Keys, 0
    {
      ghost var unvisited := Nodes() - color.Keys;
      assert node in unvisited;
      color := color[node := Gray];
      if stack != [] {
        WalkJoin(edges, stack, [node]);
      }
      stack := stack + [node];
      assert Nodes() - color.Keys == unvisited - {node};
      found := VisitAll(node);
      if found {
        return;
      }
      color := color[node := Black];
      Unstack(node);
    }

    /** The node on top of the path is done: all its successors are black. */
    ghost method Unstack(node: T)
      requires stack != [] && stack[|stack| - 1] == node
      requires Represents(graph, edges) && color.Keys <= Nodes() && (forall x :: x in color ==> color[x] != White)
      requires Distinct(stack) && Distinct(finished) && Walk(edges, stack)
      requires Settled(finished)
      requires forall x :: ColorOf(x) == Gray <==> x in stack && x != node
      requires forall x :: ColorOf(x) == Black <==> x in finished || x == node
      requires node !in finished
      requires forall y :: (node, y) in edges ==> y in finished
      modifies this`stack, this`finished
      ensures Valid() && stack == old(stack[..|stack| - 1]) && finished == old(finished) + [node]
    {
      var before, s := finished, stack;
      stack, finished := s[..|s| - 1], before + [node];
      forall i, y | 0 <= i < |finished| && (finished[i], y) in edges ensures y in finished[..i] {
        if i < |before| {
          assert finished[..i] == before[..i];
        } else {
          assert finished[..i] == before;
        }
      }
      assert forall x :: x in s <==> x in stack || x == node by {
        assert s == stack + [node];
      }
      if stack != [] {
        WalkHead(edges, s, |s| - 1);
      }
    }

    /** The loop over a gray node's successors. */
    method VisitAll(node: T) returns (found: bool)
      requires Valid() && stack != [] && stack[|stack| - 1] == node
      modifies this
      ensures found ==> Cyclic(edges)
      ensures !found ==> Valid() && stack == old(stack) && old(finished) <= finished
                         && forall y :: (node, y) in edges ==> y in finished
      ensures old(color.Keys) <= color.Keys <= Nodes()
      decreases Nodes() - color.Keys, 1
    {
      if node !in graph {
        return false;
      }
      var successors := graph[node];
      for i := 0 to |successors|
        invariant Valid() && stack == old(stack) && old(finished) <= finished
        invariant old(color.Keys) <= color.Keys
        invariant forall k :: 0 <= k < i ==> successors[k] in finished
      {
        var next := successors[i];
        assert (node, next) in edges;
        if ColorOf(next) == Gray {
          BackEdge(next);
          return true;
        }
        if ColorOf(next) == White {
          assert next in Nodes();
          found := Visit(next);
          if found {
            return;
          }
        }
      }
      return false;
    }

    /** An edge from the top of the path back into it closes a cycle. */
    lemma BackEdge(next: T)
      requires Valid() && stack != [] && next in stack && (stack[|stack| - 1], next) in edges
      ensures Cyclic(edges)
    {
      var k :| 0 <= k < |stack| && stack[k] == next;
      WalkTail(edges, stack, k);
      WalkJoin(edges, stack[k..], [next]);
      assert IsCycle(edges, stack[k..] + [next]);
    }

    /** When every node with a successor is black there is no cycle. */
    lemma AllSettled()
      requires Valid() && forall x :: x in graph ==> x in finished
      ensures !Cyclic(edges)
    {
      if c :| IsCycle(edges, c) {
        assert Linked(edges, c, 0);
        var k :| 0 <= k < |finished| && finished[k] == c[0];
        Descend(c, k, |c| - 1);
        assert false;
      }
    }

    /** Along a walk the nodes finished ever earlier. */
    lemma {:induction false} Descend(c: seq<T>, k: nat, n: nat)
      requires Valid() && Walk(edges, c) && 1 <= n < |c| && k < |finished| && finished[k] == c[0]
      ensures exists l :: 0 <= l < k && finished[l] == c[n]
      decreases n
    {
      if n == 1 {
        assert Linked(edges, c, 0);
        assert c[1] in finished[..k];
      } else {
        Descend(c, k, n - 1);
        var l :| 0 <= l < k && finished[l] == c[n - 1];
        assert Linked(edges, c, n - 1);
        assert c[n] in finished[..l];
      }
    }
  }

  /** _has_cycle, exactly. */
  method HasCycle<T(==, !new)>(edgeList: seq<(T, T)>) returns (found: bool)
    ensures found <==> Cyclic(Elements(edgeList))
  {
    var graph := BuildGraph(edgeList);
    var search := new DepthFirst<T>(graph, Elements(edgeList));
    var todo := graph.Keys;
    while todo != {}
      invariant search.graph == graph && search.edges == Elements(edgeList)
      invariant search.Valid() && search.stack == [] && todo <= graph.Keys
      invariant forall x :: x in graph && x !in todo ==> x in search.finished
      invariant fresh(search)
      decreases todo
    {
      var node :| node in todo;
      if search.ColorOf(node) == White {
        found := search.Visit(node);
        if found {
          return;
        }
      }
      todo := todo - {node};
    }
    search.AllSettled();
    return false;
  }
}
