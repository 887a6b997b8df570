/** Neighbourhood measures on an undirected friendship graph
    (`GraphUtils` in w5/graph.js). The graph is a list of edges; an edge
    joins its two endpoints whichever way round it is written. */
module Graph {
  import opened Collections

  datatype Edge = Edge(source: int, target: int)

  /** `edge.source === node || edge.target === node`. */
  predicate Touches(e: Edge, node: int) {
    e.source == node || e.target == node
  }

  /** `edge.source === node ? edge.target : edge.source`. */
  function OtherEnd(e: Edge, node: int): int {
    if e.source == node then e.target else e.source
  }

  /** `a` and `b` are joined by an edge written either way round. */
  predicate Adjacent(edges: seq<Edge>, a: int, b: int) {
    Edge(a, b) in edges || Edge(b, a) in edges
  }

  /** `edges.filter(touches node).map(other end)`, in edge order. */
  function OtherEnds(edges: seq<Edge>, node: int): (r: seq<int>)
    ensures forall x :: x in r <==> Adjacent(edges, node, x)
  {
    if edges == [] then []
    else
      var e := edges[0];
      var rest := OtherEnds(edges[1..], node);
      assert forall f :: f in edges <==> f == e || f in edges[1..];
      if Touches(e, node) then [OtherEnd(e, node)] + rest else rest
  }

  /** `new Set(...)` of the other ends: each neighbour once, in order of the
      first edge that reaches it. */
  function Neighbours(edges: seq<Edge>, node: int): (r: seq<int>)
    ensures forall x :: x in r <==> Adjacent(edges, node, x)
    ensures NoDuplicates(r)
  {
    Dedup(OtherEnds(edges, node))
  }

  /** `getCommonNeighbors(graph, node1, node2)`: the neighbours of `node1`,
      in their order, that are also neighbours of `node2`. */
  function CommonNeighbours(edges: seq<Edge>, node1: int, node2: int): (r: seq<int>)
    ensures forall x :: x in r <==> Adjacent(edges, node1, x) && Adjacent(edges, node2, x)
    ensures NoDuplicates(r)
  {
    var neighbours2 := Neighbours(edges, node2);
    FilterNoDuplicates(Neighbours(edges, node1), x => x in neighbours2);
    Filter(Neighbours(edges, node1), x => x in neighbours2)
  }

  /** `jaccardSimilarity(graph, node1, node2)`: the number of common
      neighbours over the number of nodes adjacent to either, and zero when
      neither node has a neighbour. */
  function Jaccard(edges: seq<Edge>, node1: int, node2: int): real {
    var intersection := |CommonNeighbours(edges, node1, node2)|;
    var union := |Dedup(Neighbours(edges, node1) + Neighbours(edges, node2))|;
    if union == 0 then 0.0 else (intersection as real) / (union as real)
  }

  /** The set of nodes adjacent to `node`. */
  function NeighbourSet(edges: seq<Edge>, node: int): set<int> {
    Elements(Neighbours(edges, node))
  }

  /** Adjacency is symmetric: `b` is a neighbour of `a` exactly when `a` is
      a neighbour of `b`. */
  lemma NeighboursSymmetric(edges: seq<Edge>, a: int, b: int)
    ensures b in Neighbours(edges, a) <==> a in Neighbours(edges, b)
  {
  }

  /** The common neighbours of two nodes do not depend on the order in
      which the two nodes are given, up to order. */
  lemma CommonNeighboursSymmetric(edges: seq<Edge>, a: int, b: int)
    ensures Elements(CommonNeighbours(edges, a, b)) == Elements(CommonNeighbours(edges, b, a))
    ensures |CommonNeighbours(edges, a, b)| == |CommonNeighbours(edges, b, a)|
  {
    DistinctCard(CommonNeighbours(edges, a, b));
    DistinctCard(CommonNeighbours(edges, b, a));
  }

  /** The two counts of `jaccardSimilarity` are the sizes of the
      intersection and of the union of the two neighbour sets. */
  lemma JaccardCounts(edges: seq<Edge>, node1: int, node2: int)
    ensures |CommonNeighbours(edges, node1, node2)| == |NeighbourSet(edges, node1) * NeighbourSet(edges, node2)|
    ensures |Dedup(Neighbours(edges, node1) + Neighbours(edges, node2))|
         == |NeighbourSet(edges, node1) + NeighbourSet(edges, node2)|
  {
    var common := CommonNeighbours(edges, node1, node2);
    var all := Dedup(Neighbours(edges, node1) + Neighbours(edges, node2));
    DistinctCard(common);
    DistinctCard(all);
    assert Elements(common) == NeighbourSet(edges, node1) * NeighbourSet(edges, node2);
    assert Elements(all) == NeighbourSet(edges, node1) + NeighbourSet(edges, node2);
  }

  /** Jaccard similarity is `|N1 ∩ N2| / |N1 ∪ N2|` (zero for an empty
      union), lies in [0, 1] and is symmetric. */
  lemma JaccardIsSetRatio(edges: seq<Edge>, node1: int, node2: int)
    ensures var n1 := NeighbourSet(edges, node1);
      var n2 := NeighbourSet(edges, node2);
      Jaccard(edges, node1, node2)
        == if n1 + n2 == {} then 0.0 else (|n1 * n2| as real) / (|n1 + n2| as real)
    ensures 0.0 <= Jaccard(edges, node1, node2) <= 1.0
    ensures Jaccard(edges, node1, node2) == Jaccard(edges, node2, node1)
  {
    var n1 := NeighbourSet(edges, node1);
    var n2 := NeighbourSet(edges, node2);
    JaccardCounts(edges, node1, node2);
    JaccardCounts(edges, node2, node1);
    assert n1 * n2 == n2 * n1 && n1 + n2 == n2 + n1;
    assert n1 * n2 <= n1 + n2;
    SubsetCard(n1 * n2, n1 + n2);
    if n1 + n2 != {} {
      assert |n1 + n2| > 0;
      RatioAtMostOne(|n1 * n2|, |n1 + n2|);
    }
  }

  /** Similarity one means the two nodes have the same, non-empty,
      neighbourhood. */
  lemma JaccardOneIffSameNeighbours(edges: seq<Edge>, node1: int, node2: int)
    ensures Jaccard(edges, node1, node2) == 1.0
        <==> NeighbourSet(edges, node1) == NeighbourSet(edges, node2) != {}
  {
    JaccardIsSetRatio(edges, node1, node2);
    SetRatioOne(NeighbourSet(edges, node1), NeighbourSet(edges, node2));
  }

  lemma SetRatioOne(n1: set<int>, n2: set<int>)
    ensures (n1 + n2 != {} && (|n1 * n2| as real) / (|n1 + n2| as real) == 1.0)
        <==> n1 == n2 != {}
  {
    var inter := n1 * n2;
    var union := n1 + n2;
    if union != {} {
      SubsetCard(inter, union);
      assert |union| > 0;
      if (|inter| as real) / (|union| as real) == 1.0 {
        assert |inter| == |union|;
        EqualCardSubset(inter, union);
        assert n1 == n2 by {
          forall x ensures x in n1 <==> x in n2 {
            if x in n1 || x in n2 { assert x in union; }
          }
        }
      }
      if n1 == n2 {
        assert inter == union;
      }
    }
  }

  lemma SubsetCard(a: set<int>, b: set<int>)
    requires a <= b
    ensures |a| <= |b|
  {
    assert b == a + (b - a);
  }

  /** A subset as large as its superset is the whole superset. */
  lemma EqualCardSubset(a: set<int>, b: set<int>)
    requires a <= b && |a| == |b|
    ensures a == b
  {
    assert b == a + (b - a);
    assert |b - a| == 0;
  }

  lemma RatioAtMostOne(k: nat, n: nat)
    requires 0 < n && k <= n
    ensures 0.0 <= (k as real) / (n as real) <= 1.0
  {
    assert (k as real) <= (n as real);
  }
}
