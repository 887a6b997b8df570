/** The friend recommender page (`FriendRecommenderApp` in w5/app.js): the
    graph state it loads and extends, each user's current friends, the
    ranking table and the "top 3 non-friends by PageRank" suggestions.
    PageRank scores enter as a map from node id to score, the shape
    `computePageRank` resolves to. */
module FriendApp {
  import opened Collections
  import opened Graph

  /** The endpoints of the edges, source then target, edge after edge. */
  function Endpoints(edges: seq<Edge>): seq<int> {
    if edges == [] then []
    else
      var last := edges[|edges| - 1];
      Endpoints(edges[..|edges| - 1]) + [last.source, last.target]
  }

  lemma {:induction false} EndpointsExact(edges: seq<Edge>)
    ensures forall x :: x in Endpoints(edges) <==> exists e :: e in edges && Touches(e, x)
  {
    if edges != [] {
      var init := edges[..|edges| - 1];
      var last := edges[|edges| - 1];
      EndpointsExact(init);
      assert edges == init + [last];
      forall x ensures x in Endpoints(edges) <==> exists e :: e in edges && Touches(e, x) {
        if x in Endpoints(init) {
          var e :| e in init && Touches(e, x);
          assert e in edges;
        } else if x == last.source || x == last.target {
          assert Touches(last, x);
        } else {
          forall e | e in edges ensures !Touches(e, x) {
            if e != last {
              assert e in init;
            }
          }
        }
      }
    }
  }

  /** Loading one more edge adds its source, then its target. */
  lemma EndpointsSnoc(edges: seq<Edge>, i: nat)
    requires i < |edges|
    ensures Endpoints(edges[..i + 1]) == (Endpoints(edges[..i]) + [edges[i].source]) + [edges[i].target]
  {
    assert edges[..i + 1][..i] == edges[..i];
  }

  /** `Array.from(nodeSet)`: every endpoint once, in order of first
      appearance. */
  function NodeList(edges: seq<Edge>): seq<int> {
    Dedup(Endpoints(edges))
  }

  /** The node list holds every edge endpoint exactly once and nothing
      else. */
  lemma NodeListExact(edges: seq<Edge>)
    ensures forall x :: x in NodeList(edges) <==> exists e :: e in edges && Touches(e, x)
    ensures NoDuplicates(NodeList(edges))
  {
    EndpointsExact(edges);
  }

  class FriendRecommender {
    var nodes: seq<int>
    var edges: seq<Edge>

    constructor()
      ensures nodes == [] && edges == []
    {
      nodes := [];
      edges := [];
    }

    /** `loadData` after the CSV rows are read: keeps the edges and adds
        both endpoints of each edge to a `Set`. */
    method LoadData(parsed: seq<Edge>)
      modifies this
      ensures edges == parsed
      ensures nodes == NodeList(parsed)
    {
      edges := parsed;
      var nodeSet: seq<int> := [];
      for i := 0 to |parsed|
        invariant edges == parsed
        invariant nodeSet == Dedup(Endpoints(parsed[..i]))
      {
        var e := parsed[i];
        ghost var before := Endpoints(parsed[..i]);
        EndpointsSnoc(parsed, i);
        DedupSnoc(before, e.source);
        DedupSnoc(before + [e.source], e.target);
        if e.source !in nodeSet {
          nodeSet := nodeSet + [e.source];
        }
        if e.target !in nodeSet {
          nodeSet := nodeSet + [e.target];
        }
      }
      assert parsed[..|parsed|] == parsed;
      nodes := nodeSet;
    }

    /** `simulateConnection`: appends one edge and keeps every other. The
        PageRank recomputation that follows is not part of this model. */
    method SimulateConnection(sourceId: int, targetId: int)
      modifies this
      ensures edges == old(edges) + [Edge(sourceId, targetId)]
      ensures nodes == old(nodes)
    {
      edges := edges + [Edge(sourceId, targetId)];
    }
  }

  /** After a connection the two users are each other's friends, and every
      earlier friendship still holds. */
  lemma ConnectionMakesFriends(edges: seq<Edge>, sourceId: int, targetId: int)
    ensures targetId in CurrentFriends(edges + [Edge(sourceId, targetId)], sourceId)
    ensures sourceId in CurrentFriends(edges + [Edge(sourceId, targetId)], targetId)
    ensures forall a, b :: b in CurrentFriends(edges, a) ==> b in CurrentFriends(edges + [Edge(sourceId, targetId)], a)
  {
  }

  function Ascending(a: int, b: int): bool {
    a <= b
  }

  /** `getCurrentFriends`: the other endpoint of each edge touching the
      node, sorted ascending; an edge listed twice gives the friend twice. */
  function CurrentFriends(edges: seq<Edge>, nodeId: int): (r: seq<int>)
    ensures forall x :: x in r <==> Adjacent(edges, nodeId, x)
  {
    var r := SortBy(OtherEnds(edges, nodeId), Ascending);
    assert forall x :: x in r <==> x in multiset(r);
    r
  }

  /** The number of edges that make `x` a friend of `node`. */
  function Links(edges: seq<Edge>, node: int, x: int): nat {
    if edges == [] then 0
    else
      (if Touches(edges[0], node) && OtherEnd(edges[0], node) == x then 1 else 0)
        + Links(edges[1..], node, x)
  }

  lemma {:induction false} OtherEndsCount(edges: seq<Edge>, node: int, x: int)
    ensures multiset(OtherEnds(edges, node))[x] == Links(edges, node, x)
  {
    if edges != [] {
      OtherEndsCount(edges[1..], node, x);
    }
  }

  /** The friend list is in ascending order and lists each friend once per
      edge joining the two. */
  lemma CurrentFriendsSortedWithMultiplicity(edges: seq<Edge>, nodeId: int)
    ensures SortedBy(CurrentFriends(edges, nodeId), Ascending)
    ensures forall x :: multiset(CurrentFriends(edges, nodeId))[x] == Links(edges, nodeId, x)
  {
    SortByIsSorted(OtherEnds(edges, nodeId), Ascending);
    forall x ensures multiset(CurrentFriends(edges, nodeId))[x] == Links(edges, nodeId, x) {
      OtherEndsCount(edges, nodeId, x);
    }
  }

  /** `this.pagerankScores[id] || 0`. */
  function ScoreOrZero(scores: map<int, real>, id: int): real {
    if id in scores then scores[id] else 0.0
  }

  /** `allNodes.filter(id => id !== nodeId && !currentFriends.includes(id))`. */
  function PotentialFriends(nodes: seq<int>, edges: seq<Edge>, nodeId: int): (r: seq<int>)
    ensures forall x :: x in r <==> x in nodes && x != nodeId && !Adjacent(edges, nodeId, x)
  {
    var friends := CurrentFriends(edges, nodeId);
    Filter(nodes, id => id != nodeId && id !in friends)
  }

  datatype Recommendation = Recommendation(id: int, score: real, currentFriends: nat)

  /** The comparator `(a, b) => b.score - a.score`: `a` may stand before `b`
      when its score is at least as high. */
  function ScoreAtLeast(a: Recommendation, b: Recommendation): bool {
    a.score >= b.score
  }

  lemma ScoreAtLeastIsTotal(domain: set<Recommendation>)
    ensures TotalPreorderOn(ScoreAtLeast, domain)
  {
  }

  function Candidates(ids: seq<int>, edges: seq<Edge>, scores: map<int, real>): seq<Recommendation> {
    seq(|ids|, i requires 0 <= i < |ids| =>
      Recommendation(ids[i], ScoreOrZero(scores, ids[i]), |CurrentFriends(edges, ids[i])|))
  }

  /** The selection of `showRecommendations`: potential friends scored by
      PageRank (missing scores count as 0), best first, at most three. */
  function Recommendations(nodes: seq<int>, edges: seq<Edge>, scores: map<int, real>, nodeId: int): seq<Recommendation> {
    var candidates := Candidates(PotentialFriends(nodes, edges, nodeId), edges, scores);
    Take(SortBy(candidates, ScoreAtLeast), 3)
  }

  /** Each candidate carries its id, its score or 0, and its friend count. */
  lemma CandidatesDescribeIds(ids: seq<int>, edges: seq<Edge>, scores: map<int, real>)
    ensures forall c :: c in Candidates(ids, edges, scores) ==>
      && c.id in ids
      && c.score == ScoreOrZero(scores, c.id)
      && c.currentFriends == |CurrentFriends(edges, c.id)|
  {
  }

  /** At most three suggestions, each a potential friend with its score (or
      0) and friend count, ordered by score descending, and no potential
      friend left out scores higher than one that was kept. */
  lemma RecommendationsTopThree(nodes: seq<int>, edges: seq<Edge>, scores: map<int, real>, nodeId: int)
    ensures var potential := PotentialFriends(nodes, edges, nodeId);
      var r := Recommendations(nodes, edges, scores, nodeId);
      && |r| == (if |potential| < 3 then |potential| else 3)
      && multiset(r) <= multiset(Candidates(potential, edges, scores))
      && (forall i, j :: 0 <= i < j < |r| ==> r[i].score >= r[j].score)
      && (forall i :: 0 <= i < |r| ==>
            && r[i].id in nodes && r[i].id != nodeId && !Adjacent(edges, nodeId, r[i].id)
            && r[i].score == ScoreOrZero(scores, r[i].id)
            && r[i].currentFriends == |CurrentFriends(edges, r[i].id)|)
      && (forall id :: id in potential && (forall i :: 0 <= i < |r| ==> r[i].id != id) ==>
            forall i :: 0 <= i < |r| ==> r[i].score >= ScoreOrZero(scores, id))
  {
    var potential := PotentialFriends(nodes, edges, nodeId);
    var candidates := Candidates(potential, edges, scores);
    var r := Recommendations(nodes, edges, scores, nodeId);
    ScoreAtLeastIsTotal(Elements(candidates));
    TopK(candidates, ScoreAtLeast, 3);
    CandidatesDescribeIds(potential, edges, scores);
    LeftOutScoreNoHigher(potential, edges, scores, r);
  }

  lemma LeftOutScoreNoHigher(potential: seq<int>, edges: seq<Edge>, scores: map<int, real>, r: seq<Recommendation>)
    requires forall x :: x in Candidates(potential, edges, scores) && x !in r ==>
      forall i :: 0 <= i < |r| ==> ScoreAtLeast(r[i], x)
    ensures forall id :: id in potential && (forall i :: 0 <= i < |r| ==> r[i].id != id) ==>
      forall i :: 0 <= i < |r| ==> r[i].score >= ScoreOrZero(scores, id)
  {
    var candidates := Candidates(potential, edges, scores);
    forall id | id in potential && (forall i :: 0 <= i < |r| ==> r[i].id != id)
      ensures forall i :: 0 <= i < |r| ==> r[i].score >= ScoreOrZero(scores, id)
    {
      var k :| 0 <= k < |potential| && potential[k] == id;
      var c := candidates[k];
      assert c in candidates && c !in r;
    }
  }

  datatype RankedNode = RankedNode(id: int, pagerank: real)

  /** The comparator `(a, b) => b.pagerank - a.pagerank`. */
  function PageRankAtLeast(a: RankedNode, b: RankedNode): bool {
    a.pagerank >= b.pagerank
  }

  function Ranked(nodes: seq<int>, scores: map<int, real>): seq<RankedNode> {
    seq(|nodes|, i requires 0 <= i < |nodes| => RankedNode(nodes[i], ScoreOrZero(scores, nodes[i])))
  }

  /** The row order of `updateTable`. */
  function TableRows(nodes: seq<int>, scores: map<int, real>): seq<RankedNode> {
    SortBy(Ranked(nodes, scores), PageRankAtLeast)
  }

  /** The table lists every node once per occurrence, each with its score
      or 0, in descending order of score. */
  lemma TableRowsSorted(nodes: seq<int>, scores: map<int, real>)
    ensures multiset(TableRows(nodes, scores)) == multiset(Ranked(nodes, scores))
    ensures forall i, j :: 0 <= i < j < |TableRows(nodes, scores)| ==>
      TableRows(nodes, scores)[i].pagerank >= TableRows(nodes, scores)[j].pagerank
    ensures forall row :: row in TableRows(nodes, scores) ==>
      row.id in nodes && row.pagerank == ScoreOrZero(scores, row.id)
  {
    assert TotalPreorder(PageRankAtLeast);
    SortByIsSorted(Ranked(nodes, scores), PageRankAtLeast);
    var rows := TableRows(nodes, scores);
    forall row | row in rows ensures row.id in nodes && row.pagerank == ScoreOrZero(scores, row.id) {
      assert row in multiset(Ranked(nodes, scores));
    }
  }
}
