/** PageRank by power iteration over an adjacency list (w5/pagerank.js).

    The graph is a map from node id to the ids it links to. Node ids are
    taken in ascending order and numbered 0..n-1; the transition matrix `M`
    has one column per source node: a node without links spreads `1/n` over
    every row, any other node puts `1/outDegree` in the row of each listed
    neighbour. Starting from the uniform vector, each of a fixed number of
    steps computes `damping * (M r) + (1 - damping) / n` and divides the
    result by its sum. */
module PageRank {
  import opened Wrappers
  import opened Collections
  import opened Vectors

  type Adjacency = map<int, seq<int>>

  datatype PageRankError =
      /** A neighbour id is not a key of the map: `M[undefined][sourceIndex]`
          throws a TypeError. */
    | UnknownNeighbour
      /** A step summed to zero: dividing by that sum gives NaN scores. */
    | NotANumber

  /** Every listed neighbour is itself a node of the graph. */
  predicate NeighboursKnown(adj: Adjacency) {
    forall s :: s in adj ==> forall t :: t in adj[s] ==> t in adj
  }

  /** `Object.keys(adjacencyList).map(Number).sort((a, b) => a - b)`. */
  function NodeIds(adj: Adjacency): seq<int> {
    SortedKeys(adj.Keys)
  }

  /** `nodeToIndex`: each id to its position among the sorted ids. */
  function NodeIndex(ids: seq<int>): map<int, nat> {
    map id | id in ids :: IndexOf(ids, id)
  }

  /** The entry of `M` in row `i` (target) and column `j` (source). A later
      write of the same `1/outDegree` value overwrites an earlier one, so a
      neighbour listed twice still gets `1/outDegree`. */
  function Entry(adj: Adjacency, ids: seq<int>, i: nat, j: nat): real
    requires i < |ids| && j < |ids|
    requires ids[j] in adj
  {
    var neighbours := adj[ids[j]];
    if |neighbours| == 0 then 1.0 / (|ids| as real)
    else if ids[i] in neighbours then 1.0 / (|neighbours| as real)
    else 0.0
  }

  function Transition(adj: Adjacency, ids: seq<int>): seq<seq<real>>
    requires forall j :: 0 <= j < |ids| ==> ids[j] in adj
  {
    seq(|ids|, i requires 0 <= i < |ids| =>
      seq(|ids|, j requires 0 <= j < |ids| => Entry(adj, ids, i, j)))
  }

  predicate IsSquare(m: seq<seq<real>>, n: nat) {
    |m| == n && forall i :: 0 <= i < n ==> |m[i]| == n
  }

  /** `tf.ones([n, 1]).div(tf.scalar(n))`. */
  function Uniform(n: nat): seq<real>
    requires n > 0
  {
    seq(n, i => 1.0 / (n as real))
  }

  /** One damped step before normalisation:
      `M.matMul(r).mul(damping).add(ones.mul((1 - damping) / n))`. */
  function Step(m: seq<seq<real>>, r: seq<real>, damping: real): seq<real>
    requires |r| > 0 && IsSquare(m, |r|)
  {
    seq(|r|, i requires 0 <= i < |r| => Dot(m[i], r) * damping + (1.0 - damping) / (|r| as real))
  }

  /** `v.div(v.sum())`. */
  function Normalize(v: seq<real>): seq<real>
    requires Sum(v) != 0.0
  {
    seq(|v|, i requires 0 <= i < |v| => v[i] / Sum(v))
  }

  /** `k` more iterations of the power-iteration loop
      (`for (let iter = 0; iter < iterations; iter++)`). */
  function Iterate(m: seq<seq<real>>, r: seq<real>, damping: real, k: nat): (result: Result<seq<real>, PageRankError>)
    requires |r| > 0 && IsSquare(m, |r|)
    ensures result.Ok? ==> |result.value| == |r|
    decreases k
  {
    if k == 0 then Ok(r)
    else
      var t := Step(m, r, damping);
      if Sum(t) == 0.0 then Err(NotANumber)
      else Iterate(m, Normalize(t), damping, k - 1)
  }

  /** `result[id] = scores[index][0]` for every id. */
  function ScoreMap(ids: seq<int>, r: seq<real>): map<int, real>
    requires |r| == |ids|
  {
    map id | id in ids :: r[IndexOf(ids, id)]
  }

  /** `ids` lists every node of the graph once. */
  ghost predicate ListsNodes(adj: Adjacency, ids: seq<int>) {
    && NoDuplicates(ids)
    && (forall id :: id in ids <==> id in adj)
    && (forall j :: 0 <= j < |ids| ==> ids[j] in adj)
  }

  /** The sorted ids are exactly the nodes of the graph. */
  lemma NodeIdsOfGraph(adj: Adjacency)
    ensures forall id :: id in NodeIds(adj) <==> id in adj
    ensures forall j :: 0 <= j < |NodeIds(adj)| ==> NodeIds(adj)[j] in adj
    ensures |NodeIds(adj)| == |adj|
    ensures ListsNodes(adj, NodeIds(adj))
  {
  }

  /** `nodeToIndex` maps each node to the one position that holds it. */
  lemma NodeIndexInverse(ids: seq<int>, id: int)
    requires StrictlyIncreasing(ids)
    requires id in NodeIndex(ids)
    ensures NodeIndex(ids)[id] < |ids| && ids[NodeIndex(ids)[id]] == id
    ensures forall k :: 0 <= k < |ids| && k != NodeIndex(ids)[id] ==> ids[k] != id
  {
  }

  /** What `computePageRank(adjacencyList, iterations, dampingFactor)` resolves to. */
  function Rank(adj: Adjacency, iterations: nat, damping: real): Result<map<int, real>, PageRankError> {
    var ids := NodeIds(adj);
    NodeIdsOfGraph(adj);
    if |ids| == 0 then Ok(map[])
    else if !NeighboursKnown(adj) then Err(UnknownNeighbour)
    else
      match Iterate(Transition(adj, ids), Uniform(|ids|), damping, iterations)
      case Err(e) => Err(e)
      case Ok(r) => Ok(ScoreMap(ids, r))
  }

  /** `computePageRank`: builds `nodeToIndex` and the matrix `M` in loops,
      runs the power iteration and maps the scores back to the ids. */
  method ComputePageRank(adj: Adjacency, iterations: nat, damping: real)
    returns (result: Result<map<int, real>, PageRankError>)
    ensures result == Rank(adj, iterations, damping)
  {
    var nodeIds := SortedKeys(adj.Keys);
    NodeIdsOfGraph(adj);
    var n := |nodeIds|;
    if n == 0 {
      return Ok(map[]);
    }
    var nodeToIndex := IndexNodes(nodeIds);
    var transition := BuildTransition(adj, nodeIds, nodeToIndex);
    if transition.Err? {
      return Err(transition.error);
    }
    var scores := PowerIterate(transition.value, n, iterations, damping);
    if scores.Err? {
      return Err(scores.error);
    }
    var byId := ScoresById(nodeIds, scores.value);
    return Ok(byId);
  }

  /** `nodeIds.forEach((id, index) => nodeToIndex[id] = index)`. */
  method IndexNodes(nodeIds: seq<int>) returns (nodeToIndex: map<int, nat>)
    requires NoDuplicates(nodeIds)
    ensures nodeToIndex == NodeIndex(nodeIds)
  {
    nodeToIndex := map[];
    for index := 0 to |nodeIds|
      invariant forall k :: 0 <= k < index ==> nodeIds[k] in nodeToIndex && nodeToIndex[nodeIds[k]] == k
      invariant forall id :: id in nodeToIndex ==> id in nodeIds[..index]
    {
      nodeToIndex := nodeToIndex[nodeIds[index] := index];
    }
    assert nodeIds[..|nodeIds|] == nodeIds;
    forall id | id in nodeToIndex ensures nodeToIndex[id] == IndexOf(nodeIds, id) {
      var k :| 0 <= k < |nodeIds| && nodeIds[k] == id;
      IndexOfDistinct(nodeIds, k);
    }
  }

  /** `M = Array(n)` of zero rows, filled by `nodeIds.forEach(sourceId => ...)`
      column by column, then read out
      as `tf.tensor2d(M)`. A neighbour that is not a node makes the JavaScript
      throw. */
  method BuildTransition(adj: Adjacency, nodeIds: seq<int>, nodeToIndex: map<int, nat>)
    returns (result: Result<seq<seq<real>>, PageRankError>)
    requires nodeIds == NodeIds(adj) && |nodeIds| > 0
    requires nodeToIndex == NodeIndex(nodeIds)
    ensures result.Err? <==> !NeighboursKnown(adj)
    ensures result.Err? ==> result.error == UnknownNeighbour
    ensures result.Ok? ==> result.value == Transition(adj, nodeIds)
  {
    NodeIdsOfGraph(adj);
    var n := |nodeIds|;
    var M := new real[n, n]((i, j) => 0.0);
    for j := 0 to n
      invariant forall i, c :: 0 <= i < n && 0 <= c < j ==> M[i, c] == Entry(adj, nodeIds, i, c)
      invariant forall i, c :: 0 <= i < n && j <= c < n ==> M[i, c] == 0.0
      invariant forall c, t :: 0 <= c < j && t in adj[nodeIds[c]] ==> t in adj
    {
      var ok := FillColumn(M, adj, nodeIds, nodeToIndex, j);
      if !ok {
        return Err(UnknownNeighbour);
      }
    }
    EveryColumnChecked(adj, nodeIds);
    var transition := ReadMatrix(M);
    MatrixOfEntries(adj, nodeIds, transition);
    return Ok(transition);
  }

  /** A check of every column's neighbours is a check of every node's. */
  lemma EveryColumnChecked(adj: Adjacency, ids: seq<int>)
    requires ListsNodes(adj, ids)
    requires forall c, t :: 0 <= c < |ids| && t in adj[ids[c]] ==> t in adj
    ensures NeighboursKnown(adj)
  {
    forall s, t | s in adj && t in adj[s] ensures t in adj {
      var c :| 0 <= c < |ids| && ids[c] == s;
    }
  }

  /** `tf.tensor2d(M)`: the rows of the array as a value. */
  method ReadMatrix(M: array2<real>) returns (rows: seq<seq<real>>)
    requires M.Length0 == M.Length1
    ensures IsSquare(rows, M.Length0)
    ensures forall i, j :: 0 <= i < M.Length0 && 0 <= j < M.Length1 ==> rows[i][j] == M[i, j]
  {
    var n := M.Length0;
    rows := seq(n, i requires 0 <= i < n reads M =>
      seq(n, j requires 0 <= j < n reads M => M[i, j]));
  }

  /** A square matrix holding `Entry` everywhere is the transition matrix. */
  lemma MatrixOfEntries(adj: Adjacency, ids: seq<int>, rows: seq<seq<real>>)
    requires forall j :: 0 <= j < |ids| ==> ids[j] in adj
    requires IsSquare(rows, |ids|)
    requires forall i, c :: 0 <= i < |ids| && 0 <= c < |ids| ==> rows[i][c] == Entry(adj, ids, i, c)
    ensures rows == Transition(adj, ids)
  {
    var m := Transition(adj, ids);
    forall i | 0 <= i < |ids| ensures rows[i] == m[i] {
      assert forall c :: 0 <= c < |ids| ==> rows[i][c] == m[i][c];
    }
  }

  /** The body of `nodeIds.forEach((sourceId, sourceIndex) => ...)` for one
      source, whose column is still zero. Returns false where the JavaScript
      throws on an unknown neighbour. */
  method FillColumn(M: array2<real>, adj: Adjacency, nodeIds: seq<int>, nodeToIndex: map<int, nat>, j: nat)
    returns (ok: bool)
    requires nodeIds == NodeIds(adj)
    requires nodeToIndex == NodeIndex(nodeIds)
    requires M.Length0 == M.Length1 == |nodeIds| && j < |nodeIds|
    requires forall i :: 0 <= i < M.Length0 ==> M[i, j] == 0.0
    modifies M
    ensures forall i, c :: 0 <= i < M.Length0 && 0 <= c < M.Length1 && c != j ==> M[i, c] == old(M[i, c])
    ensures ok ==> forall i :: 0 <= i < M.Length0 ==> M[i, j] == Entry(adj, nodeIds, i, j)
    ensures ok <==> forall t :: t in adj[nodeIds[j]] ==> t in adj
  {
    NodeIdsOfGraph(adj);
    if |adj[nodeIds[j]]| == 0 {
      FillDangling(M, j);
      ok := true;
    } else {
      ok := FillLinks(M, adj, nodeIds, nodeToIndex, j);
    }
  }

  /** A node without links: `M[i][sourceIndex] = 1 / n` for every row. */
  method FillDangling(M: array2<real>, j: nat)
    requires M.Length0 == M.Length1 && j < M.Length1
    modifies M
    ensures forall i, c :: 0 <= i < M.Length0 && 0 <= c < M.Length1 && c != j ==> M[i, c] == old(M[i, c])
    ensures forall i :: 0 <= i < M.Length0 ==> M[i, j] == 1.0 / (M.Length0 as real)
  {
    var n := M.Length0;
    for i := 0 to n
      invariant forall r, c :: 0 <= r < n && 0 <= c < n && c != j ==> M[r, c] == old(M[r, c])
      invariant forall r :: 0 <= r < i ==> M[r, j] == 1.0 / (n as real)
    {
      M[i, j] := 1.0 / (n as real);
    }
  }

  /** A node with links: `M[targetIndex][sourceIndex] = 1 / outDegree` for
      each neighbour in turn. */
  method FillLinks(M: array2<real>, adj: Adjacency, nodeIds: seq<int>, nodeToIndex: map<int, nat>, j: nat)
    returns (ok: bool)
    requires StrictlyIncreasing(nodeIds)
    requires forall id :: id in nodeIds <==> id in adj
    requires nodeToIndex == NodeIndex(nodeIds)
    requires M.Length0 == M.Length1 == |nodeIds| && j < |nodeIds|
    requires nodeIds[j] in adj && |adj[nodeIds[j]]| > 0
    requires forall i :: 0 <= i < M.Length0 ==> M[i, j] == 0.0
    modifies M
    ensures forall i, c :: 0 <= i < M.Length0 && 0 <= c < M.Length1 && c != j ==> M[i, c] == old(M[i, c])
    ensures ok ==> forall i :: 0 <= i < M.Length0 ==>
      M[i, j] == if nodeIds[i] in adj[nodeIds[j]] then 1.0 / (|adj[nodeIds[j]]| as real) else 0.0
    ensures ok <==> forall t :: t in adj[nodeIds[j]] ==> t in adj
  {
    var n := |nodeIds|;
    var neighbours := adj[nodeIds[j]];
    var outDegree := |neighbours|;
    for k := 0 to outDegree
      invariant forall r, c :: 0 <= r < n && 0 <= c < n && c != j ==> M[r, c] == old(M[r, c])
      invariant forall r :: 0 <= r < n ==>
        M[r, j] == if nodeIds[r] in neighbours[..k] then 1.0 / (outDegree as real) else 0.0
      invariant forall t :: t in neighbours[..k] ==> t in adj
    {
      var targetId := neighbours[k];
      if targetId !in nodeToIndex {
        return false;
      }
      var target := nodeToIndex[targetId];
      NodeIndexInverse(nodeIds, targetId);
      M[target, j] := 1.0 / (outDegree as real);
      assert neighbours[..k + 1] == neighbours[..k] + [targetId];
    }
    assert neighbours[..outDegree] == neighbours;
    return true;
  }

  /** `pr_vector = tf.ones([n, 1]).div(tf.scalar(n))` and the power-iteration
      loop: start from the uniform vector and run the damped,
      normalised step `iterations` times. */
  method PowerIterate(m: seq<seq<real>>, n: nat, iterations: nat, damping: real)
    returns (result: Result<seq<real>, PageRankError>)
    requires n > 0 && IsSquare(m, n)
    ensures result == Iterate(m, Uniform(n), damping, iterations)
  {
    var pr := Uniform(n);
    for iter := 0 to iterations
      invariant |pr| == n
      invariant Iterate(m, pr, damping, iterations - iter) == Iterate(m, Uniform(n), damping, iterations)
    {
      var next := Step(m, pr, damping);
      var sum := Sum(next);
      if sum == 0.0 {
        return Err(NotANumber);
      }
      pr := Normalize(next);
    }
    return Ok(pr);
  }

  /** `nodeIds.forEach((id, index) => result[id] = scores[index][0])`. */
  method ScoresById(nodeIds: seq<int>, pr: seq<real>) returns (scores: map<int, real>)
    requires NoDuplicates(nodeIds) && |pr| == |nodeIds|
    ensures scores == ScoreMap(nodeIds, pr)
  {
    scores := map[];
    for index := 0 to |nodeIds|
      invariant forall k :: 0 <= k < index ==> nodeIds[k] in scores && scores[nodeIds[k]] == pr[k]
      invariant forall id :: id in scores ==> id in nodeIds[..index]
    {
      scores := scores[nodeIds[index] := pr[index]];
    }
    assert nodeIds[..|nodeIds|] == nodeIds;
    forall id | id in scores ensures scores[id] == pr[IndexOf(nodeIds, id)] {
      var k :| 0 <= k < |nodeIds| && nodeIds[k] == id;
      IndexOfDistinct(nodeIds, k);
    }
  }

  // ---------------------------------------------------------------------
  // Properties of the model

  /** A probability vector: non-empty, non-negative, summing to one. */
  predicate IsDistribution(r: seq<real>) {
    |r| > 0 && NonNegative(r) && Sum(r) == 1.0
  }

  predicate NonNegativeMatrix(m: seq<seq<real>>) {
    forall i, j :: 0 <= i < |m| && 0 <= j < |m[i]| ==> m[i][j] >= 0.0
  }

  predicate ColumnHasPositive(m: seq<seq<real>>, n: nat, j: nat)
    requires IsSquare(m, n) && j < n
  {
    exists i :: 0 <= i < n && m[i][j] > 0.0
  }

  /** Every column holds a positive entry: every node passes its score on. */
  predicate EveryColumnReached(m: seq<seq<real>>, n: nat)
    requires IsSquare(m, n)
  {
    forall j :: 0 <= j < n ==> ColumnHasPositive(m, n, j)
  }

  function Column(m: seq<seq<real>>, n: nat, j: nat): seq<real>
    requires IsSquare(m, n) && j < n
  {
    seq(n, i requires 0 <= i < n => m[i][j])
  }

  /** The scores of a result listed in the order of `ids`. */
  function InOrder(scores: map<int, real>, ids: seq<int>): seq<real>
    requires forall j :: 0 <= j < |ids| ==> ids[j] in scores
  {
    seq(|ids|, j requires 0 <= j < |ids| => scores[ids[j]])
  }

  /** `nodeToIndex` and the sorted ids are inverse to each other. */
  lemma NodeIndexBijection(adj: Adjacency)
    ensures var ids := NodeIds(adj);
      && StrictlyIncreasing(ids)
      && NodeIndex(ids).Keys == adj.Keys
      && (forall id :: id in adj ==> NodeIndex(ids)[id] < |ids| && ids[NodeIndex(ids)[id]] == id)
      && (forall i :: 0 <= i < |ids| ==> NodeIndex(ids)[ids[i]] == i)
  {
    var ids := NodeIds(adj);
    NodeIndexKeys(adj);
    NodeIndexOfPosition(ids);
    forall id | id in adj ensures NodeIndex(ids)[id] < |ids| && ids[NodeIndex(ids)[id]] == id {
      NodeIndexInverse(ids, id);
    }
  }

  lemma NodeIndexKeys(adj: Adjacency)
    ensures NodeIndex(NodeIds(adj)).Keys == adj.Keys
  {
    NodeIdsOfGraph(adj);
  }

  lemma NodeIndexOfPosition(ids: seq<int>)
    requires NoDuplicates(ids)
    ensures forall i :: 0 <= i < |ids| ==> NodeIndex(ids)[ids[i]] == i
  {
    forall i | 0 <= i < |ids| ensures NodeIndex(ids)[ids[i]] == i {
      IndexOfDistinct(ids, i);
    }
  }

  /** `tf.ones([n, 1]).div(n)` is the uniform distribution. */
  lemma UniformIsDistribution(n: nat)
    requires n > 0
    ensures IsDistribution(Uniform(n))
    ensures forall i :: 0 <= i < n ==> Uniform(n)[i] == 1.0 / (n as real)
  {
    SumConstant(Uniform(n), 1.0 / (n as real));
    assert (n as real) * (1.0 / (n as real)) == 1.0;
  }

  /** A dangling node's column is uniform and carries a total weight of one. */
  lemma DanglingColumn(adj: Adjacency, j: nat)
    requires j < |NodeIds(adj)|
    requires adj[NodeIds(adj)[j]] == []
    ensures var ids := NodeIds(adj);
      var m := Transition(adj, ids);
      && IsSquare(m, |ids|)
      && (forall i :: 0 <= i < |ids| ==> m[i][j] == 1.0 / (|ids| as real))
      && Sum(Column(m, |ids|, j)) == 1.0
  {
    NodeIdsOfGraph(adj);
    DanglingColumnOf(adj, NodeIds(adj), j);
  }

  lemma DanglingColumnOf(adj: Adjacency, ids: seq<int>, j: nat)
    requires ListsNodes(adj, ids)
    requires j < |ids| && adj[ids[j]] == []
    ensures var m := Transition(adj, ids);
      && IsSquare(m, |ids|)
      && (forall i :: 0 <= i < |ids| ==> m[i][j] == 1.0 / (|ids| as real))
      && Sum(Column(m, |ids|, j)) == 1.0
  {
    var n := |ids|;
    var m := Transition(adj, ids);
    SumConstant(Column(m, n, j), 1.0 / (n as real));
    assert (n as real) * (1.0 / (n as real)) == 1.0;
  }

  /** A linked node's column holds `1/outDegree` in the row of each distinct
      neighbour and zero elsewhere, so it carries `distinct / outDegree`:
      exactly one when the neighbour list has no repeats, less when it has. */
  lemma LinkedColumn(adj: Adjacency, j: nat)
    requires NeighboursKnown(adj)
    requires j < |NodeIds(adj)|
    requires adj[NodeIds(adj)[j]] != []
    ensures var ids := NodeIds(adj);
      var neighbours := adj[ids[j]];
      var m := Transition(adj, ids);
      && IsSquare(m, |ids|)
      && (forall i :: 0 <= i < |ids| ==>
            m[i][j] == if ids[i] in neighbours then 1.0 / (|neighbours| as real) else 0.0)
      && Sum(Column(m, |ids|, j)) == (|Elements(neighbours)| as real) / (|neighbours| as real)
      && (NoDuplicates(neighbours) ==> Sum(Column(m, |ids|, j)) == 1.0)
  {
    NodeIdsOfGraph(adj);
    LinkedColumnOf(adj, NodeIds(adj), j);
  }

  lemma LinkedColumnOf(adj: Adjacency, ids: seq<int>, j: nat)
    requires NeighboursKnown(adj) && ListsNodes(adj, ids)
    requires j < |ids| && adj[ids[j]] != []
    ensures var neighbours := adj[ids[j]];
      var m := Transition(adj, ids);
      && IsSquare(m, |ids|)
      && (forall i :: 0 <= i < |ids| ==>
            m[i][j] == if ids[i] in neighbours then 1.0 / (|neighbours| as real) else 0.0)
      && Sum(Column(m, |ids|, j)) == (|Elements(neighbours)| as real) / (|neighbours| as real)
      && (NoDuplicates(neighbours) ==> Sum(Column(m, |ids|, j)) == 1.0)
  {
    var neighbours := adj[ids[j]];
    LinkedColumnCount(adj, ids, j);
    LinkedColumnEntries(adj, ids, j);
    if NoDuplicates(neighbours) {
      DistinctCard(neighbours);
    }
    ShareOfTotal(|Elements(neighbours)|, |neighbours|);
  }

  /** `distinct` shares of `1/total` make `distinct / total`, which is one
      when `distinct == total`. */
  lemma ShareOfTotal(distinct: nat, total: nat)
    requires total > 0
    ensures Times(distinct, 1.0 / (total as real)) == (distinct as real) / (total as real)
    ensures distinct == total ==> Times(distinct, 1.0 / (total as real)) == 1.0
  {
    TimesIsProduct(distinct, 1.0 / (total as real));
    SelfDivision(total as real);
  }

  /** `k * c` as repeated addition, which keeps the counting proofs linear;
      `TimesIsProduct` shows it is the product. */
  function Times(k: nat, c: real): real {
    if k == 0 then 0.0 else Times(k - 1, c) + c
  }

  lemma {:induction false} TimesIsProduct(k: nat, c: real)
    ensures Times(k, c) == (k as real) * c
  {
    if k > 0 {
      TimesIsProduct(k - 1, c);
      assert ((k - 1) as real) * c + c == (k as real) * c;
    }
  }

  lemma LinkedColumnCount(adj: Adjacency, ids: seq<int>, j: nat)
    requires NeighboursKnown(adj) && ListsNodes(adj, ids)
    requires j < |ids| && adj[ids[j]] != []
    ensures var neighbours := adj[ids[j]];
      var m := Transition(adj, ids);
      && IsSquare(m, |ids|)
      && Sum(Column(m, |ids|, j)) == Times(|Elements(neighbours)|, 1.0 / (|neighbours| as real))
  {
    var neighbours := adj[ids[j]];
    var m := Transition(adj, ids);
    var c := 1.0 / (|neighbours| as real);
    TransitionIsSquare(adj, ids);
    var column := Column(m, |ids|, j);
    var listed := Elements(neighbours);
    LinkedColumnEntries(adj, ids, j);
    KnownNeighboursAreListed(adj, ids, j);
    CountedColumn(ids, listed, column, c);
  }

  /** A column holding `c` in the rows of the ids in `listed`, all of which
      are among `ids`, and zero elsewhere sums to `c` times their number. */
  lemma CountedColumn(ids: seq<int>, listed: set<int>, column: seq<real>, c: real)
    requires NoDuplicates(ids) && |column| == |ids|
    requires forall i :: 0 <= i < |column| ==> column[i] == if ids[i] in listed then c else 0.0
    requires Elements(ids) * listed == listed
    ensures Sum(column) == Times(|listed|, c)
  {
    CountedSum(ids, listed, column, c);
  }

  /** Row `i` of a linked node's column holds `1/outDegree` exactly when
      node `i` is among its neighbours. */
  lemma LinkedColumnEntries(adj: Adjacency, ids: seq<int>, j: nat)
    requires NeighboursKnown(adj) && ListsNodes(adj, ids)
    requires j < |ids| && adj[ids[j]] != []
    requires IsSquare(Transition(adj, ids), |ids|)
    ensures var neighbours := adj[ids[j]];
      var column := Column(Transition(adj, ids), |ids|, j);
      forall i :: 0 <= i < |ids| ==>
        column[i] == if ids[i] in Elements(neighbours) then 1.0 / (|neighbours| as real) else 0.0
  {
    var neighbours := adj[ids[j]];
    var m := Transition(adj, ids);
    var column := Column(m, |ids|, j);
    forall i | 0 <= i < |ids|
      ensures column[i] == if ids[i] in Elements(neighbours) then 1.0 / (|neighbours| as real) else 0.0
    {
      assert column[i] == m[i][j] == Entry(adj, ids, i, j);
      assert ids[i] in Elements(neighbours) <==> ids[i] in neighbours;
    }
  }

  lemma KnownNeighboursAreListed(adj: Adjacency, ids: seq<int>, j: nat)
    requires NeighboursKnown(adj) && ListsNodes(adj, ids)
    requires j < |ids|
    ensures Elements(ids) * Elements(adj[ids[j]]) == Elements(adj[ids[j]])
  {
    var source := ids[j];
    forall t | t in Elements(adj[source]) ensures t in Elements(ids) {
      assert source in adj && t in adj[source];
    }
  }

  /** Summing `c` once for each distinct id that lies in `s`. */
  lemma {:induction false} CountedSum(ids: seq<int>, s: set<int>, v: seq<real>, c: real)
    requires NoDuplicates(ids) && |v| == |ids|
    requires forall i :: 0 <= i < |v| ==> v[i] == if ids[i] in s then c else 0.0
    ensures Sum(v) == Times(|Elements(ids) * s|, c)
  {
    if v != [] {
      var k := |v| - 1;
      var idsK, vK := ids[..k], v[..k];
      assert forall i :: 0 <= i < k ==> idsK[i] == ids[i] && vK[i] == v[i];
      CountedSum(idsK, s, vK, c);
      CountedSumStep(ids, s, v, c);
    } else {
      assert Elements(ids) * s == {};
    }
  }

  lemma CountedSumStep(ids: seq<int>, s: set<int>, v: seq<real>, c: real)
    requires NoDuplicates(ids) && |v| == |ids| && v != []
    requires v[|v| - 1] == if ids[|v| - 1] in s then c else 0.0
    requires Sum(v[..|v| - 1]) == Times(|Elements(ids[..|v| - 1]) * s|, c)
    ensures Sum(v) == Times(|Elements(ids) * s|, c)
  {
    var k := |v| - 1;
    CountSnoc(ids, s);
    var count := |Elements(ids[..k]) * s|;
    assert Sum(v) == Times(count, c) + v[k];
    if ids[k] in s {
      assert |Elements(ids) * s| == count + 1;
    } else {
      assert |Elements(ids) * s| == count;
    }
  }

  /** Appending a new id adds one to the count when the id lies in `s`. */
  lemma CountSnoc(ids: seq<int>, s: set<int>)
    requires NoDuplicates(ids) && ids != []
    ensures var k := |ids| - 1;
      |Elements(ids) * s| == |Elements(ids[..k]) * s| + (if ids[k] in s then 1 else 0)
  {
    var k := |ids| - 1;
    var init := ids[..k];
    var last := ids[k];
    var before := Elements(init) * s;
    assert Elements(ids) == Elements(init) + {last} by {
      assert ids == init + [last];
    }
    assert last !in Elements(init);
    if last in s {
      assert Elements(ids) * s == before + {last};
    } else {
      assert Elements(ids) * s == before;
    }
  }

  /** The transition matrix of a graph whose neighbours are all known is
      square, non-negative, and every column has a positive entry. */
  lemma TransitionShape(adj: Adjacency, ids: seq<int>)
    requires NeighboursKnown(adj) && ListsNodes(adj, ids)
    ensures var m := Transition(adj, ids);
      && IsSquare(m, |ids|)
      && NonNegativeMatrix(m)
      && EveryColumnReached(m, |ids|)
  {
    TransitionIsSquare(adj, ids);
    TransitionNonNegative(adj, ids);
    TransitionColumnsReached(adj, ids);
  }

  lemma TransitionIsSquare(adj: Adjacency, ids: seq<int>)
    requires forall j :: 0 <= j < |ids| ==> ids[j] in adj
    ensures IsSquare(Transition(adj, ids), |ids|)
  {
  }

  lemma TransitionNonNegative(adj: Adjacency, ids: seq<int>)
    requires forall j :: 0 <= j < |ids| ==> ids[j] in adj
    ensures NonNegativeMatrix(Transition(adj, ids))
  {
  }

  lemma TransitionColumnsReached(adj: Adjacency, ids: seq<int>)
    requires NeighboursKnown(adj) && ListsNodes(adj, ids)
    ensures IsSquare(Transition(adj, ids), |ids|)
    ensures EveryColumnReached(Transition(adj, ids), |ids|)
  {
    var n := |ids|;
    var m := Transition(adj, ids);
    TransitionIsSquare(adj, ids);
    forall j | 0 <= j < n ensures ColumnHasPositive(m, n, j) {
      var neighbours := adj[ids[j]];
      if neighbours == [] {
        assert m[0][j] > 0.0;
      } else {
        var source := ids[j];
        assert source in adj && neighbours[0] in adj[source];
        var i := IndexOf(ids, neighbours[0]);
        assert m[i][j] > 0.0;
      }
    }
  }

  /** With `0 <= damping <= 1`, a step from a distribution is non-negative
      and has a positive sum, so the division never yields NaN. */
  lemma StepHasPositiveSum(m: seq<seq<real>>, r: seq<real>, damping: real)
    requires IsDistribution(r) && IsSquare(m, |r|)
    requires NonNegativeMatrix(m) && EveryColumnReached(m, |r|)
    requires 0.0 <= damping <= 1.0
    ensures NonNegative(Step(m, r, damping))
    ensures Sum(Step(m, r, damping)) > 0.0
  {
    var t := Step(m, r, damping);
    StepAtLeastTeleport(m, r, damping);
    if damping < 1.0 {
      TeleportBounds(damping, |r|);
      SumAtLeastEntry(t, 0);
    } else {
      var i := UndampedStepPositive(m, r);
      SumAtLeastEntry(t, i);
    }
  }

  /** Every entry of a step is at least the teleport term. */
  lemma StepAtLeastTeleport(m: seq<seq<real>>, r: seq<real>, damping: real)
    requires IsDistribution(r) && IsSquare(m, |r|) && NonNegativeMatrix(m)
    requires 0.0 <= damping <= 1.0
    ensures forall i :: 0 <= i < |r| ==> Step(m, r, damping)[i] >= (1.0 - damping) / (|r| as real)
    ensures NonNegative(Step(m, r, damping))
  {
    var n := |r|;
    var t := Step(m, r, damping);
    var teleport := (1.0 - damping) / (n as real);
    TeleportBounds(damping, n);
    forall i | 0 <= i < n ensures t[i] >= teleport {
      DotNonNegative(m[i], r);
      DampedAtLeastTeleport(Dot(m[i], r), damping, teleport);
    }
  }

  /** Without damping, a node that holds some score passes it on: some
      entry of the step is positive. */
  lemma UndampedStepPositive(m: seq<seq<real>>, r: seq<real>) returns (i: nat)
    requires IsDistribution(r) && IsSquare(m, |r|)
    requires NonNegativeMatrix(m) && EveryColumnReached(m, |r|)
    ensures i < |r| && Step(m, r, 1.0)[i] > 0.0
  {
    var n := |r|;
    var k := PositiveSumHasPositiveEntry(r);
    assert ColumnHasPositive(m, n, k);
    i :| 0 <= i < n && m[i][k] > 0.0;
    DotAtLeastTerm(m[i], r, k);
    PositiveProduct(m[i][k], r[k]);
    UndampedStep(Dot(m[i], r), n);
  }

  /** The teleport term `(1 - damping) / n` is non-negative, and positive
      when `damping < 1`. */
  lemma TeleportBounds(damping: real, n: nat)
    requires 0.0 <= damping <= 1.0 && n > 0
    ensures (1.0 - damping) / (n as real) >= 0.0
    ensures damping < 1.0 ==> (1.0 - damping) / (n as real) > 0.0
  {
  }

  lemma DampedAtLeastTeleport(d: real, damping: real, teleport: real)
    requires d >= 0.0 && damping >= 0.0
    ensures d * damping + teleport >= teleport
  {
  }

  lemma PositiveProduct(x: real, y: real)
    requires x > 0.0 && y > 0.0
    ensures x * y > 0.0
  {
  }

  /** Without damping a step is the matrix product alone. */
  lemma UndampedStep(d: real, n: nat)
    requires n > 0
    ensures d * 1.0 + (1.0 - 1.0) / (n as real) == d
  {
  }

  /** Dividing a non-negative vector by its positive sum gives a distribution. */
  lemma NormalizeIsDistribution(v: seq<real>)
    requires |v| > 0 && NonNegative(v) && Sum(v) > 0.0
    ensures IsDistribution(Normalize(v))
  {
    var total := Sum(v);
    var w := Normalize(v);
    assert forall i :: 0 <= i < |v| ==> w[i] == v[i] / total;
    SumDivided(v, w, total);
    SelfDivision(total);
    forall i | 0 <= i < |w| ensures w[i] >= 0.0 {
      QuotientNonNegative(v[i], total);
    }
  }

  lemma QuotientNonNegative(x: real, y: real)
    requires x >= 0.0 && y > 0.0
    ensures x / y >= 0.0
  {
  }

  lemma {:induction false} IterateIsDistribution(m: seq<seq<real>>, r: seq<real>, damping: real, k: nat)
    requires IsDistribution(r) && IsSquare(m, |r|)
    requires NonNegativeMatrix(m) && EveryColumnReached(m, |r|)
    requires 0.0 <= damping <= 1.0
    ensures Iterate(m, r, damping, k).Ok?
    ensures IsDistribution(Iterate(m, r, damping, k).value)
    decreases k
  {
    if k > 0 {
      StepHasPositiveSum(m, r, damping);
      var t := Step(m, r, damping);
      NormalizeIsDistribution(t);
      IterateIsDistribution(m, Normalize(t), damping, k - 1);
    }
  }

  /** For a damping factor in [0, 1] and a graph whose neighbours are all
      nodes, the result has one non-negative score per node and the scores
      sum to one, after any number of iterations. */
  lemma RankIsDistribution(adj: Adjacency, iterations: nat, damping: real)
    requires adj != map[]
    requires NeighboursKnown(adj)
    requires 0.0 <= damping <= 1.0
    ensures var result := Rank(adj, iterations, damping);
      && result.Ok?
      && result.value.Keys == adj.Keys
      && (forall id :: id in result.value ==> result.value[id] >= 0.0)
      && (forall j :: 0 <= j < |NodeIds(adj)| ==> NodeIds(adj)[j] in result.value)
      && Sum(InOrder(result.value, NodeIds(adj))) == 1.0
  {
    var ids := NodeIds(adj);
    NodeIdsOfGraph(adj);
    SomeNode(adj);
    var m := Transition(adj, ids);
    var start := Uniform(|ids|);
    TransitionShape(adj, ids);
    UniformIsDistribution(|ids|);
    IterateIsDistribution(m, start, damping, iterations);
    var r := Iterate(m, start, damping, iterations).value;
    ScoreMapOfDistribution(adj, ids, r);
    assert Rank(adj, iterations, damping) == Ok(ScoreMap(ids, r));
  }

  /** A non-empty graph has at least one node id. */
  lemma SomeNode(adj: Adjacency)
    requires adj != map[]
    ensures |NodeIds(adj)| > 0
  {
    NodeIdsOfGraph(adj);
  }

  lemma ScoreMapOfDistribution(adj: Adjacency, ids: seq<int>, r: seq<real>)
    requires ListsNodes(adj, ids) && |r| == |ids|
    requires IsDistribution(r)
    ensures ScoreMap(ids, r).Keys == adj.Keys
    ensures forall id :: id in ScoreMap(ids, r) ==> ScoreMap(ids, r)[id] >= 0.0
    ensures Sum(InOrder(ScoreMap(ids, r), ids)) == 1.0
  {
    var scores := ScoreMap(ids, r);
    assert forall id :: id in scores <==> id in adj;
    assert InOrder(scores, ids) == r by {
      forall i | 0 <= i < |ids| ensures scores[ids[i]] == r[i] {
        IndexOfDistinct(ids, i);
      }
    }
  }

  /** With no iterations, every node scores `1/n`. */
  lemma ZeroIterationsUniform(adj: Adjacency, damping: real)
    requires adj != map[]
    requires NeighboursKnown(adj)
    ensures Rank(adj, 0, damping) == Ok(map id | id in adj :: 1.0 / (|adj| as real))
  {
    NodeIdsOfGraph(adj);
    var ids := NodeIds(adj);
    assert |ids| > 0 by {
      if forall id :: id !in adj {
        assert false;
      }
    }
    UniformScoreMap(adj, ids);
  }

  lemma UniformScoreMap(adj: Adjacency, ids: seq<int>)
    requires ListsNodes(adj, ids) && |ids| == |adj| > 0
    ensures ScoreMap(ids, Uniform(|ids|)) == map id | id in adj :: 1.0 / (|adj| as real)
  {
    var scores := ScoreMap(ids, Uniform(|ids|));
    assert forall id :: id in scores <==> id in adj;
    forall id | id in scores ensures scores[id] == 1.0 / (|adj| as real) {
      UniformIsDistribution(|ids|);
    }
  }

  /** A graph of one node gives that node the score one. */
  lemma SingleNodeScoresOne(adj: Adjacency, id: int, iterations: nat, damping: real)
    requires adj.Keys == {id}
    requires NeighboursKnown(adj)
    requires 0.0 <= damping <= 1.0
    ensures Rank(adj, iterations, damping) == Ok(map[id := 1.0])
  {
    RankIsDistribution(adj, iterations, damping);
    NodeIdsOfGraph(adj);
    var ids := NodeIds(adj);
    var scores := Rank(adj, iterations, damping).value;
    assert ids == [id] by {
      assert |ids| == 1 && ids[0] in adj;
    }
    assert InOrder(scores, ids) == [scores[id]];
    assert scores == map[id := 1.0];
  }
}
