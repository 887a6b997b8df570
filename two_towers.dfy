/** The retrieval geometry of the two-tower model (`TwoTowerModel` in
    w4/two-towers.js): embedding lookups, the item/genre concatenation, the
    dot-product score, the in-batch logits and their one-hot labels, and the
    all-items scoring used at inference. The dense layers are an opaque
    function from a concatenated row to an output row; weights, gradients
    and the softmax loss are not part of this model. */
module TwoTowers {
  import opened Vectors

  type Matrix = seq<seq<real>>

  /** `outputDim: 16` of the genre embedding layer. */
  const GenreWidth: nat := 16

  predicate IsMatrix(m: Matrix, rows: nat, cols: nat) {
    |m| == rows && forall k :: 0 <= k < rows ==> |m[k]| == cols
  }

  /** An embedding layer applied to a list of indices: one table row per
      index. */
  function Embed(table: Matrix, indices: seq<nat>): Matrix
    requires forall k :: 0 <= k < |indices| ==> indices[k] < |table|
  {
    seq(|indices|, k requires 0 <= k < |indices| => table[indices[k]])
  }

  /** `tf.concat([itemEmbs, genreEmbs], -1)`: each row of the first matrix
      followed by the same row of the second. */
  function Concat(a: Matrix, b: Matrix): Matrix
    requires |a| == |b|
  {
    seq(|a|, k requires 0 <= k < |a| => a[k] + b[k])
  }

  /** `itemForward`: look up the item and genre embeddings, concatenate
      them, and pass each row through the remaining layers. */
  function ItemForward(itemTable: Matrix, genreTable: Matrix, layers: seq<real> -> seq<real>,
                       itemIndices: seq<nat>, genreIndices: seq<nat>): Matrix
    requires |itemIndices| == |genreIndices|
    requires forall k :: 0 <= k < |itemIndices| ==> itemIndices[k] < |itemTable|
    requires forall k :: 0 <= k < |genreIndices| ==> genreIndices[k] < |genreTable|
  {
    var combined := Concat(Embed(itemTable, itemIndices), Embed(genreTable, genreIndices));
    seq(|combined|, k requires 0 <= k < |combined| => layers(combined[k]))
  }

  /** `score(u, i) = tf.sum(tf.mul(u, i), -1)`: the row-wise dot product. */
  function Score(u: Matrix, items: Matrix): seq<real>
    requires |u| == |items|
    requires forall k :: 0 <= k < |u| ==> |u[k]| == |items[k]|
  {
    seq(|u|, k requires 0 <= k < |u| => Dot(u[k], items[k]))
  }

  /** `tf.matMul(u, items, false, true)`: every row of `u` against every row
      of `items`. */
  function Logits(u: Matrix, items: Matrix, width: nat): Matrix
    requires IsMatrix(u, |u|, width) && IsMatrix(items, |items|, width)
  {
    seq(|u|, k requires 0 <= k < |u| =>
      seq(|items|, j requires 0 <= j < |items| => Dot(u[k], items[j])))
  }

  /** `tf.range(start, stop)`. */
  function Range(start: int, stop: int): seq<int> {
    if stop <= start then [] else seq(stop - start, i => start + i)
  }

  /** `tf.oneHot(indices, depth)`. */
  function OneHot(indices: seq<int>, depth: nat): Matrix {
    seq(|indices|, k requires 0 <= k < |indices| =>
      seq(depth, j requires 0 <= j < depth => if j == indices[k] then 1.0 else 0.0))
  }

  /** The labels of `trainStep` for a batch of `b` pairs. */
  function Labels(b: nat): Matrix {
    OneHot(Range(0, b), b)
  }

  /** `Array.from({length: numItems}, (_, i) => i)`. */
  function AllItemIndices(numItems: nat): seq<nat> {
    seq(numItems, i => i)
  }

  /** `Array(numItems).fill(0)`. */
  function ZeroGenres(numItems: nat): seq<nat> {
    seq(numItems, i => 0)
  }

  /** `getScoresForAllItems`: the one-row product of the user embedding with
      every item embedding. */
  function ScoresForAllItems(user: seq<real>, itemEmbs: Matrix): seq<real>
    requires IsMatrix(itemEmbs, |itemEmbs|, |user|)
  {
    Logits([user], itemEmbs, |user|)[0]
  }

  // ---------------------------------------------------------------------
  // Properties

  /** The logits of a batch of `b` pairs form a `b × b` matrix whose entry
      `(k, j)` scores user `k` against item `j`; swapping the towers
      transposes it. */
  lemma LogitsShape(u: Matrix, items: Matrix, b: nat, width: nat)
    requires IsMatrix(u, b, width) && IsMatrix(items, b, width)
    ensures IsMatrix(Logits(u, items, width), b, b)
    ensures forall k, j :: 0 <= k < b && 0 <= j < b ==>
      Logits(u, items, width)[k][j] == Dot(u[k], items[j])
    ensures forall k, j :: 0 <= k < b && 0 <= j < b ==>
      Logits(u, items, width)[k][j] == Logits(items, u, width)[j][k]
  {
    forall k, j | 0 <= k < b && 0 <= j < b
      ensures Logits(u, items, width)[k][j] == Logits(items, u, width)[j][k]
    {
      DotSymmetric(u[k], items[j]);
    }
  }

  /** The diagonal of the logits is the score of the positive pairs. */
  lemma LogitsDiagonalIsScore(u: Matrix, items: Matrix, b: nat, width: nat)
    requires IsMatrix(u, b, width) && IsMatrix(items, b, width)
    ensures forall k :: 0 <= k < b ==> Logits(u, items, width)[k][k] == Score(u, items)[k]
  {
  }

  /** The labels are the `b × b` identity. */
  lemma LabelsAreIdentity(b: nat)
    ensures IsMatrix(Labels(b), b, b)
    ensures forall k, j :: 0 <= k < b && 0 <= j < b ==> Labels(b)[k][j] == if j == k then 1.0 else 0.0
  {
  }

  /** Against the one-hot labels, row `k` of the logits contributes exactly
      its diagonal entry: the score of user `k` with its own item, the
      positive pair the loss rewards. */
  lemma LabelsSelectPositive(u: Matrix, items: Matrix, b: nat, width: nat)
    requires IsMatrix(u, b, width) && IsMatrix(items, b, width)
    ensures forall k :: 0 <= k < b ==>
      Dot(Labels(b)[k], Logits(u, items, width)[k]) == Score(u, items)[k]
  {
    LabelsAreIdentity(b);
    forall k | 0 <= k < b ensures Dot(Labels(b)[k], Logits(u, items, width)[k]) == Score(u, items)[k] {
      UnitDot(Labels(b)[k], Logits(u, items, width)[k], k);
    }
  }

  /** The dot product with the `k`-th unit vector picks entry `k`. */
  lemma {:induction false} UnitDot(e: seq<real>, v: seq<real>, k: nat)
    requires |e| == |v| && k < |v|
    requires forall j :: 0 <= j < |e| ==> e[j] == if j == k then 1.0 else 0.0
    ensures Dot(e, v) == v[k]
  {
    var n := |e| - 1;
    if k < n {
      UnitDot(e[..n], v[..n], k);
    } else {
      ZeroDot(e[..n], v[..n]);
    }
  }

  lemma {:induction false} ZeroDot(e: seq<real>, v: seq<real>)
    requires |e| == |v|
    requires forall j :: 0 <= j < |e| ==> e[j] == 0.0
    ensures Dot(e, v) == 0.0
  {
    if e != [] {
      ZeroDot(e[..|e| - 1], v[..|v| - 1]);
    }
  }

  /** The item tower's input rows are `embDim + 16` wide: the item
      embedding first, the genre embedding after it. */
  lemma ConcatWidth(itemEmbs: Matrix, genreEmbs: Matrix, n: nat, embDim: nat)
    requires IsMatrix(itemEmbs, n, embDim) && IsMatrix(genreEmbs, n, GenreWidth)
    ensures IsMatrix(Concat(itemEmbs, genreEmbs), n, embDim + GenreWidth)
    ensures forall k :: 0 <= k < n ==>
      && Concat(itemEmbs, genreEmbs)[k][..embDim] == itemEmbs[k]
      && Concat(itemEmbs, genreEmbs)[k][embDim..] == genreEmbs[k]
  {
    forall k | 0 <= k < n
      ensures Concat(itemEmbs, genreEmbs)[k][..embDim] == itemEmbs[k]
      ensures Concat(itemEmbs, genreEmbs)[k][embDim..] == genreEmbs[k]
    {
      assert Concat(itemEmbs, genreEmbs)[k] == itemEmbs[k] + genreEmbs[k];
    }
  }

  /** At inference every item is looked up by its own index, and every item
      gets the embedding of genre 0 whatever its real genres. */
  lemma InferenceLookups(itemTable: Matrix, genreTable: Matrix, numItems: nat)
    requires |itemTable| == numItems && |genreTable| > 0
    ensures |AllItemIndices(numItems)| == |ZeroGenres(numItems)| == numItems
    ensures Embed(itemTable, AllItemIndices(numItems)) == itemTable
    ensures forall k :: 0 <= k < numItems ==> Embed(genreTable, ZeroGenres(numItems))[k] == genreTable[0]
  {
  }

  /** The scores for one user list one entry per item, entry `i` being the
      dot product of the user with item `i`. */
  lemma ScoresForAllItemsAreDots(user: seq<real>, itemEmbs: Matrix)
    requires IsMatrix(itemEmbs, |itemEmbs|, |user|)
    ensures |ScoresForAllItems(user, itemEmbs)| == |itemEmbs|
    ensures forall i :: 0 <= i < |itemEmbs| ==> ScoresForAllItems(user, itemEmbs)[i] == Dot(user, itemEmbs[i])
  {
  }
}
