/** The mini-batch loop of both training routines (`w4/app.js` `train` and
    `Midterm/app.js` `trainModel`): `Math.ceil(n / batchSize)` batches, batch
    `i` being the slice `[i * batchSize, min(i * batchSize + batchSize, n))`.
    What is done with each batch (a gradient step) is not part of this model. */
module Batching {

  /** `Math.ceil(n / size)`. */
  function NumBatches(n: nat, size: nat): nat
    requires size > 0
  {
    (n + size - 1) / size
  }

  /** `NumBatches` is the ceiling: enough batches of `size` to cover `n`,
      and one fewer would not. */
  lemma CeilDivision(n: nat, size: nat)
    requires size > 0
    ensures NumBatches(n, size) * size >= n
    ensures n > 0 ==> (NumBatches(n, size) - 1) * size < n
    ensures n == 0 ==> NumBatches(n, size) == 0
  {
    var q := (n + size - 1) / size;
    var r := (n + size - 1) % size;
    assert n + size - 1 == q * size + r;
  }

  /** `batch * batchSize`, the start of batch `b`, written as repeated
      addition so that the batch bounds stay linear for the verifier;
      `StartIsProduct` shows it is the product. */
  function Start(b: nat, size: nat): nat {
    if b == 0 then 0 else Start(b - 1, size) + size
  }

  lemma {:induction false} StartIsProduct(b: nat, size: nat)
    ensures Start(b, size) == b * size
  {
    if b > 0 {
      StartIsProduct(b - 1, size);
      assert (b - 1) * size + size == b * size;
    }
  }

  /** `Math.min(start + size, n)` for the start of batch `b`. */
  function BatchEnd(b: nat, size: nat, n: nat): nat {
    if Start(b, size) + size < n then Start(b, size) + size else n
  }

  function Flatten<T>(batches: seq<seq<T>>): seq<T> {
    if batches == [] then []
    else Flatten(batches[..|batches| - 1]) + batches[|batches| - 1]
  }

  lemma FlattenSnoc<T>(batches: seq<seq<T>>, slice: seq<T>)
    ensures Flatten(batches + [slice]) == Flatten(batches) + slice
  {
    assert (batches + [slice])[..|batches|] == batches;
  }

  /** `slice` is batch `b` of `xs`: the non-empty slice from the batch's
      start to its end. */
  ghost predicate IsBatch<T>(xs: seq<T>, size: nat, b: nat, slice: seq<T>) {
    Start(b, size) < BatchEnd(b, size, |xs|) <= |xs| &&
    slice == xs[Start(b, size) .. BatchEnd(b, size, |xs|)]
  }

  /** The batches the training loop visits, in order. Each is the
      non-empty slice from its start to its end, of at most `size`
      elements, and together they are `xs` exactly: every interaction is
      trained on once per epoch. */
  method Batches<T>(xs: seq<T>, size: nat) returns (batches: seq<seq<T>>)
    requires size > 0
    ensures |batches| == NumBatches(|xs|, size)
    ensures forall b :: 0 <= b < |batches| ==>
      Start(b, size) < BatchEnd(b, size, |xs|) <= |xs| &&
      batches[b] == xs[Start(b, size) .. BatchEnd(b, size, |xs|)]
    ensures forall b :: 0 <= b < |batches| ==> 0 < |batches[b]| <= size
    ensures Flatten(batches) == xs
  {
    var numBatches := NumBatches(|xs|, size);
    batches := [];
    var batch, done := 0, 0;
    while batch < numBatches
      invariant batch <= numBatches && |batches| == batch
      invariant batch < numBatches ==> done == Start(batch, size)
      invariant batch == numBatches ==> done == |xs|
      invariant done <= |xs|
      invariant forall b :: 0 <= b < batch ==> IsBatch(xs, size, b, batches[b])
      invariant Flatten(batches) == xs[..done]
    {
      BatchStartInRange(batch, numBatches, size, |xs|);
      var start := Start(batch, size);
      var end := if start + size < |xs| then start + size else |xs|;
      BatchStep(xs, size, numBatches, batch, batches);
      batches := batches + [xs[start..end]];
      batch, done := batch + 1, end;
    }
    BatchesCover(xs, size, batches);
  }

  /** One turn of the loop in `Batches`: the next slice is batch `batch`,
      and it ends where the following batch starts, or at the end of `xs`
      after the last batch. */
  lemma BatchStep<T>(xs: seq<T>, size: nat, numBatches: nat, batch: nat, batches: seq<seq<T>>)
    requires size > 0 && numBatches == NumBatches(|xs|, size)
    requires batch < numBatches && |batches| == batch
    requires Start(batch, size) <= |xs| && Flatten(batches) == xs[..Start(batch, size)]
    ensures var end := BatchEnd(batch, size, |xs|);
      && Start(batch, size) < end <= |xs|
      && (batch + 1 < numBatches ==> end == Start(batch + 1, size))
      && (batch + 1 == numBatches ==> end == |xs|)
      && IsBatch(xs, size, batch, xs[Start(batch, size) .. end])
      && Flatten(batches + [xs[Start(batch, size) .. end]]) == xs[..end]
  {
    BatchStartInRange(batch, numBatches, size, |xs|);
    var start, end := Start(batch, size), BatchEnd(batch, size, |xs|);
    var slice := xs[start..end];
    FlattenSnoc(batches, slice);
    assert xs[..start] + slice == xs[..end];
    if batch + 1 < numBatches {
      BatchStartInRange(batch + 1, numBatches, size, |xs|);
    } else {
      LastBatchEnds(batch, numBatches, size, |xs|);
    }
  }

  /** Batches that meet the loop's invariant at its exit are the slices
      `Batches` promises. */
  lemma BatchesCover<T>(xs: seq<T>, size: nat, batches: seq<seq<T>>)
    requires size > 0
    requires forall b :: 0 <= b < |batches| ==> IsBatch(xs, size, b, batches[b])
    requires Flatten(batches) == xs[..|xs|]
    ensures forall b :: 0 <= b < |batches| ==>
      Start(b, size) < BatchEnd(b, size, |xs|) <= |xs| &&
      batches[b] == xs[Start(b, size) .. BatchEnd(b, size, |xs|)]
    ensures forall b :: 0 <= b < |batches| ==> 0 < |batches[b]| <= size
    ensures Flatten(batches) == xs
  {
    assert xs[..|xs|] == xs;
  }

  /** Every batch the loop visits starts inside the data. */
  lemma BatchStartInRange(batch: nat, numBatches: nat, size: nat, n: nat)
    requires size > 0
    requires numBatches == NumBatches(n, size)
    requires batch < numBatches
    ensures Start(batch, size) < n
  {
    StartIsProduct(batch, size);
    CeilDivision(n, size);
    assert n > 0;
    assert batch <= numBatches - 1;
    assert batch * size <= (numBatches - 1) * size;
  }

  /** The last batch reaches the end of the data. */
  lemma LastBatchEnds(batch: nat, numBatches: nat, size: nat, n: nat)
    requires size > 0
    requires numBatches == NumBatches(n, size)
    requires batch + 1 == numBatches
    ensures Start(batch, size) + size >= n
  {
    StartIsProduct(batch, size);
    StartIsProduct(batch + 1, size);
    CeilDivision(n, size);
  }
}
