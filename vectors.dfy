/** Real vectors and the reductions the JavaScript code and its tensor calls
    perform on them: the sum of a vector (`tensor.sum()`, `reduce`), the dot
    product (`tf.sum(tf.mul(u, v), -1)`, `matMul`, the cosine numerator loop).
    Sums run from the first entry to the last, as the source's loops do. */
module Vectors {

  function Sum(v: seq<real>): real {
    if v == [] then 0.0 else Sum(v[..|v| - 1]) + v[|v| - 1]
  }

  function Dot(a: seq<real>, b: seq<real>): real
    requires |a| == |b|
  {
    if a == [] then 0.0
    else Dot(a[..|a| - 1], b[..|b| - 1]) + a[|a| - 1] * b[|b| - 1]
  }

  /** `v.reduce((sum, val) => sum + val * val, 0)`. */
  function SumSquares(v: seq<real>): real {
    if v == [] then 0.0 else SumSquares(v[..|v| - 1]) + v[|v| - 1] * v[|v| - 1]
  }

  predicate NonNegative(v: seq<real>) {
    forall i :: 0 <= i < |v| ==> v[i] >= 0.0
  }

  /** A vector whose entries are all `c` sums to `|v| * c`. */
  lemma {:induction false} SumConstant(v: seq<real>, c: real)
    requires forall i :: 0 <= i < |v| ==> v[i] == c
    ensures Sum(v) == |v| as real * c
  {
    if v != [] {
      SumConstant(v[..|v| - 1], c);
    }
  }

  /** Dividing every entry by `c` divides the sum by `c`. */
  lemma {:induction false} SumDivided(v: seq<real>, w: seq<real>, c: real)
    requires c != 0.0
    requires |w| == |v|
    requires forall i :: 0 <= i < |v| ==> w[i] == v[i] / c
    ensures Sum(w) == Sum(v) / c
  {
    if v != [] {
      SumDivided(v[..|v| - 1], w[..|w| - 1], c);
      calc {
        Sum(w);
        Sum(v[..|v| - 1]) / c + v[|v| - 1] / c;
        (Sum(v[..|v| - 1]) + v[|v| - 1]) / c;
      }
    }
  }

  lemma SelfDivision(x: real)
    requires x != 0.0
    ensures x / x == 1.0
  {
  }

  /** A sum of non-negative entries is at least each of its entries. */
  lemma {:induction false} SumAtLeastEntry(v: seq<real>, k: nat)
    requires NonNegative(v)
    requires k < |v|
    ensures Sum(v) >= v[k] >= 0.0
  {
    var init := v[..|v| - 1];
    if k < |v| - 1 {
      SumAtLeastEntry(init, k);
    } else if init != [] {
      SumAtLeastEntry(init, 0);
    }
  }

  lemma {:induction false} SumNonNegative(v: seq<real>)
    requires NonNegative(v)
    ensures Sum(v) >= 0.0
  {
    if v != [] {
      SumAtLeastEntry(v, 0);
    }
  }

  /** A sum that is positive has a positive entry. */
  lemma {:induction false} PositiveSumHasPositiveEntry(v: seq<real>) returns (k: nat)
    requires Sum(v) > 0.0
    ensures k < |v| && v[k] > 0.0
  {
    var init := v[..|v| - 1];
    if v[|v| - 1] > 0.0 {
      k := |v| - 1;
    } else {
      k := PositiveSumHasPositiveEntry(init);
    }
  }

  /** A dot product of non-negative vectors is at least each of its terms. */
  lemma {:induction false} DotAtLeastTerm(a: seq<real>, b: seq<real>, k: nat)
    requires |a| == |b|
    requires NonNegative(a) && NonNegative(b)
    requires k < |a|
    ensures Dot(a, b) >= a[k] * b[k] >= 0.0
  {
    var n := |a| - 1;
    if k < n {
      DotAtLeastTerm(a[..n], b[..n], k);
      assert a[n] * b[n] >= 0.0;
    } else if n > 0 {
      DotAtLeastTerm(a[..n], b[..n], 0);
    }
  }

  lemma {:induction false} DotNonNegative(a: seq<real>, b: seq<real>)
    requires |a| == |b|
    requires NonNegative(a) && NonNegative(b)
    ensures Dot(a, b) >= 0.0
  {
    if a != [] {
      DotAtLeastTerm(a, b, 0);
    }
  }

  lemma {:induction false} DotSymmetric(a: seq<real>, b: seq<real>)
    requires |a| == |b|
    ensures Dot(a, b) == Dot(b, a)
  {
    if a != [] {
      DotSymmetric(a[..|a| - 1], b[..|b| - 1]);
    }
  }

  /** The sum of squares is the dot product of a vector with itself. */
  lemma {:induction false} SumSquaresIsDot(v: seq<real>)
    ensures SumSquares(v) == Dot(v, v)
  {
    if v != [] {
      SumSquaresIsDot(v[..|v| - 1]);
    }
  }

  lemma {:induction false} SumSquaresNonNegative(v: seq<real>)
    ensures SumSquares(v) >= 0.0
  {
    if v != [] {
      SumSquaresNonNegative(v[..|v| - 1]);
      assert v[|v| - 1] * v[|v| - 1] >= 0.0;
    }
  }
}
