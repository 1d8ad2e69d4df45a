/**
 * Cosine similarity as the chat route computes it: three left folds (the
 * dot product and the two sums of squares) and one division. `Math.sqrt` is an
 * oracle passed in as `sqrt`; everything else is exact arithmetic on reals.
 */
module VectorMath {
  import opened Index

  /** `a.reduce((sum, val, i) => sum + val * b[i], 0)`, folded from the left. */
  function Dot(a: Vector, b: Vector): real
    requires |a| == |b|
    decreases |a|
  {
    if |a| == 0 then 0.0
    else Dot(a[..|a| - 1], b[..|b| - 1]) + a[|a| - 1] * b[|a| - 1]
  }

  /** `a.reduce((sum, val) => sum + val * val, 0)`, folded from the left. */
  function SumSquares(a: Vector): real
    decreases |a|
  {
    if |a| == 0 then 0.0
    else SumSquares(a[..|a| - 1]) + a[|a| - 1] * a[|a| - 1]
  }

  function Magnitude(a: Vector, sqrt: real -> real): real
  {
    sqrt(SumSquares(a))
  }

  /**
   * Both vectors must have one length (the code indexes `b[i]` for every `i`
   * of `a`) and the product of the magnitudes must not be zero (otherwise the
   * code divides by zero and yields NaN).
   */
  predicate Comparable(a: Vector, b: Vector, sqrt: real -> real)
  {
    |a| == |b| && Magnitude(a, sqrt) * Magnitude(b, sqrt) != 0.0
  }

  function CosineSimilarity(a: Vector, b: Vector, sqrt: real -> real): real
    requires Comparable(a, b, sqrt)
  {
    Dot(a, b) / (Magnitude(a, sqrt) * Magnitude(b, sqrt))
  }

  lemma {:induction false} DotSymmetric(a: Vector, b: Vector)
    requires |a| == |b|
    ensures Dot(a, b) == Dot(b, a)
    decreases |a|
  {
    if |a| > 0 {
      DotSymmetric(a[..|a| - 1], b[..|b| - 1]);
    }
  }

  lemma {:induction false} DotSelf(a: Vector)
    ensures Dot(a, a) == SumSquares(a)
    decreases |a|
  {
    if |a| > 0 {
      DotSelf(a[..|a| - 1]);
    }
  }

  /** The score does not depend on which vector is the query. */
  lemma CosineSymmetric(a: Vector, b: Vector, sqrt: real -> real)
    requires Comparable(a, b, sqrt)
    ensures Comparable(b, a, sqrt)
    ensures CosineSimilarity(a, b, sqrt) == CosineSimilarity(b, a, sqrt)
  {
    DotSymmetric(a, b);
    assert Magnitude(a, sqrt) * Magnitude(b, sqrt) == Magnitude(b, sqrt) * Magnitude(a, sqrt);
  }

  /**
   * A vector is most similar to itself: the score is exactly 1 whenever the
   * square-root oracle is exact at the vector's sum of squares, which is then
   * strictly positive.
   */
  lemma SelfSimilarity(v: Vector, sqrt: real -> real)
    requires SumSquares(v) != 0.0
    requires sqrt(SumSquares(v)) * sqrt(SumSquares(v)) == SumSquares(v)
    ensures SumSquares(v) > 0.0
    ensures Comparable(v, v, sqrt)
    ensures CosineSimilarity(v, v, sqrt) == 1.0
  {
    SumSquaresNonNegative(v);
    DotSelf(v);
    var m := Magnitude(v, sqrt);
    assert m * m == SumSquares(v);
    assert CosineSimilarity(v, v, sqrt) == SumSquares(v) / SumSquares(v);
  }

  lemma {:induction false} SumSquaresNonNegative(a: Vector)
    ensures SumSquares(a) >= 0.0
    decreases |a|
  {
    if |a| > 0 {
      SumSquaresNonNegative(a[..|a| - 1]);
    }
  }

  /** A zero vector has magnitude zero, so the code's division yields NaN for it. */
  lemma {:induction false} ZeroVectorNotComparable(a: Vector, b: Vector, sqrt: real -> real)
    requires forall i :: 0 <= i < |a| ==> a[i] == 0.0
    requires sqrt(0.0) == 0.0
    ensures !Comparable(a, b, sqrt) && !Comparable(b, a, sqrt)
  {
    ZeroVectorSumSquares(a);
  }

  lemma {:induction false} ZeroVectorSumSquares(a: Vector)
    requires forall i :: 0 <= i < |a| ==> a[i] == 0.0
    ensures SumSquares(a) == 0.0
    decreases |a|
  {
    if |a| > 0 {
      ZeroVectorSumSquares(a[..|a| - 1]);
    }
  }
}
