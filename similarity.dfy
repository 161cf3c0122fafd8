/**
  Cosine similarity between two embeddings, as `calcul_similarite` computes it.

  The source works on `f32`; here every component is a `real`, so rounding is
  not modelled. The square root of the standard library is not something Dafny
  can define, so it is a parameter `sqrt` of every function that needs it: the
  properties below hold for whatever square root the platform supplies, and the
  ones that need something of it say so in their `requires`.
 */
module Cosine {

  /**
    Dot product of `zip(v1, v2)`: pairs are formed up to the shorter length,
    so it is the sum of `v1[i] * v2[i]` over the indices both vectors have.
   */
  function Dot(v1: seq<real>, v2: seq<real>): (r: real)
    ensures r == ProductSum(v1, v2, if |v1| <= |v2| then |v1| else |v2|)
  {
    if |v1| == 0 || |v2| == 0 then
      0.0
    else
      ProductSumFromFront(v1, v2, if |v1| <= |v2| then |v1| else |v2|);
      v1[0] * v2[0] + Dot(v1[1..], v2[1..])
  }

  /** The sum of `v1[i] * v2[i]` over the indices `i < k`, added up from the back. */
  function ProductSum(v1: seq<real>, v2: seq<real>, k: nat): real
    requires k <= |v1| && k <= |v2|
  {
    if k == 0 then 0.0 else ProductSum(v1, v2, k - 1) + v1[k - 1] * v2[k - 1]
  }

  /** `ProductSum` peeled from the front instead of the back. */
  lemma {:induction false} ProductSumFromFront(v1: seq<real>, v2: seq<real>, k: nat)
    requires 0 < k <= |v1| && k <= |v2|
    ensures ProductSum(v1, v2, k) == v1[0] * v2[0] + ProductSum(v1[1..], v2[1..], k - 1)
  {
    if k > 1 {
      ProductSumFromFront(v1, v2, k - 1);
      assert v1[1..][k - 2] == v1[k - 1] && v2[1..][k - 2] == v2[k - 1];
    }
  }

  /** Sum of the squares of the components of `v`. */
  function SumSquares(v: seq<real>): (r: real)
    ensures r >= 0.0
  {
    if |v| == 0 then 0.0 else v[0] * v[0] + SumSquares(v[1..])
  }

  /**
    Euclidean norm of `v`, under the supplied square root: the root of the dot
    product of `v` with itself, never negative when the root is not.
   */
  function Norm(sqrt: real -> real, v: seq<real>): (r: real)
    ensures r == sqrt(Dot(v, v))
    ensures (forall x :: x >= 0.0 ==> sqrt(x) >= 0.0) ==> r >= 0.0
  {
    SumSquaresIsSelfDot(v);
    sqrt(SumSquares(v))
  }

  /**
    Cosine similarity of `v1` and `v2`: the dot product divided by the product
    of the norms, and 0 when either norm is zero (the division-by-zero guard).
   */
  function Similarity(sqrt: real -> real, v1: seq<real>, v2: seq<real>): (r: real)
    ensures Norm(sqrt, v1) == 0.0 || Norm(sqrt, v2) == 0.0 ==> r == 0.0
  {
    var n1 := Norm(sqrt, v1);
    var n2 := Norm(sqrt, v2);
    if n1 == 0.0 || n2 == 0.0 then
      0.0
    else
      assert n1 * n2 != 0.0;
      Dot(v1, v2) / (n1 * n2)
  }

  /**
    With a square root that is non-negative on non-negative arguments, as the
    platform's is, the similarity has the sign of the dot product: it is
    positive exactly when the vectors point the same way and the guard does
    not apply, negative exactly when they point apart, and 0 otherwise.
   */
  lemma SimilarityHasSignOfDot(sqrt: real -> real, v1: seq<real>, v2: seq<real>)
    requires forall x :: x >= 0.0 ==> sqrt(x) >= 0.0
    ensures Similarity(sqrt, v1, v2) > 0.0 <==> Norm(sqrt, v1) != 0.0 && Norm(sqrt, v2) != 0.0 && Dot(v1, v2) > 0.0
    ensures Similarity(sqrt, v1, v2) < 0.0 <==> Norm(sqrt, v1) != 0.0 && Norm(sqrt, v2) != 0.0 && Dot(v1, v2) < 0.0
  {
    var n1, n2 := Norm(sqrt, v1), Norm(sqrt, v2);
    assert n1 >= 0.0 && n2 >= 0.0;
    if n1 != 0.0 && n2 != 0.0 {
      PositiveProduct(n1, n2);
      QuotientSign(Dot(v1, v2), n1 * n2);
    }
  }

  /** The product of two positive reals is positive. */
  lemma PositiveProduct(a: real, b: real)
    requires a > 0.0 && b > 0.0
    ensures a * b > 0.0
  {
  }

  /** Dividing by a positive real keeps the sign. */
  lemma QuotientSign(x: real, d: real)
    requires d > 0.0
    ensures x / d > 0.0 <==> x > 0.0
    ensures x / d < 0.0 <==> x < 0.0
  {
  }

  /** The dot product does not depend on the order of its arguments. */
  lemma {:induction false} DotSymmetric(v1: seq<real>, v2: seq<real>)
    ensures Dot(v1, v2) == Dot(v2, v1)
  {
    if |v1| != 0 && |v2| != 0 {
      DotSymmetric(v1[1..], v2[1..]);
    }
  }

  /** The sum of squares is the dot product of a vector with itself. */
  lemma {:induction false} SumSquaresIsSelfDot(v: seq<real>)
    ensures SumSquares(v) == Dot(v, v)
  {
    if |v| != 0 {
      SumSquaresIsSelfDot(v[1..]);
    }
  }

  /** A vector whose components are all zero has a zero sum of squares. */
  lemma {:induction false} SumSquaresOfZeroVector(v: seq<real>)
    requires forall i :: 0 <= i < |v| ==> v[i] == 0.0
    ensures SumSquares(v) == 0.0
  {
    if |v| != 0 {
      assert forall i :: 0 <= i < |v[1..]| ==> v[1..][i] == v[i + 1];
      SumSquaresOfZeroVector(v[1..]);
    }
  }

  /** Cosine similarity is symmetric, whatever square root is used. */
  lemma SimilaritySymmetric(sqrt: real -> real, v1: seq<real>, v2: seq<real>)
    ensures Similarity(sqrt, v1, v2) == Similarity(sqrt, v2, v1)
  {
    DotSymmetric(v1, v2);
    var n1, n2 := Norm(sqrt, v1), Norm(sqrt, v2);
    assert n1 * n2 == n2 * n1;
  }

  /**
    The zero-norm guard: when the square root maps 0 to 0, a vector whose
    components are all zero has similarity exactly 0 with any vector, on
    either side.
   */
  lemma ZeroVectorHasZeroSimilarity(sqrt: real -> real, zero: seq<real>, v: seq<real>)
    requires sqrt(0.0) == 0.0
    requires forall i :: 0 <= i < |zero| ==> zero[i] == 0.0
    ensures Similarity(sqrt, zero, v) == 0.0
    ensures Similarity(sqrt, v, zero) == 0.0
  {
    SumSquaresOfZeroVector(zero);
  }
}
