/**
 * 4x4 homogeneous matrices in the row-vector convention: a point is a row
 * `(x, y, z, 1)` multiplied on the left of the matrix, so the translation
 * lives in row 3.
 */
module Matrices {

  predicate Is4x4(m: seq<seq<real>>)
  {
    |m| == 4 && forall i :: 0 <= i < 4 ==> |m[i]| == 4
  }

  type Matrix4x4 = m: seq<seq<real>> | Is4x4(m)
    witness [[0.0, 0.0, 0.0, 0.0], [0.0, 0.0, 0.0, 0.0], [0.0, 0.0, 0.0, 0.0], [0.0, 0.0, 0.0, 0.0]]

  /** A homogeneous row vector `(x, y, z, w)`. */
  type Vector4 = s: seq<real> | |s| == 4 witness [0.0, 0.0, 0.0, 0.0]

  /** The value-initialised matrix `Matrix4x4 r {}`: every entry zero. */
  const Zero: Matrix4x4 := [[0.0, 0.0, 0.0, 0.0], [0.0, 0.0, 0.0, 0.0], [0.0, 0.0, 0.0, 0.0], [0.0, 0.0, 0.0, 0.0]]

  const Identity: Matrix4x4 := [[1.0, 0.0, 0.0, 0.0], [0.0, 1.0, 0.0, 0.0], [0.0, 0.0, 1.0, 0.0], [0.0, 0.0, 0.0, 1.0]]

  /** The row vector `v` times `m`: component `j` is the dot product of `v` with column `j`. */
  function RowTimes(v: Vector4, m: Matrix4x4): Vector4
  {
    seq(4, (j: int) requires 0 <= j < 4 => v[0] * m[0][j] + v[1] * m[1][j] + v[2] * m[2][j] + v[3] * m[3][j])
  }

  /**
   * The matrix product `a * b`: row `i` of the product is row `i` of `a`
   * pushed through `b`.
   */
  function Product(a: Matrix4x4, b: Matrix4x4): Matrix4x4
  {
    seq(4, (i: int) requires 0 <= i < 4 => RowTimes(a[i], b))
  }

  /** The first `n` terms of entry `(i, j)` of `a * b`, summed in the order `k = 0, 1, ...`. */
  function Accumulated(a: Matrix4x4, b: Matrix4x4, i: nat, j: nat, n: nat): real
    requires i < 4 && j < 4 && n <= 4
  {
    (if 0 < n then a[i][0] * b[0][j] else 0.0)
    + (if 1 < n then a[i][1] * b[1][j] else 0.0)
    + (if 2 < n then a[i][2] * b[2][j] else 0.0)
    + (if 3 < n then a[i][3] * b[3][j] else 0.0)
  }

  /**
   * Multiplies two matrices by accumulating every entry into a
   * zero-initialised result, innermost index `k` last.
   */
  method Multiply(a: Matrix4x4, b: Matrix4x4) returns (r: Matrix4x4)
    ensures forall i, j :: 0 <= i < 4 && 0 <= j < 4 ==>
      r[i][j] == a[i][0] * b[0][j] + a[i][1] * b[1][j] + a[i][2] * b[2][j] + a[i][3] * b[3][j]
    ensures r == Product(a, b)
  {
    var acc: seq<seq<real>> := Zero;
    for i := 0 to 4
      invariant Is4x4(acc)
      invariant forall p, q :: 0 <= p < i && 0 <= q < 4 ==> acc[p][q] == Accumulated(a, b, p, q, 4)
      invariant forall p :: i <= p < 4 ==> acc[p] == Zero[p]
    {
      for j := 0 to 4
        invariant Is4x4(acc)
        invariant forall p, q :: 0 <= p < i && 0 <= q < 4 ==> acc[p][q] == Accumulated(a, b, p, q, 4)
        invariant forall q :: 0 <= q < j ==> acc[i][q] == Accumulated(a, b, i, q, 4)
        invariant forall q :: j <= q < 4 ==> acc[i][q] == 0.0
        invariant forall p :: i < p < 4 ==> acc[p] == Zero[p]
      {
        for k := 0 to 4
          invariant Is4x4(acc)
          invariant forall p, q :: 0 <= p < i && 0 <= q < 4 ==> acc[p][q] == Accumulated(a, b, p, q, 4)
          invariant forall q :: 0 <= q < j ==> acc[i][q] == Accumulated(a, b, i, q, 4)
          invariant acc[i][j] == Accumulated(a, b, i, j, k)
          invariant forall q :: j < q < 4 ==> acc[i][q] == 0.0
          invariant forall p :: i < p < 4 ==> acc[p] == Zero[p]
        {
          AccumulatedStep(a, b, i, j, k);
          acc := acc[i := acc[i][j := acc[i][j] + a[i][k] * b[k][j]]];
        }
      }
    }
    r := acc;
    forall p | 0 <= p < 4
      ensures r[p] == Product(a, b)[p]
    {
      forall q | 0 <= q < 4
        ensures r[p][q] == Product(a, b)[p][q]
      {
        AccumulatedComplete(a, b, p, q);
      }
    }
  }

  /** One more step of the innermost loop adds the next term. */
  lemma AccumulatedStep(a: Matrix4x4, b: Matrix4x4, i: nat, j: nat, k: nat)
    requires i < 4 && j < 4 && k < 4
    ensures Accumulated(a, b, i, j, k + 1) == Accumulated(a, b, i, j, k) + a[i][k] * b[k][j]
  {
  }

  /** All four terms accumulated give the entry of the product. */
  lemma AccumulatedComplete(a: Matrix4x4, b: Matrix4x4, i: nat, j: nat)
    requires i < 4 && j < 4
    ensures Accumulated(a, b, i, j, 4) == Product(a, b)[i][j]
  {
    assert Product(a, b)[i] == RowTimes(a[i], b);
    RowTimesAt(a[i], b, j);
  }

  /** Matrices whose last column is `(0, 0, 0, 1)`: they never produce a `w` other than 1. */
  predicate IsAffine(m: Matrix4x4)
  {
    m[0][3] == 0.0 && m[1][3] == 0.0 && m[2][3] == 0.0 && m[3][3] == 1.0
  }

  /** The identity is a left unit of the product. */
  lemma ProductIdentityLeft(m: Matrix4x4)
    ensures Product(Identity, m) == m
  {
    var r := Product(Identity, m);
    forall i | 0 <= i < 4
      ensures r[i] == m[i]
    {
      assert r[i] == RowTimes(Identity[i], m);
    }
  }

  /** The identity is a right unit of the product. */
  lemma ProductIdentityRight(m: Matrix4x4)
    ensures Product(m, Identity) == m
  {
    var r := Product(m, Identity);
    forall i | 0 <= i < 4
      ensures r[i] == m[i]
    {
      assert r[i] == RowTimes(m[i], Identity);
      forall j | 0 <= j < 4
        ensures r[i][j] == m[i][j]
      {
        if j == 0 {} else if j == 1 {} else if j == 2 {} else {}
      }
    }
  }

  /** The product of two affine matrices is affine. */
  lemma ProductAffine(a: Matrix4x4, b: Matrix4x4)
    requires IsAffine(a) && IsAffine(b)
    ensures IsAffine(Product(a, b))
  {
    var r := Product(a, b);
    forall i | 0 <= i < 4
      ensures r[i][3] == a[i][3]
    {
      assert r[i] == RowTimes(a[i], b);
    }
  }

  /** Component `j` of `w * m`, written out. */
  lemma RowTimesAt(w: Vector4, m: Matrix4x4, j: nat)
    requires j < 4
    ensures RowTimes(w, m)[j] == w[0] * m[0][j] + w[1] * m[1][j] + w[2] * m[2][j] + w[3] * m[3][j]
  {
  }

  /** The sum of two row vectors. */
  function Plus(x: Vector4, y: Vector4): Vector4
  {
    seq(4, (j: int) requires 0 <= j < 4 => x[j] + y[j])
  }

  /** The row vector `x` scaled by `s`. */
  function Times(s: real, x: Vector4): Vector4
  {
    seq(4, (j: int) requires 0 <= j < 4 => s * x[j])
  }

  /** The rows of `m` weighted by the components of `v` and summed. */
  function Combination(v: Vector4, m: Matrix4x4): Vector4
  {
    Plus(Plus(Plus(Times(v[0], m[0]), Times(v[1], m[1])), Times(v[2], m[2])), Times(v[3], m[3]))
  }

  /** `v * m` is the combination of the rows of `m` with weights `v`. */
  lemma RowTimesIsCombination(v: Vector4, m: Matrix4x4)
    ensures RowTimes(v, m) == Combination(v, m)
  {
    forall j | 0 <= j < 4
      ensures RowTimes(v, m)[j] == Combination(v, m)[j]
    {
      assert Combination(v, m)[j] == ((v[0] * m[0][j] + v[1] * m[1][j]) + v[2] * m[2][j]) + v[3] * m[3][j];
    }
  }

  /** Dotting a sum `p == x + y` with `b` is adding the two dots. */
  lemma SumOfDots(p0: real, p1: real, p2: real, p3: real, x0: real, x1: real, x2: real, x3: real,
                  y0: real, y1: real, y2: real, y3: real, b0: real, b1: real, b2: real, b3: real)
    requires p0 == x0 + y0 && p1 == x1 + y1 && p2 == x2 + y2 && p3 == x3 + y3
    ensures p0 * b0 + p1 * b1 + p2 * b2 + p3 * b3
         == (x0 * b0 + x1 * b1 + x2 * b2 + x3 * b3) + (y0 * b0 + y1 * b1 + y2 * b2 + y3 * b3)
  {
  }

  /** Dotting a multiple `p == s * x` with `b` is scaling the dot. */
  lemma ScaledDot(p0: real, p1: real, p2: real, p3: real, s: real, x0: real, x1: real, x2: real, x3: real,
                  b0: real, b1: real, b2: real, b3: real, d: real)
    requires p0 == s * x0 && p1 == s * x1 && p2 == s * x2 && p3 == s * x3
    requires d == x0 * b0 + x1 * b1 + x2 * b2 + x3 * b3
    ensures p0 * b0 + p1 * b1 + p2 * b2 + p3 * b3 == s * d
  {
  }

  /** Pushing a sum through `b` is summing the pushed vectors. */
  lemma RowTimesPlus(x: Vector4, y: Vector4, b: Matrix4x4)
    ensures RowTimes(Plus(x, y), b) == Plus(RowTimes(x, b), RowTimes(y, b))
  {
    forall j | 0 <= j < 4
      ensures RowTimes(Plus(x, y), b)[j] == Plus(RowTimes(x, b), RowTimes(y, b))[j]
    {
      var p := Plus(x, y);
      RowTimesAt(p, b, j);
      RowTimesAt(x, b, j);
      RowTimesAt(y, b, j);
      SumOfDots(p[0], p[1], p[2], p[3], x[0], x[1], x[2], x[3], y[0], y[1], y[2], y[3], b[0][j], b[1][j], b[2][j], b[3][j]);
    }
  }

  /** Pushing a scaled vector through `b` is scaling the pushed vector. */
  lemma RowTimesTimes(s: real, x: Vector4, b: Matrix4x4)
    ensures RowTimes(Times(s, x), b) == Times(s, RowTimes(x, b))
  {
    forall j | 0 <= j < 4
      ensures RowTimes(Times(s, x), b)[j] == Times(s, RowTimes(x, b))[j]
    {
      RowTimesTimesAt(s, x, b, j);
    }
  }

  lemma RowTimesTimesAt(s: real, x: Vector4, b: Matrix4x4, j: nat)
    requires j < 4
    ensures RowTimes(Times(s, x), b)[j] == s * RowTimes(x, b)[j]
  {
    var p := Times(s, x);
    RowTimesAt(p, b, j);
    RowTimesAt(x, b, j);
    ScaledDot(p[0], p[1], p[2], p[3], s, x[0], x[1], x[2], x[3], b[0][j], b[1][j], b[2][j], b[3][j], RowTimes(x, b)[j]);
  }

  /**
   * Pushing a row vector through a product is pushing it through the
   * factors left to right: `v * (a * b) == (v * a) * b`.
   */
  lemma RowTimesProduct(v: Vector4, a: Matrix4x4, b: Matrix4x4)
    ensures RowTimes(v, Product(a, b)) == RowTimes(RowTimes(v, a), b)
  {
    var p := Product(a, b);
    assert p[0] == RowTimes(a[0], b) && p[1] == RowTimes(a[1], b);
    assert p[2] == RowTimes(a[2], b) && p[3] == RowTimes(a[3], b);
    RowTimesIsCombination(v, p);
    RowTimesIsCombination(v, a);
    var t0, t1, t2, t3 := Times(v[0], a[0]), Times(v[1], a[1]), Times(v[2], a[2]), Times(v[3], a[3]);
    RowTimesPlus(Plus(Plus(t0, t1), t2), t3, b);
    RowTimesPlus(Plus(t0, t1), t2, b);
    RowTimesPlus(t0, t1, b);
    RowTimesTimes(v[0], a[0], b);
    RowTimesTimes(v[1], a[1], b);
    RowTimesTimes(v[2], a[2], b);
    RowTimesTimes(v[3], a[3], b);
  }

  /** The matrix product is associative, row by row through `RowTimesProduct`. */
  lemma ProductAssociative(a: Matrix4x4, b: Matrix4x4, c: Matrix4x4)
    ensures Product(Product(a, b), c) == Product(a, Product(b, c))
  {
    forall i | 0 <= i < 4
      ensures Product(Product(a, b), c)[i] == Product(a, Product(b, c))[i]
    {
      assert Product(Product(a, b), c)[i] == RowTimes(Product(a, b)[i], c);
      assert Product(a, b)[i] == RowTimes(a[i], b);
      assert Product(a, Product(b, c))[i] == RowTimes(a[i], Product(b, c));
      RowTimesProduct(a[i], b, c);
    }
  }
}
