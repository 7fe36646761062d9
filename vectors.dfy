/**
 * Three-component vectors and the two vector operations of the demo:
 * the inner product and the epsilon-guarded normalisation.
 * Single-precision floats are modelled as exact reals.
 */
module Vectors {

  /** A point or a free vector in world space. */
  datatype Vector3 = Vector3(x: real, y: real, z: real)

  /**
   * The C math library routines the demo calls (sqrtf, sinf, cosf, tanf).
   * Their values are not modelled: every operation that needs one of them
   * takes the library as a parameter, and a lemma that depends on what a
   * routine computes says so in its `requires`.
   */
  datatype MathLib = MathLib(sqrtf: real -> real, sinf: real -> real, cosf: real -> real, tanf: real -> real)

  /** The one fact about `sqrtf` some lemmas rely on: it is the non-negative square root. */
  ghost predicate IsSquareRoot(sqrtf: real -> real)
  {
    forall a :: 0.0 <= a ==> 0.0 <= sqrtf(a) && sqrtf(a) * sqrtf(a) == a
  }

  const Origin := Vector3(0.0, 0.0, 0.0)

  /** Below this length `Normalize` leaves its input alone. */
  const NormalizeEpsilon: real := 1e-4

  function Add(a: Vector3, b: Vector3): Vector3
  {
    Vector3(a.x + b.x, a.y + b.y, a.z + b.z)
  }

  /** `a - b`, written out componentwise in the source wherever it is needed. */
  function Sub(a: Vector3, b: Vector3): Vector3
  {
    Vector3(a.x - b.x, a.y - b.y, a.z - b.z)
  }

  function Scale(v: Vector3, s: real): Vector3
  {
    Vector3(v.x * s, v.y * s, v.z * s)
  }

  /** The Euclidean inner product; a vector's product with itself is never negative. */
  function Dot(a: Vector3, b: Vector3): (r: real)
    ensures a == b ==> 0.0 <= r
  {
    a.x * b.x + a.y * b.y + a.z * b.z
  }

  function Length(lib: MathLib, v: Vector3): real
  {
    lib.sqrtf(Dot(v, v))
  }

  /**
   * `v` divided by its length, or `v` itself when the length is at most
   * 1e-4: scaling the result back by the length gives `v` again.
   */
  function Normalize(lib: MathLib, v: Vector3): (r: Vector3)
    ensures Length(lib, v) <= NormalizeEpsilon ==> r == v
    ensures NormalizeEpsilon < Length(lib, v) ==> Scale(r, Length(lib, v)) == v
  {
    var len := lib.sqrtf(v.x * v.x + v.y * v.y + v.z * v.z);
    assert Dot(v, v) == v.x * v.x + v.y * v.y + v.z * v.z;
    assert len == Length(lib, v);
    if len > NormalizeEpsilon then
      DivideThenMultiply(v.x, len);
      DivideThenMultiply(v.y, len);
      DivideThenMultiply(v.z, len);
      Vector3(v.x / len, v.y / len, v.z / len)
    else
      v
  }

  lemma DivideThenMultiply(a: real, d: real)
    requires d != 0.0
    ensures a / d * d == a
  {
  }

  lemma DotSymmetric(a: Vector3, b: Vector3)
    ensures Dot(a, b) == Dot(b, a)
  {
  }

  lemma DotAdd(n: Vector3, a: Vector3, b: Vector3)
    ensures Dot(n, Add(a, b)) == Dot(n, a) + Dot(n, b)
    ensures Dot(n, Sub(a, b)) == Dot(n, a) - Dot(n, b)
  {
  }

  lemma DotScale(n: Vector3, a: Vector3, s: real)
    ensures Dot(n, Scale(a, s)) == s * Dot(n, a)
  {
    assert Dot(n, Scale(a, s)) == n.x * (a.x * s) + n.y * (a.y * s) + n.z * (a.z * s);
    ScaledTerms(n.x, a.x, n.y, a.y, n.z, a.z, s);
  }

  lemma DotScaleLeft(n: Vector3, a: Vector3, s: real)
    ensures Dot(Scale(n, s), a) == s * Dot(n, a)
  {
    assert Dot(Scale(n, s), a) == (n.x * s) * a.x + (n.y * s) * a.y + (n.z * s) * a.z;
    ScaledTerms(n.x, a.x, n.y, a.y, n.z, a.z, s);
  }

  /** A common factor `s` moved out of three products, from either side. */
  lemma ScaledTerms(p: real, q: real, u: real, v: real, w: real, z: real, s: real)
    ensures p * (q * s) + u * (v * s) + w * (z * s) == s * (p * q + u * v + w * z)
    ensures (p * s) * q + (u * s) * v + (w * s) * z == s * (p * q + u * v + w * z)
  {
  }

  lemma ZeroProduct(a: real, b: real)
    requires a * b == 0.0 && b != 0.0
    ensures a == 0.0
  {
  }

  lemma SqrtOfZeroAndOne(lib: MathLib)
    requires IsSquareRoot(lib.sqrtf)
    ensures lib.sqrtf(0.0) == 0.0 && lib.sqrtf(1.0) == 1.0
  {
    var s0, s1 := lib.sqrtf(0.0), lib.sqrtf(1.0);
    assert 0.0 <= s0 && s0 * s0 == 0.0;
    if s0 != 0.0 {
      ZeroProduct(s0, s0);
    }
    assert 0.0 <= s1 && s1 * s1 == 1.0;
    assert (s1 - 1.0) * (s1 + 1.0) == s1 * s1 - 1.0;
    ZeroProduct(s1 - 1.0, s1 + 1.0);
  }

  /** The zero vector is its own normalisation, whatever `sqrtf` returns: both branches give zero. */
  lemma NormalizeZero(lib: MathLib)
    ensures Normalize(lib, Origin) == Origin
  {
    var len := Length(lib, Origin);
    if NormalizeEpsilon < len {
      assert 0.0 / len == 0.0;
    }
  }

  /** Above the threshold, the result has unit length. */
  lemma NormalizeUnitLength(lib: MathLib, v: Vector3)
    requires IsSquareRoot(lib.sqrtf)
    requires NormalizeEpsilon < Length(lib, v)
    ensures Dot(Normalize(lib, v), Normalize(lib, v)) == 1.0
  {
    var len := Length(lib, v);
    var n := Normalize(lib, v);
    assert len * len == Dot(v, v);
    assert Scale(n, len) == v;
    calc {
      Dot(v, v);
      Dot(Scale(n, len), Scale(n, len));
      { DotScaleLeft(n, Scale(n, len), len); DotScale(n, n, len); }
      len * len * Dot(n, n);
    }
    assert len * len * Dot(n, n) == len * len * 1.0;
  }

  /** Normalising twice is the same as normalising once. */
  lemma NormalizeIdempotent(lib: MathLib, v: Vector3)
    requires IsSquareRoot(lib.sqrtf)
    requires NormalizeEpsilon < Length(lib, v)
    ensures Normalize(lib, Normalize(lib, v)) == Normalize(lib, v)
  {
    NormalizeUnitLength(lib, v);
    SqrtOfZeroAndOne(lib);
  }
}
