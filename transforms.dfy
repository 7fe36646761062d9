/**
 * Applying a 4x4 matrix to a 3D point: the point is taken as the row
 * `(x, y, z, 1)`, multiplied by the matrix, and divided by the resulting
 * `w` unless `w` is zero, in which case the undivided `(x, y, z)` is kept.
 */
module Transforms {
  import opened Vectors
  import opened Matrices

  /** The point `v` as the homogeneous row `(x, y, z, 1)`. */
  function Homogeneous(v: Vector3): Vector4
  {
    [v.x, v.y, v.z, 1.0]
  }

  /** `c` divided componentwise by a non-zero `w`: scaling it back by `w` gives `c`. */
  function Divide(c: Vector3, w: real): (r: Vector3)
    requires w != 0.0
    ensures Scale(r, w) == c
  {
    DivideThenMultiply(c.x, w);
    DivideThenMultiply(c.y, w);
    DivideThenMultiply(c.z, w);
    Vector3(c.x / w, c.y / w, c.z / w)
  }

  /** The first three components of a homogeneous row. */
  function Cartesian(h: Vector4): Vector3
  {
    Vector3(h[0], h[1], h[2])
  }

  /**
   * What `Transform` returns: the homogeneous image of `v` under `m`,
   * divided by its `w` unless `w` is zero.
   */
  function Transformed(v: Vector3, m: Matrix4x4): Vector3
  {
    var h := RowTimes(Homogeneous(v), m);
    if h[3] != 0.0 then Divide(Cartesian(h), h[3]) else Cartesian(h)
  }

  /**
   * Computes the four homogeneous components of `v` under `m`, then
   * divides `x`, `y` and `z` in place by `w` when `w` is not zero.
   */
  method Transform(v: Vector3, m: Matrix4x4) returns (r: Vector3)
    ensures var h := RowTimes(Homogeneous(v), m);
      && (h[3] != 0.0 ==> Scale(r, h[3]) == Cartesian(h))
      && (h[3] == 0.0 ==> r == Cartesian(h))
    ensures r == Transformed(v, m)
  {
    var x := v.x * m[0][0] + v.y * m[1][0] + v.z * m[2][0] + m[3][0];
    var y := v.x * m[0][1] + v.y * m[1][1] + v.z * m[2][1] + m[3][1];
    var z := v.x * m[0][2] + v.y * m[1][2] + v.z * m[2][2] + m[3][2];
    var w := v.x * m[0][3] + v.y * m[1][3] + v.z * m[2][3] + m[3][3];
    ghost var h := RowTimes(Homogeneous(v), m);
    assert Cartesian(h) == Vector3(x, y, z) && h[3] == w;
    if w != 0.0 {
      ghost var c := Vector3(x, y, z);
      x := x / w;
      y := y / w;
      z := z / w;
      assert Vector3(x, y, z) == Divide(c, w);
    }
    r := Vector3(x, y, z);
  }

  /** An affine matrix produces `w == 1`, so no divide happens and the result is the plain row product. */
  lemma TransformedAffine(v: Vector3, m: Matrix4x4)
    requires IsAffine(m)
    ensures Homogeneous(Transformed(v, m)) == RowTimes(Homogeneous(v), m)
  {
    var h := RowTimes(Homogeneous(v), m);
    assert h[3] == 1.0;
    assert Scale(Transformed(v, m), 1.0) == Transformed(v, m);
  }

  /**
   * Transforming by `a * b` with `a` affine is transforming by `a`, then
   * by `b`: the order of the factors is the order the point meets them.
   */
  lemma TransformedProduct(v: Vector3, a: Matrix4x4, b: Matrix4x4)
    requires IsAffine(a)
    ensures Transformed(v, Product(a, b)) == Transformed(Transformed(v, a), b)
  {
    RowTimesProduct(Homogeneous(v), a, b);
    TransformedAffine(v, a);
  }
}
