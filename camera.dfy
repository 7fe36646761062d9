/**
 * The camera's view-projection matrix: three elementary rotations built
 * from the cosines and sines of the camera's Euler angles, composed as
 * `rotZ * rotX * rotY`; a translation by minus the camera position;
 * `view = trans * rot`; and a fixed perspective projection, giving
 * `view * proj`.
 */
module Camera {
  import opened Vectors
  import opened Matrices
  import opened Transforms

  /** `M_PI` as the source defines it when the platform does not. */
  const Pi: real := 3.14159265358979323846

  /** Vertical field of view: 60 degrees, in radians. */
  const FovY: real := 60.0 * (Pi / 180.0)
  const Aspect: real := 1280.0 / 720.0
  const NearZ: real := 0.1
  const FarZ: real := 100.0

  /** Rotation about the X axis, from the angle's cosine `c` and sine `s`: the X axis stays where it is. */
  function RotationX(c: real, s: real): (r: Matrix4x4)
    ensures IsAffine(r)
    ensures RowTimes([1.0, 0.0, 0.0, 0.0], r) == [1.0, 0.0, 0.0, 0.0]
  {
    [[1.0, 0.0, 0.0, 0.0],
     [0.0, c, -s, 0.0],
     [0.0, s, c, 0.0],
     [0.0, 0.0, 0.0, 1.0]]
  }

  /** Rotation about the Y axis, from the angle's cosine `c` and sine `s`: the Y axis stays where it is. */
  function RotationY(c: real, s: real): (r: Matrix4x4)
    ensures IsAffine(r)
    ensures RowTimes([0.0, 1.0, 0.0, 0.0], r) == [0.0, 1.0, 0.0, 0.0]
  {
    [[c, 0.0, s, 0.0],
     [0.0, 1.0, 0.0, 0.0],
     [-s, 0.0, c, 0.0],
     [0.0, 0.0, 0.0, 1.0]]
  }

  /** Rotation about the Z axis, from the angle's cosine `c` and sine `s`: the Z axis stays where it is. */
  function RotationZ(c: real, s: real): (r: Matrix4x4)
    ensures IsAffine(r)
    ensures RowTimes([0.0, 0.0, 1.0, 0.0], r) == [0.0, 0.0, 1.0, 0.0]
  {
    [[c, -s, 0.0, 0.0],
     [s, c, 0.0, 0.0],
     [0.0, 0.0, 1.0, 0.0],
     [0.0, 0.0, 0.0, 1.0]]
  }

  /** The identity with `-t` in row 3: an affine map taking the point `t` to the origin. */
  function Translation(t: Vector3): (r: Matrix4x4)
    ensures IsAffine(r)
    ensures RowTimes(Homogeneous(t), r) == Homogeneous(Origin)
  {
    var m := [[1.0, 0.0, 0.0, 0.0],
              [0.0, 1.0, 0.0, 0.0],
              [0.0, 0.0, 1.0, 0.0],
              [-t.x, -t.y, -t.z, 1.0]];
    assert forall j | 0 <= j < 4 :: RowTimes(Homogeneous(t), m)[j] == Homogeneous(Origin)[j];
    m
  }

  /**
   * The fixed projection, entry for entry as the source fills it in. Its
   * last column is `(0, 0, k, 0)` with `k < 0`: the computed `w` of a point
   * is a negative multiple of its depth before projection.
   */
  function Projection(lib: MathLib): (r: Matrix4x4)
    requires lib.tanf(FovY / 2.0) != 0.0
    ensures r[0][3] == 0.0 && r[1][3] == 0.0 && r[2][3] < 0.0 && r[3][3] == 0.0
  {
    var f := 1.0 / lib.tanf(FovY / 2.0);
    [[f / Aspect, 0.0, 0.0, 0.0],
     [0.0, f, 0.0, 0.0],
     [0.0, 0.0, FarZ / (FarZ - NearZ), (-NearZ * FarZ) / (FarZ - NearZ)],
     [0.0, 0.0, 1.0, 0.0]]
  }

  /** `rotZ * rotX * rotY` for the camera's Euler angles: it turns about the origin, which stays where it is. */
  function Rotation(lib: MathLib, rotate: Vector3): (r: Matrix4x4)
    ensures RowTimes([0.0, 0.0, 0.0, 1.0], r) == [0.0, 0.0, 0.0, 1.0]
  {
    var rotY := RotationY(lib.cosf(rotate.y), lib.sinf(rotate.y));
    var rotX := RotationX(lib.cosf(rotate.x), lib.sinf(rotate.x));
    var rotZ := RotationZ(lib.cosf(rotate.z), lib.sinf(rotate.z));
    assert Product(rotZ, rotX)[3] == [0.0, 0.0, 0.0, 1.0];
    Product(Product(rotZ, rotX), rotY)
  }

  /** Row by row, the `w` column of `r` is `k` times the depth column of `a`. */
  predicate WIsScaledDepth(r: Matrix4x4, a: Matrix4x4, k: real)
  {
    r[0][3] == a[0][2] * k && r[1][3] == a[1][2] * k && r[2][3] == a[2][2] * k && r[3][3] == a[3][2] * k
  }

  /** Pushed through the projection, every row `a[i]` gets as `w` its depth `a[i][2]` times the factor `k`. */
  lemma ProjectionDepthToW(lib: MathLib, a: Matrix4x4)
    requires lib.tanf(FovY / 2.0) != 0.0
    ensures WIsScaledDepth(Product(a, Projection(lib)), a, Projection(lib)[2][3])
  {
    var p := Projection(lib);
    forall i | 0 <= i < 4
      ensures Product(a, p)[i][3] == a[i][2] * p[2][3]
    {
      RowTimesAt(a[i], p, 3);
    }
  }

  /**
   * `view * proj` with `view = trans * rot`: the computed `w` of every
   * point is the projection's negative factor `k` times its depth in view
   * space, column 2 of `view`.
   */
  function MakeViewProjectionMatrix(lib: MathLib, cameraTranslate: Vector3, cameraRotate: Vector3): (r: Matrix4x4)
    requires lib.tanf(FovY / 2.0) != 0.0
    ensures WIsScaledDepth(r, Product(Translation(cameraTranslate), Rotation(lib, cameraRotate)), Projection(lib)[2][3])
  {
    var rot := Rotation(lib, cameraRotate);
    var view := Product(Translation(cameraTranslate), rot);
    ProjectionDepthToW(lib, view);
    Product(view, Projection(lib))
  }

  /** The translation moves every point by `-t`; in particular the camera position goes to the origin. */
  lemma TranslationSubtracts(t: Vector3, v: Vector3)
    ensures Transformed(v, Translation(t)) == Sub(v, t)
    ensures Transformed(t, Translation(t)) == Origin
  {
    TransformedAffine(v, Translation(t));
    TransformedAffine(t, Translation(t));
  }

  lemma ElementaryAffine(t: Vector3, c: real, s: real)
    ensures IsAffine(Translation(t))
    ensures IsAffine(RotationX(c, s)) && IsAffine(RotationY(c, s)) && IsAffine(RotationZ(c, s))
  {
  }

  /** `rotZ * rotX * rotY` is affine. */
  lemma RotationAffine(lib: MathLib, rotate: Vector3)
    ensures IsAffine(Rotation(lib, rotate))
  {
    var rotY := RotationY(lib.cosf(rotate.y), lib.sinf(rotate.y));
    var rotX := RotationX(lib.cosf(rotate.x), lib.sinf(rotate.x));
    var rotZ := RotationZ(lib.cosf(rotate.z), lib.sinf(rotate.z));
    ProductAffine(rotZ, rotX);
    ProductAffine(Product(rotZ, rotX), rotY);
  }

  /** Rotating a pair of coordinates by an angle with `c * c + s * s == 1` keeps the sum of their squares. */
  lemma PlaneRotationKeepsLength(p: real, q: real, c: real, s: real)
    requires c * c + s * s == 1.0
    ensures (p * c - q * s) * (p * c - q * s) + (p * s + q * c) * (p * s + q * c) == p * p + q * q
  {
    calc {
      (p * c - q * s) * (p * c - q * s) + (p * s + q * c) * (p * s + q * c);
      (p * p) * (c * c + s * s) + (q * q) * (c * c + s * s);
      p * p + q * q;
    }
  }

  lemma NegateFactor(a: real, s: real)
    ensures a * -s == -(a * s)
  {
  }

  /** About X, `c` and `s` a cosine and sine of one angle: the length of every vector is kept. */
  lemma RotationXKeepsLength(v: Vector3, c: real, s: real)
    requires c * c + s * s == 1.0
    ensures var r := Transformed(v, RotationX(c, s)); Dot(r, r) == Dot(v, v)
  {
    ElementaryAffine(Origin, c, s);
    TransformedAffine(v, RotationX(c, s));
    var h := RowTimes(Homogeneous(v), RotationX(c, s));
    assert h[1] == v.y * c + v.z * s;
    assert h[2] == v.y * -s + v.z * c;
    NegateFactor(v.y, s);
    assert Transformed(v, RotationX(c, s)) == Vector3(v.x, h[1], h[2]);
    PlaneRotationKeepsLength(v.z, v.y, c, s);
  }

  /** About Y, `c` and `s` a cosine and sine of one angle: the length of every vector is kept. */
  lemma RotationYKeepsLength(v: Vector3, c: real, s: real)
    requires c * c + s * s == 1.0
    ensures var r := Transformed(v, RotationY(c, s)); Dot(r, r) == Dot(v, v)
  {
    ElementaryAffine(Origin, c, s);
    TransformedAffine(v, RotationY(c, s));
    var h := RowTimes(Homogeneous(v), RotationY(c, s));
    assert h[0] == v.x * c + v.z * -s;
    assert h[2] == v.x * s + v.z * c;
    NegateFactor(v.z, s);
    assert Transformed(v, RotationY(c, s)) == Vector3(h[0], v.y, h[2]);
    PlaneRotationKeepsLength(v.x, v.z, c, s);
  }

  /** About Z, `c` and `s` a cosine and sine of one angle: the length of every vector is kept. */
  lemma RotationZKeepsLength(v: Vector3, c: real, s: real)
    requires c * c + s * s == 1.0
    ensures var r := Transformed(v, RotationZ(c, s)); Dot(r, r) == Dot(v, v)
  {
    ElementaryAffine(Origin, c, s);
    TransformedAffine(v, RotationZ(c, s));
    var h := RowTimes(Homogeneous(v), RotationZ(c, s));
    assert h[0] == v.x * c + v.y * s;
    assert h[1] == v.x * -s + v.y * c;
    NegateFactor(v.x, s);
    assert Transformed(v, RotationZ(c, s)) == Vector3(h[0], h[1], v.z);
    PlaneRotationKeepsLength(v.y, v.x, c, s);
  }

  /**
   * The view-projection matrix acts on a point in this order: translate
   * by minus the camera position, rotate about Z, then X, then Y, then
   * project.
   */
  lemma ViewProjectionStages(lib: MathLib, cameraTranslate: Vector3, cameraRotate: Vector3, p: Vector3)
    requires lib.tanf(FovY / 2.0) != 0.0
    ensures Transformed(p, MakeViewProjectionMatrix(lib, cameraTranslate, cameraRotate))
         == Transformed(
              Transformed(
                Transformed(
                  Transformed(
                    Transformed(p, Translation(cameraTranslate)),
                    RotationZ(lib.cosf(cameraRotate.z), lib.sinf(cameraRotate.z))),
                  RotationX(lib.cosf(cameraRotate.x), lib.sinf(cameraRotate.x))),
                RotationY(lib.cosf(cameraRotate.y), lib.sinf(cameraRotate.y))),
              Projection(lib))
  {
    var rotY := RotationY(lib.cosf(cameraRotate.y), lib.sinf(cameraRotate.y));
    var rotX := RotationX(lib.cosf(cameraRotate.x), lib.sinf(cameraRotate.x));
    var rotZ := RotationZ(lib.cosf(cameraRotate.z), lib.sinf(cameraRotate.z));
    var trans := Translation(cameraTranslate);
    var rot := Rotation(lib, cameraRotate);
    ElementaryAffine(cameraTranslate, lib.cosf(cameraRotate.z), lib.sinf(cameraRotate.z));
    ElementaryAffine(cameraTranslate, lib.cosf(cameraRotate.x), lib.sinf(cameraRotate.x));
    RotationAffine(lib, cameraRotate);
    ProductAffine(trans, rot);
    ProductAffine(rotZ, rotX);
    var q := Transformed(p, trans);
    TransformedProduct(p, Product(trans, rot), Projection(lib));
    TransformedProduct(p, trans, rot);
    TransformedProduct(q, Product(rotZ, rotX), rotY);
    TransformedProduct(q, rotZ, rotX);
  }

  /**
   * The camera position is a point whose homogeneous `w` under the
   * view-projection matrix is zero: the divide guard of `Transform`
   * passes it through undivided, as the projection's row 3, `(0, 0, 1)`.
   */
  lemma CameraPositionSkipsDivide(lib: MathLib, cameraTranslate: Vector3, cameraRotate: Vector3)
    requires lib.tanf(FovY / 2.0) != 0.0
    ensures RowTimes(Homogeneous(cameraTranslate), MakeViewProjectionMatrix(lib, cameraTranslate, cameraRotate))[3] == 0.0
    ensures Transformed(cameraTranslate, MakeViewProjectionMatrix(lib, cameraTranslate, cameraRotate)) == Vector3(0.0, 0.0, 1.0)
  {
    var trans := Translation(cameraTranslate);
    var rot := Rotation(lib, cameraRotate);
    ElementaryAffine(cameraTranslate, 1.0, 0.0);
    RotationAffine(lib, cameraRotate);
    ProductAffine(trans, rot);
    TranslationSubtracts(cameraTranslate, cameraTranslate);
    RowTimesProduct(Homogeneous(cameraTranslate), Product(trans, rot), Projection(lib));
    RowTimesProduct(Homogeneous(cameraTranslate), trans, rot);
    assert RowTimes(Homogeneous(cameraTranslate), trans) == Homogeneous(Origin);
    assert RowTimes(Homogeneous(Origin), rot) == Homogeneous(Origin);
  }

  /** With all Euler angles zero (and `cosf(0) == 1`, `sinf(0) == 0`) the rotation drops out. */
  lemma ViewProjectionWithoutRotation(lib: MathLib, cameraTranslate: Vector3)
    requires lib.tanf(FovY / 2.0) != 0.0
    requires lib.cosf(0.0) == 1.0 && lib.sinf(0.0) == 0.0
    ensures MakeViewProjectionMatrix(lib, cameraTranslate, Origin) == Product(Translation(cameraTranslate), Projection(lib))
  {
    assert RotationX(1.0, 0.0) == Identity;
    assert RotationY(1.0, 0.0) == Identity;
    assert RotationZ(1.0, 0.0) == Identity;
    ProductIdentityLeft(Identity);
    ProductIdentityRight(Translation(cameraTranslate));
  }
}
