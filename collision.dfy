/**
 * The segment-plane intersection test: parallel check against 1e-6,
 * parametric `t`, acceptance of `t` in `[0, 1]` inclusive, and the hit
 * point written through an optional out-slot.
 */
module Collision {
  import opened Vectors

  /** An oriented finite segment from `start` to `end`. */
  datatype Segment = Segment(start: Vector3, end: Vector3)

  /** A plane through `point`; `normal` need not have unit length. */
  datatype Plane = Plane(point: Vector3, normal: Vector3)

  datatype Option<T> = None | Some(value: T)

  /** Below this absolute `Dot(n, dir)` the segment counts as parallel to the plane. */
  const ParallelEpsilon: real := 1e-6

  function Abs(a: real): real
  {
    if a < 0.0 then -a else a
  }

  /** A caller-owned `Vector3` that the test may write the hit point into. */
  class Vector3Slot {
    var value: Vector3

    constructor (v: Vector3)
      ensures value == v
    {
      value := v;
    }
  }

  /** The normal the test actually uses: the plane's normal, normalised. */
  function UsedNormal(lib: MathLib, plane: Plane): Vector3
  {
    Normalize(lib, plane.normal)
  }

  function Direction(seg: Segment): Vector3
  {
    Sub(seg.end, seg.start)
  }

  /** How fast the segment approaches the plane along `n`, per unit of `t`. */
  function Denominator(n: Vector3, seg: Segment): real
  {
    Dot(n, Direction(seg))
  }

  /** Offset from the segment's start to the plane's `point`, measured along `n`. */
  function Distance(n: Vector3, seg: Segment, point: Vector3): real
  {
    Dot(n, Sub(point, seg.start))
  }

  /** The point `start + dir * t` of the segment's line. */
  function PointAt(seg: Segment, t: real): Vector3
  {
    Add(seg.start, Scale(Direction(seg), t))
  }

  /**
   * The decision once `denom` and `dist` are known, as a tagged result:
   * the hit point when there is one, `None` when the segment is parallel
   * to the plane or meets it outside `[0, 1]`.
   */
  function HitAt(seg: Segment, denom: real, dist: real): Option<Vector3>
  {
    if Abs(denom) < ParallelEpsilon then
      None
    else
      var t := dist / denom;
      if 0.0 <= t <= 1.0 then Some(PointAt(seg, t)) else None
  }

  /** The test against the plane through `point` with normal `n`. */
  function HitAlong(n: Vector3, seg: Segment, point: Vector3): Option<Vector3>
  {
    HitAt(seg, Denominator(n, seg), Distance(n, seg, point))
  }

  /** The outcome of `IsSegmentPlaneCollision`: the test run with the plane's normalised normal. */
  function SegmentPlaneHit(lib: MathLib, seg: Segment, plane: Plane): Option<Vector3>
  {
    HitAlong(UsedNormal(lib, plane), seg, plane.point)
  }

  /**
   * Reports whether `seg` meets `plane`; on a hit, and only then, writes
   * the hit point into `outHitPoint` when it is not null.
   */
  method IsSegmentPlaneCollision(lib: MathLib, seg: Segment, plane: Plane, outHitPoint: Vector3Slot?) returns (hit: bool)
    modifies outHitPoint
    ensures hit <==> SegmentPlaneHit(lib, seg, plane).Some?
    ensures outHitPoint != null && hit ==> outHitPoint.value == SegmentPlaneHit(lib, seg, plane).value
    ensures outHitPoint != null && !hit ==> outHitPoint.value == old(outHitPoint.value)
  {
    var n := Normalize(lib, plane.normal);
    var dir := Sub(seg.end, seg.start);
    var denom := Dot(n, dir);
    if Abs(denom) < ParallelEpsilon {
      return false;
    }
    var dist := Dot(n, Sub(plane.point, seg.start));
    var t := dist / denom;
    if t >= 0.0 && t <= 1.0 {
      if outHitPoint != null {
        outHitPoint.value := Add(seg.start, Scale(dir, t));
      }
      return true;
    }
    return false;
  }

  /** A segment (nearly) parallel to the plane never hits it; a degenerate segment is one. */
  lemma ParallelMisses(n: Vector3, seg: Segment, point: Vector3)
    ensures Abs(Denominator(n, seg)) < ParallelEpsilon ==> HitAlong(n, seg, point) == None
    ensures seg.start == seg.end ==> HitAlong(n, seg, point) == None
  {
  }

  /**
   * The test succeeds exactly when the segment is not parallel and
   * `t = dist / denom` lies in `[0, 1]`, both ends included; the hit
   * point is then `start + dir * t`.
   */
  lemma HitIffParameterInRange(n: Vector3, seg: Segment, point: Vector3)
    ensures var denom := Denominator(n, seg);
      HitAlong(n, seg, point).Some?
      <==> (ParallelEpsilon <= Abs(denom) && 0.0 <= Distance(n, seg, point) / denom <= 1.0)
    ensures var denom := Denominator(n, seg);
      HitAlong(n, seg, point).Some?
      ==> HitAlong(n, seg, point).value == PointAt(seg, Distance(n, seg, point) / denom)
  {
  }

  /** If `t` steps of `dir` cover `dist` along `n`, so does `dir` scaled by `t`. */
  lemma ScaledAlong(n: Vector3, dir: Vector3, t: real, dist: real)
    requires t * Dot(n, dir) == dist
    ensures Dot(n, Scale(dir, t)) == dist
  {
    DotScale(n, dir, t);
  }

  /** Scaling `dir` by `dist / Dot(n, dir)` brings its component along `n` to `dist`. */
  lemma ScaledToDistance(n: Vector3, dir: Vector3, dist: real)
    requires Dot(n, dir) != 0.0
    ensures Dot(n, Scale(dir, dist / Dot(n, dir))) == dist
  {
    var denom := Dot(n, dir);
    DivideThenMultiply(dist, denom);
    assert dist / denom * denom == dist;
    ScaledAlong(n, dir, dist / denom, dist);
  }

  /** The component along `n` of `start + s - point` is that of `s` less that of `point - start`. */
  lemma OffsetAlong(n: Vector3, start: Vector3, s: Vector3, point: Vector3)
    ensures Dot(n, Sub(Add(start, s), point)) == Dot(n, s) - Dot(n, Sub(point, start))
  {
    assert Sub(Add(start, s), point) == Sub(s, Sub(point, start));
    DotAdd(n, s, Sub(point, start));
  }

  /** At `t = dist / denom` the segment's line meets the plane through `point` orthogonal to `n`. */
  lemma ParameterPointOnPlane(n: Vector3, seg: Segment, point: Vector3)
    requires Denominator(n, seg) != 0.0
    ensures Dot(n, Sub(PointAt(seg, Distance(n, seg, point) / Denominator(n, seg)), point)) == 0.0
  {
    var t := Distance(n, seg, point) / Denominator(n, seg);
    ScaledToDistance(n, Direction(seg), Distance(n, seg, point));
    OffsetAlong(n, seg.start, Scale(Direction(seg), t), point);
  }

  /** A reported hit point lies on the plane: its offset from `point` is orthogonal to `n`. */
  lemma HitOrthogonal(n: Vector3, seg: Segment, point: Vector3)
    requires HitAlong(n, seg, point).Some?
    ensures Dot(n, Sub(HitAlong(n, seg, point).value, point)) == 0.0
  {
    ParameterPointOnPlane(n, seg, point);
  }

  /**
   * A hit reported by `IsSegmentPlaneCollision` lies on the plane: its
   * offset from the plane's point is orthogonal both to the normal the
   * test used and to the plane's own normal.
   */
  lemma HitLiesOnPlane(lib: MathLib, seg: Segment, plane: Plane)
    requires SegmentPlaneHit(lib, seg, plane).Some?
    ensures Dot(UsedNormal(lib, plane), Sub(SegmentPlaneHit(lib, seg, plane).value, plane.point)) == 0.0
    ensures Dot(plane.normal, Sub(SegmentPlaneHit(lib, seg, plane).value, plane.point)) == 0.0
  {
    var n := UsedNormal(lib, plane);
    var offset := Sub(SegmentPlaneHit(lib, seg, plane).value, plane.point);
    HitOrthogonal(n, seg, plane.point);
    var len := Length(lib, plane.normal);
    if NormalizeEpsilon < len {
      DotScaleLeft(n, offset, len);
    }
  }

  /** A segment that starts on the plane, and is not parallel to it, hits it at its start (`t == 0`). */
  lemma StartOnPlaneHits(n: Vector3, seg: Segment, point: Vector3)
    requires ParallelEpsilon <= Abs(Denominator(n, seg))
    requires Distance(n, seg, point) == 0.0
    ensures HitAlong(n, seg, point) == Some(seg.start)
  {
    assert PointAt(seg, 0.0) == seg.start;
  }

  /** Measured from the start, the plane lies one segment length plus its distance from the end away. */
  lemma DistanceFromEnd(n: Vector3, seg: Segment, point: Vector3)
    ensures Distance(n, seg, point) == Denominator(n, seg) + Dot(n, Sub(point, seg.end))
  {
    assert Sub(point, seg.start) == Add(Direction(seg), Sub(point, seg.end));
    DotAdd(n, Direction(seg), Sub(point, seg.end));
  }

  /** A segment that ends on the plane, and is not parallel to it, hits it at its end (`t == 1`). */
  lemma EndOnPlaneHits(n: Vector3, seg: Segment, point: Vector3)
    requires ParallelEpsilon <= Abs(Denominator(n, seg))
    requires Dot(n, Sub(point, seg.end)) == 0.0
    ensures HitAlong(n, seg, point) == Some(seg.end)
  {
    var denom := Denominator(n, seg);
    DistanceFromEnd(n, seg, point);
    assert denom / denom == 1.0;
    assert PointAt(seg, 1.0) == seg.end;
  }

  /** `(dist - denom) / -denom` is `1 - dist / denom`. */
  lemma ReversedParameter(dist: real, denom: real)
    requires denom != 0.0
    ensures (dist - denom) / -denom == 1.0 - dist / denom
  {
    DivideThenMultiply(dist, denom);
    DivideThenMultiply(dist - denom, -denom);
    var t, u := dist / denom, (dist - denom) / -denom;
    assert u * -denom == dist - denom;
    assert t * denom == dist;
    assert (u - 1.0 + t) * denom == 0.0;
    ZeroProduct(u - 1.0 + t, denom);
  }

  /** `end + (start - end) * (1 - t)` is `start + (end - start) * t`, one coordinate. */
  lemma ReversedPoint(s: real, e: real, t: real)
    ensures e + (s - e) * (1.0 - t) == s + (e - s) * t
  {
  }

  /** The reversed segment approaches the plane at the opposite rate. */
  lemma ReversedDenominator(n: Vector3, seg: Segment)
    ensures Denominator(n, Segment(seg.end, seg.start)) == -Denominator(n, seg)
  {
    DotAdd(n, seg.start, seg.end);
    DotAdd(n, seg.end, seg.start);
  }

  /** Measured from the reversed segment's start (the old end), the plane is one segment length nearer. */
  lemma ReversedDistance(n: Vector3, seg: Segment, point: Vector3)
    ensures Distance(n, Segment(seg.end, seg.start), point) == Distance(n, seg, point) - Denominator(n, seg)
  {
    assert Sub(point, seg.end) == Sub(Sub(point, seg.start), Direction(seg));
    DotAdd(n, Sub(point, seg.start), Direction(seg));
  }

  /** The reversed segment at `1 - t` is the segment at `t`. */
  lemma ReversedPointAt(seg: Segment, t: real)
    ensures PointAt(Segment(seg.end, seg.start), 1.0 - t) == PointAt(seg, t)
  {
    ReversedPoint(seg.start.x, seg.end.x, t);
    ReversedPoint(seg.start.y, seg.end.y, t);
    ReversedPoint(seg.start.z, seg.end.z, t);
  }

  /**
   * With the segment reversed, the rate changes sign and the distance
   * shrinks by one segment length: the decision and the point stay the same.
   */
  lemma ReversedHitAt(seg: Segment, denom: real, dist: real)
    ensures HitAt(Segment(seg.end, seg.start), -denom, dist - denom) == HitAt(seg, denom, dist)
  {
    if ParallelEpsilon <= Abs(denom) {
      var t := dist / denom;
      ReversedParameter(dist, denom);
      ReversedPointAt(seg, t);
    }
  }

  /** Running the segment backwards gives the same answer and the same hit point. */
  lemma ReversedSegmentSameHit(n: Vector3, seg: Segment, point: Vector3)
    ensures HitAlong(n, Segment(seg.end, seg.start), point) == HitAlong(n, seg, point)
  {
    ReversedDenominator(n, seg);
    ReversedDistance(n, seg, point);
    ReversedHitAt(seg, Denominator(n, seg), Distance(n, seg, point));
  }

  /** A square root that behaves as one leaves the unit normal `(0, 1, 0)` unchanged. */
  lemma UnitYNormal(lib: MathLib)
    requires IsSquareRoot(lib.sqrtf)
    ensures Normalize(lib, Vector3(0.0, 1.0, 0.0)) == Vector3(0.0, 1.0, 0.0)
  {
    SqrtOfZeroAndOne(lib);
    assert Length(lib, Vector3(0.0, 1.0, 0.0)) == 1.0;
  }

  /** Against the plane `y == 0` the test runs with the unit normal `(0, 1, 0)` itself. */
  lemma UnitYPlaneHit(lib: MathLib, seg: Segment)
    requires IsSquareRoot(lib.sqrtf)
    ensures SegmentPlaneHit(lib, seg, Plane(Origin, Vector3(0.0, 1.0, 0.0))) == HitAlong(Vector3(0.0, 1.0, 0.0), seg, Origin)
  {
    UnitYNormal(lib);
  }

  /** Along the unit normal `(0, 1, 0)` the rate and the distance are differences of `y` coordinates. */
  lemma UnitYRates(seg: Segment, point: Vector3)
    ensures Denominator(Vector3(0.0, 1.0, 0.0), seg) == seg.end.y - seg.start.y
    ensures Distance(Vector3(0.0, 1.0, 0.0), seg, point) == point.y - seg.start.y
  {
  }

  /** A segment lying in the plane `y == 0` is parallel to it and misses. */
  lemma InPlaneExample(h: real)
    ensures HitAlong(Vector3(0.0, 1.0, 0.0), Segment(Vector3(-h, 0.0, 0.0), Vector3(h, 0.0, 0.0)), Origin) == None
  {
    var seg := Segment(Vector3(-h, 0.0, 0.0), Vector3(h, 0.0, 0.0));
    UnitYRates(seg, Origin);
  }

  /** When the plane is half the segment's rate away, the test hits at `t == 0.5`. */
  lemma HitAtHalfway(seg: Segment, denom: real, dist: real)
    requires ParallelEpsilon <= Abs(denom)
    requires dist == denom * 0.5
    ensures HitAt(seg, denom, dist) == Some(PointAt(seg, 0.5))
  {
    assert dist / denom == 0.5;
  }

  /** A segment from `y == h` down to `y == -h` crosses at `t == 0.5`, the origin. */
  lemma CrossingExample(h: real)
    requires ParallelEpsilon <= h
    ensures HitAlong(Vector3(0.0, 1.0, 0.0), Segment(Vector3(0.0, h, 0.0), Vector3(0.0, -h, 0.0)), Origin) == Some(Origin)
  {
    var seg := Segment(Vector3(0.0, h, 0.0), Vector3(0.0, -h, 0.0));
    UnitYRates(seg, Origin);
    HitAtHalfway(seg, -h - h, -h);
    assert PointAt(seg, 0.5) == Origin;
  }

  /** A segment from `(h, 0, 0)`, on the plane, down to `y == -h` hits at `t == 0`, the boundary included. */
  lemma StartOnPlaneExample(h: real)
    requires ParallelEpsilon <= h
    ensures HitAlong(Vector3(0.0, 1.0, 0.0), Segment(Vector3(h, 0.0, 0.0), Vector3(h, -h, 0.0)), Origin) == Some(Vector3(h, 0.0, 0.0))
  {
    var seg := Segment(Vector3(h, 0.0, 0.0), Vector3(h, -h, 0.0));
    UnitYRates(seg, Origin);
    StartOnPlaneHits(Vector3(0.0, 1.0, 0.0), seg, Origin);
  }

  /** When the plane is twice the segment's rate away, `t == 2` and the test misses. */
  lemma MissAtTwice(seg: Segment, denom: real, dist: real)
    requires ParallelEpsilon <= Abs(denom)
    requires dist == denom * 2.0
    ensures HitAt(seg, denom, dist) == None
  {
    assert dist / denom == 2.0;
  }

  /** A segment from `y == 2h` down to `y == h`, wholly above the plane, would meet it at `t == 2` and misses. */
  lemma AboveExample(h: real)
    requires ParallelEpsilon <= h
    ensures HitAlong(Vector3(0.0, 1.0, 0.0), Segment(Vector3(0.0, 2.0 * h, 0.0), Vector3(0.0, h, 0.0)), Origin) == None
  {
    var seg := Segment(Vector3(0.0, 2.0 * h, 0.0), Vector3(0.0, h, 0.0));
    UnitYRates(seg, Origin);
    MissAtTwice(seg, h - 2.0 * h, 0.0 - 2.0 * h);
  }

  /** The same four segments against the plane `y == 0` as `IsSegmentPlaneCollision` sees it. */
  lemma UnitYPlaneExamples(lib: MathLib, h: real)
    requires IsSquareRoot(lib.sqrtf)
    requires ParallelEpsilon <= h
    ensures var plane := Plane(Origin, Vector3(0.0, 1.0, 0.0));
      && SegmentPlaneHit(lib, Segment(Vector3(-h, 0.0, 0.0), Vector3(h, 0.0, 0.0)), plane) == None
      && SegmentPlaneHit(lib, Segment(Vector3(0.0, h, 0.0), Vector3(0.0, -h, 0.0)), plane) == Some(Origin)
      && SegmentPlaneHit(lib, Segment(Vector3(h, 0.0, 0.0), Vector3(h, -h, 0.0)), plane) == Some(Vector3(h, 0.0, 0.0))
      && SegmentPlaneHit(lib, Segment(Vector3(0.0, 2.0 * h, 0.0), Vector3(0.0, h, 0.0)), plane) == None
  {
    InPlaneExample(h);
    CrossingExample(h);
    StartOnPlaneExample(h);
    AboveExample(h);
    UnitYPlaneHit(lib, Segment(Vector3(-h, 0.0, 0.0), Vector3(h, 0.0, 0.0)));
    UnitYPlaneHit(lib, Segment(Vector3(0.0, h, 0.0), Vector3(0.0, -h, 0.0)));
    UnitYPlaneHit(lib, Segment(Vector3(h, 0.0, 0.0), Vector3(h, -h, 0.0)));
    UnitYPlaneHit(lib, Segment(Vector3(0.0, 2.0 * h, 0.0), Vector3(0.0, h, 0.0)));
  }
}
