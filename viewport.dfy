/**
 * The viewport matrix: an affine map from normalised device coordinates
 * to pixels, with screen Y growing downwards and depth mapped linearly
 * onto `[minDepth, maxDepth]`.
 */
module Viewport {
  import opened Vectors
  import opened Matrices
  import opened Transforms

  /** An affine map taking the centre of the device square, at depth 0, to the centre of the viewport at `minDepth`. */
  function MakeViewportForMatrix(left: real, top: real, width: real, height: real, minDepth: real, maxDepth: real): (r: Matrix4x4)
    ensures IsAffine(r)
    ensures RowTimes([0.0, 0.0, 0.0, 1.0], r) == [left + width / 2.0, top + height / 2.0, minDepth, 1.0]
  {
    [[width * 0.5, 0.0, 0.0, 0.0],
     [0.0, -height * 0.5, 0.0, 0.0],
     [0.0, 0.0, maxDepth - minDepth, 0.0],
     [left + width * 0.5, top + height * 0.5, minDepth, 1.0]]
  }

  /**
   * Where a device point lands: `x` from `[-1, 1]` onto `[left, left + width]`,
   * `y` from `[1, -1]` onto `[top, top + height]` (flipped), `z` from `[0, 1]`
   * onto `[minDepth, maxDepth]`; the computed `w` is always 1, so no divide
   * takes place.
   */
  lemma ViewportMapsToPixels(left: real, top: real, width: real, height: real, minDepth: real, maxDepth: real, v: Vector3)
    ensures var m := MakeViewportForMatrix(left, top, width, height, minDepth, maxDepth);
      && RowTimes(Homogeneous(v), m)[3] == 1.0
      && Transformed(v, m)
         == Vector3(left + (v.x + 1.0) * width / 2.0, top + (1.0 - v.y) * height / 2.0, minDepth + v.z * (maxDepth - minDepth))
  {
    var m := MakeViewportForMatrix(left, top, width, height, minDepth, maxDepth);
    TransformedAffine(v, m);
    assert v.x * (width * 0.5) + (left + width * 0.5) == left + (v.x + 1.0) * width / 2.0;
    assert v.y * (-height * 0.5) + (top + height * 0.5) == top + (1.0 - v.y) * height / 2.0;
  }

  /** The device square's corners and depth ends reach the screen rectangle's corners and the depth range's ends. */
  lemma ViewportCorners(left: real, top: real, width: real, height: real, minDepth: real, maxDepth: real)
    ensures var m := MakeViewportForMatrix(left, top, width, height, minDepth, maxDepth);
      && Transformed(Vector3(-1.0, 1.0, 0.0), m) == Vector3(left, top, minDepth)
      && Transformed(Vector3(1.0, -1.0, 1.0), m) == Vector3(left + width, top + height, maxDepth)
  {
    ViewportMapsToPixels(left, top, width, height, minDepth, maxDepth, Vector3(-1.0, 1.0, 0.0));
    ViewportMapsToPixels(left, top, width, height, minDepth, maxDepth, Vector3(1.0, -1.0, 1.0));
  }

  /**
   * The demo's own viewport, 1280 by 720 pixels with depth `[0, 1]`: the
   * device corner `(-1, -1, -1)` lands on the bottom-left pixel with depth
   * -1 (depth is not clamped), and `(1, 1, 1)` on the top-right pixel with
   * depth 1.
   */
  lemma ScreenViewportCorners()
    ensures var m := MakeViewportForMatrix(0.0, 0.0, 1280.0, 720.0, 0.0, 1.0);
      && Transformed(Vector3(-1.0, -1.0, -1.0), m) == Vector3(0.0, 720.0, -1.0)
      && Transformed(Vector3(1.0, 1.0, 1.0), m) == Vector3(1280.0, 0.0, 1.0)
  {
    ViewportMapsToPixels(0.0, 0.0, 1280.0, 720.0, 0.0, 1.0, Vector3(-1.0, -1.0, -1.0));
    ViewportMapsToPixels(0.0, 0.0, 1280.0, 720.0, 0.0, 1.0, Vector3(1.0, 1.0, 1.0));
  }
}
