/**
 * The field of view of the camera (`FieldOfViewVertices`): a fixed ring of
 * points around the border of the viewport, in normalized device
 * coordinates, unprojected to world space through the projection and rotated
 * to model space. Either every point unprojects and the field of view is the
 * polygon they form, or it is the whole sky.
 */
module FovVertices {
  import opened Options

  /** A point in normalized device coordinates, or in clip space. */
  datatype Vec2 = Vec2(x: real, y: real)

  /** A homogeneous point in world or model space. */
  datatype Vec4 = Vec4(x: real, y: real, z: real, w: real)

  /** The product `mat * w` of a 4x4 matrix with a point. */
  type Mat4 = Vec4 -> Vec4

  /**
   * The projection `P`: its inverse from clip space to world space (with the
   * longitude-reversed flag), which fails outside the projection's domain,
   * and the aperture below which its field of view may be a polygon.
   */
  datatype Projection = Projection(clipToWorldSpace: (Vec2, bool) -> Option<Vec4>,
                                   rasterThresholdAngle: real)

  /** The outline of the field of view: a polygon of model-space vertices, or the whole sky. */
  datatype FieldOfViewType = Polygon(vertices: seq<Vec4>) | AllSky

  const NumVerticesWidth: nat := 10
  const NumVerticesHeight: nat := 10
  /** The 4 corners and the points strictly inside each side of the viewport. */
  const NumVertices: nat := 4 + 2 * NumVerticesWidth + 2 * NumVerticesHeight

  /** The clip-space point `ndc_to_world` unprojects for the NDC point `n`. */
  function ClipOf(n: Vec2, ndcToClip: Vec2, clipZoomFactor: real): Vec2 {
    Vec2(n.x * ndcToClip.x * clipZoomFactor, n.y * ndcToClip.y * clipZoomFactor)
  }

  /**
   * `world` is what unprojecting every point of `ndc` gives: nothing when one
   * point lies outside the projection's domain, otherwise the unprojection of
   * each point, in order.
   */
  ghost predicate Unprojects(proj: Projection, ndc: seq<Vec2>, ndcToClip: Vec2, clipZoomFactor: real,
                             longitudeReversed: bool, world: Option<seq<Vec4>>)
  {
    match world
    case None =>
      exists k :: 0 <= k < |ndc| && proj.clipToWorldSpace(ClipOf(ndc[k], ndcToClip, clipZoomFactor), longitudeReversed).None?
    case Some(ws) =>
      && |ws| == |ndc|
      && forall k :: 0 <= k < |ndc| ==>
           proj.clipToWorldSpace(ClipOf(ndc[k], ndcToClip, clipZoomFactor), longitudeReversed) == Some(ws[k])
  }

  /** The unprojection of a ring is all-or-nothing and determined by the ring. */
  lemma {:induction false} UnprojectsUnique(proj: Projection, ndc: seq<Vec2>, ndcToClip: Vec2, clipZoomFactor: real,
                                            longitudeReversed: bool, w1: Option<seq<Vec4>>, w2: Option<seq<Vec4>>)
    requires Unprojects(proj, ndc, ndcToClip, clipZoomFactor, longitudeReversed, w1)
    requires Unprojects(proj, ndc, ndcToClip, clipZoomFactor, longitudeReversed, w2)
    ensures w1 == w2
  {
    match w1
    case None =>
      if w2.Some? {
        assert false;
      }
    case Some(ws1) =>
      match w2
      case None =>
        assert false;
      case Some(ws2) =>
        assert |ws1| == |ws2|;
        assert forall k :: 0 <= k < |ws1| ==> ws1[k] == ws2[k] by {
          forall k | 0 <= k < |ws1|
            ensures ws1[k] == ws2[k]
          {
            assert Some(ws1[k]) == proj.clipToWorldSpace(ClipOf(ndc[k], ndcToClip, clipZoomFactor), longitudeReversed);
          }
        }
        assert ws1 == ws2;
  }

  /**
   * `ndc_to_world`: unprojects the points one by one and gives up at the
   * first one outside the projection's domain.
   */
  method NdcToWorld(proj: Projection, ndcCoo: seq<Vec2>, ndcToClip: Vec2, clipZoomFactor: real,
                    longitudeReversed: bool)
    returns (worldCoo: Option<seq<Vec4>>)
    ensures Unprojects(proj, ndcCoo, ndcToClip, clipZoomFactor, longitudeReversed, worldCoo)
  {
    var world: seq<Vec4> := [];
    var k := 0;
    while k < |ndcCoo|
      invariant k <= |ndcCoo| && |world| == k
      invariant forall i :: 0 <= i < k ==>
                  proj.clipToWorldSpace(ClipOf(ndcCoo[i], ndcToClip, clipZoomFactor), longitudeReversed) == Some(world[i])
    {
      var n := ndcCoo[k];
      var c := ClipOf(n, ndcToClip, clipZoomFactor);
      var w := proj.clipToWorldSpace(c, longitudeReversed);
      if w.None? {
        assert proj.clipToWorldSpace(ClipOf(ndcCoo[k], ndcToClip, clipZoomFactor), longitudeReversed).None?;
        return None;
      }
      world := world + [w.value];
      k := k + 1;
    }
    return Some(world);
  }

  /** `model` is `world` taken point by point through `mat`. */
  ghost predicate Transforms(mat: Mat4, world: seq<Vec4>, model: seq<Vec4>) {
    |model| == |world| && forall k :: 0 <= k < |world| ==> model[k] == mat(world[k])
  }

  /** `world_to_model`: each point through the matrix, in order. */
  method WorldToModel(worldCoo: seq<Vec4>, mat: Mat4) returns (modelCoo: seq<Vec4>)
    ensures Transforms(mat, worldCoo, modelCoo)
  {
    modelCoo := [];
    for k := 0 to |worldCoo|
      invariant |modelCoo| == k
      invariant forall i :: 0 <= i < k ==> modelCoo[i] == mat(worldCoo[i])
    {
      modelCoo := modelCoo + [mat(worldCoo[k])];
    }
  }

  /**
   * `linspace(a, b, n)` over the reals: `n` values from `a` to `b`, both
   * included, each between the two, consecutive ones one `(b - a) / (n - 1)`
   * apart; the `i`-th is `a + i * ((b - a) / (n - 1))`.
   */
  function Linspace(a: real, b: real, n: nat): (xs: seq<real>)
    requires n >= 2
    ensures |xs| == n && xs[0] == a && xs[n - 1] == b
    ensures forall i :: 0 <= i < n - 1 ==> xs[i + 1] - xs[i] == (b - a) / ((n - 1) as real)
    ensures forall i :: 0 <= i < n ==> xs[i] == a + (i as real) * ((b - a) / ((n - 1) as real))
    ensures forall i :: 0 <= i < n ==> (a <= b ==> a <= xs[i] <= b) && (b <= a ==> b <= xs[i] <= a)
  {
    var step := (b - a) / ((n - 1) as real);
    var xs := seq(n, i requires 0 <= i < n => a + (i as real) * step);
    LinspaceSpaced(a, b, n, step, xs);
    LinspaceBounded(a, b, n, step, xs);
    xs
  }

  /** Values `step` apart from `a` are `(b - a) / (n - 1)` apart, and `n - 1` steps reach `b`. */
  lemma LinspaceSpaced(a: real, b: real, n: nat, step: real, xs: seq<real>)
    requires n >= 2 && step == (b - a) / ((n - 1) as real)
    requires |xs| == n && forall i :: 0 <= i < n ==> xs[i] == a + (i as real) * step
    ensures xs[0] == a && xs[n - 1] == b
    ensures forall i :: 0 <= i < n - 1 ==> xs[i + 1] - xs[i] == (b - a) / ((n - 1) as real)
    ensures forall i :: 0 <= i < n ==> xs[i] == a + (i as real) * ((b - a) / ((n - 1) as real))
  {
    forall i | 0 <= i < n - 1
      ensures xs[i + 1] - xs[i] == step
    {
      LinspaceStep(step, i);
    }
    LinspaceLast(a, b, n, step);
  }

  /** Values `step` apart from `a`, with `n - 1` steps reaching `b`, lie between `a` and `b`. */
  lemma LinspaceBounded(a: real, b: real, n: nat, step: real, xs: seq<real>)
    requires n >= 2 && step == (b - a) / ((n - 1) as real)
    requires |xs| == n && forall i :: 0 <= i < n ==> xs[i] == a + (i as real) * step
    ensures forall i :: 0 <= i < n ==> (a <= b ==> a <= xs[i] <= b) && (b <= a ==> b <= xs[i] <= a)
  {
    forall i | 0 <= i < n
      ensures (a <= b ==> a <= xs[i] <= b) && (b <= a ==> b <= xs[i] <= a)
    {
      LinspaceBetween(a, b, n, step, i);
    }
  }

  /** The `i + 1`-th multiple of `step` is one `step` past the `i`-th. */
  lemma LinspaceStep(step: real, i: nat)
    ensures ((i + 1) as real) * step - (i as real) * step == step
  {
    assert ((i + 1) as real) * step == (i as real) * step + 1.0 * step;
  }

  /** `n - 1` steps of `(b - a) / (n - 1)` lead from `a` to `b`. */
  lemma LinspaceLast(a: real, b: real, n: nat, step: real)
    requires n >= 2 && step == (b - a) / ((n - 1) as real)
    ensures a + ((n - 1) as real) * step == b
  {
  }

  /** Each step from `a` towards `b` stays between the two. */
  lemma LinspaceBetween(a: real, b: real, n: nat, step: real, i: nat)
    requires i < n && n >= 2 && step == (b - a) / ((n - 1) as real)
    ensures a <= b ==> a <= a + (i as real) * step <= b
    ensures b <= a ==> b <= a + (i as real) * step <= a
  {
    LinspaceLast(a, b, n, step);
    if 0.0 <= step {
      assert (i as real) * step <= ((n - 1) as real) * step;
    } else {
      assert ((n - 1) as real) * step <= (i as real) * step;
    }
  }

  /** `iter::repeat(v).take(n)`. */
  function Repeat(v: real, n: nat): (xs: seq<real>)
    ensures |xs| == n && forall i :: 0 <= i < n ==> xs[i] == v
  {
    seq(n, _ => v)
  }

  /** A point on the border of the viewport `[-1, 1] x [-1, 1]`. */
  predicate OnBorder(p: Vec2) {
    && -1.0 <= p.x <= 1.0 && -1.0 <= p.y <= 1.0
    && (p.x == 1.0 || p.x == -1.0 || p.y == 1.0 || p.y == -1.0)
  }

  /**
   * The `k`-th point of the border ring, side by side: the bottom side from
   * the bottom-left corner to the bottom-right one, then the points strictly
   * inside the right side upwards, the top side from the top-right corner to
   * the top-left one, and the points strictly inside the left side downwards;
   * each side is cut into `NumVerticesWidth + 1` (or `NumVerticesHeight + 1`)
   * equal segments.
   */
  function RingPoint(k: nat): Vec2
    requires k < NumVertices
  {
    var dx := 2.0 / ((NumVerticesWidth + 1) as real);
    var dy := 2.0 / ((NumVerticesHeight + 1) as real);
    var right := NumVerticesWidth + 1;
    var top := right + NumVerticesHeight + 1;
    var left := top + NumVerticesWidth + 1;
    if k <= right then Vec2(-1.0 + (k as real) * dx, -1.0)
    else if k < top then Vec2(1.0, -1.0 + ((k - right) as real) * dy)
    else if k <= left then Vec2(1.0 - ((k - top) as real) * dx, 1.0)
    else Vec2(-1.0, 1.0 - ((k - left) as real) * dy)
  }

  /** The border ring: `NumVertices` points, from the bottom-left corner counter-clockwise. */
  function Ring(): (r: seq<Vec2>)
    ensures |r| == NumVertices && forall k :: 0 <= k < NumVertices ==> r[k] == RingPoint(k)
  {
    seq(NumVertices, k requires 0 <= k < NumVertices => RingPoint(k))
  }

  /**
   * Every ring point is on the border of the viewport, the four corners are
   * at the places the sides meet, and consecutive points differ.
   */
  lemma {:induction false} RingOnBorder()
    ensures forall k :: 0 <= k < NumVertices ==> OnBorder(Ring()[k])
    ensures Ring()[0] == Vec2(-1.0, -1.0) && Ring()[NumVerticesWidth + 1] == Vec2(1.0, -1.0)
    ensures Ring()[NumVerticesWidth + NumVerticesHeight + 2] == Vec2(1.0, 1.0)
    ensures Ring()[2 * NumVerticesWidth + NumVerticesHeight + 3] == Vec2(-1.0, 1.0)
    ensures forall k :: 0 <= k < NumVertices - 1 ==> Ring()[k] != Ring()[k + 1]
    ensures Ring()[NumVertices - 1] != Ring()[0]
  {
    forall k | 0 <= k < NumVertices
      ensures OnBorder(RingPoint(k))
      ensures k < NumVertices - 1 ==> RingPoint(k) != RingPoint(k + 1)
    {
    }
  }

  /**
   * The ring `FieldOfViewVertices::new` samples, built as the source builds
   * it: the x and y coordinates as runs of `linspace` and repeated values,
   * the last y dropped, then zipped point by point.
   */
  method NdcRing() returns (ndcCoo: seq<Vec2>)
    ensures ndcCoo == Ring()
    ensures |ndcCoo| == NumVertices
    ensures forall k :: 0 <= k < |ndcCoo| ==> OnBorder(ndcCoo[k])
  {
    var bottom := Linspace(-1.0, 1.0, NumVerticesWidth + 2);
    var top := Linspace(1.0, -1.0, NumVerticesWidth + 2);
    var xNdc := bottom;
    xNdc := xNdc + Repeat(1.0, NumVerticesHeight);
    xNdc := xNdc + top;
    xNdc := xNdc + Repeat(-1.0, NumVerticesHeight);

    var up := Linspace(-1.0, 1.0, NumVerticesHeight + 2);
    var down := Linspace(1.0, -1.0, NumVerticesHeight + 2);
    var yNdc := Repeat(-1.0, NumVerticesWidth + 1);
    yNdc := yNdc + up;
    yNdc := yNdc + Repeat(1.0, NumVerticesWidth);
    yNdc := yNdc + down;
    assert |yNdc| == NumVertices + 1;
    yNdc := yNdc[..|yNdc| - 1];
    ZipIsRing(bottom, up, top, down, xNdc, yNdc);

    ndcCoo := [];
    for idxVertex := 0 to NumVertices
      invariant |ndcCoo| == idxVertex
      invariant forall k :: 0 <= k < idxVertex ==> ndcCoo[k] == RingPoint(k)
    {
      ndcCoo := ndcCoo + [Vec2(xNdc[idxVertex], yNdc[idxVertex])];
    }
    RingOnBorder();
  }

  /**
   * The x list and the y list `FieldOfViewVertices::new` assembles, zipped,
   * give the reference ring point by point.
   */
  lemma ZipIsRing(bottom: seq<real>, up: seq<real>, top: seq<real>, down: seq<real>,
                  xNdc: seq<real>, yNdc: seq<real>)
    requires bottom == Linspace(-1.0, 1.0, NumVerticesWidth + 2)
    requires top == Linspace(1.0, -1.0, NumVerticesWidth + 2)
    requires up == Linspace(-1.0, 1.0, NumVerticesHeight + 2)
    requires down == Linspace(1.0, -1.0, NumVerticesHeight + 2)
    requires xNdc == bottom + Repeat(1.0, NumVerticesHeight) + top + Repeat(-1.0, NumVerticesHeight)
    requires yNdc == (Repeat(-1.0, NumVerticesWidth + 1) + up + Repeat(1.0, NumVerticesWidth) + down)[..NumVertices]
    ensures |xNdc| == |yNdc| == NumVertices
    ensures forall k :: 0 <= k < NumVertices ==> Vec2(xNdc[k], yNdc[k]) == RingPoint(k)
  {
    assert forall k :: 0 <= k < 12 ==> xNdc[k] == bottom[k] && yNdc[k] == -1.0;
    assert forall k :: 12 <= k < 22 ==> xNdc[k] == 1.0 && yNdc[k] == up[k - 11];
    assert forall k :: 22 <= k < 34 ==> xNdc[k] == top[k - 22] && yNdc[k] == 1.0;
    assert forall k :: 34 <= k < 44 ==> xNdc[k] == -1.0 && yNdc[k] == down[k - 33];
    BottomSide(bottom);
    RightSide(up);
    TopSide(top);
    LeftSide(down);
  }

  /** The bottom side of the ring is `linspace(-1, 1)` at `y = -1`. */
  lemma BottomSide(xs: seq<real>)
    requires xs == Linspace(-1.0, 1.0, NumVerticesWidth + 2)
    ensures forall k :: 0 <= k < NumVerticesWidth + 2 ==> RingPoint(k) == Vec2(xs[k], -1.0)
  {
  }

  /** Inside the right side, the ring follows `linspace(-1, 1)` at `x = 1`. */
  lemma RightSide(ys: seq<real>)
    requires ys == Linspace(-1.0, 1.0, NumVerticesHeight + 2)
    ensures forall k :: NumVerticesWidth + 2 <= k < NumVerticesWidth + NumVerticesHeight + 2 ==>
      RingPoint(k) == Vec2(1.0, ys[k - NumVerticesWidth - 1])
  {
  }

  /** The top side of the ring is `linspace(1, -1)` at `y = 1`. */
  lemma TopSide(xs: seq<real>)
    requires xs == Linspace(1.0, -1.0, NumVerticesWidth + 2)
    ensures forall k :: NumVerticesWidth + NumVerticesHeight + 2 <= k < 2 * NumVerticesWidth + NumVerticesHeight + 4 ==>
      RingPoint(k) == Vec2(xs[k - NumVerticesWidth - NumVerticesHeight - 2], 1.0)
  {
  }

  /** Inside the left side, the ring follows `linspace(1, -1)` at `x = -1`. */
  lemma LeftSide(ys: seq<real>)
    requires ys == Linspace(1.0, -1.0, NumVerticesHeight + 2)
    ensures forall k :: 2 * NumVerticesWidth + NumVerticesHeight + 4 <= k < NumVertices ==>
      RingPoint(k) == Vec2(-1.0, ys[k - 2 * NumVerticesWidth - NumVerticesHeight - 3])
  {
  }

  /**
   * The outline `set_great_circles` settles on: the polygon of the model
   * vertices below the projection's threshold aperture when every point
   * unprojected, the whole sky otherwise.
   */
  function GreatCircles(aperture: real, threshold: real, modelCoo: Option<seq<Vec4>>): (t: FieldOfViewType)
    ensures t.Polygon? <==> aperture < threshold && modelCoo.Some?
    ensures t.Polygon? ==> modelCoo == Some(t.vertices)
  {
    if aperture < threshold && modelCoo.Some? then Polygon(modelCoo.value) else AllSky
  }

  /** The field of view of the camera, as `CameraViewPort` keeps it. */
  class FieldOfViewVertices {
    var ndcCoo: seq<Vec2>
    var worldCoo: Option<seq<Vec4>>
    var modelCoo: Option<seq<Vec4>>
    var greatCircles: FieldOfViewType

    /**
     * The ring is the fixed border ring; model vertices exist exactly when
     * world vertices do, one per ring point; a polygon outline is made of the
     * model vertices.
     */
    ghost predicate Valid()
      reads this
    {
      && ndcCoo == Ring()
      && |ndcCoo| == NumVertices
      && (forall k :: 0 <= k < |ndcCoo| ==> OnBorder(ndcCoo[k]))
      && (worldCoo.Some? ==> |worldCoo.value| == |ndcCoo|)
      && (modelCoo.Some? <==> worldCoo.Some?)
      && (modelCoo.Some? ==> |modelCoo.value| == |worldCoo.value|)
      && (greatCircles.Polygon? ==> modelCoo == Some(greatCircles.vertices))
    }

    /**
     * `FieldOfViewVertices::new`: samples the ring, unprojects it and rotates
     * it; the outline is the polygon exactly when every ring point unprojected
     * (no aperture test here).
     */
    constructor (proj: Projection, ndcToClip: Vec2, clipZoomFactor: real, mat: Mat4, longitudeReversed: bool)
      ensures Valid() && ndcCoo == Ring()
      ensures Unprojects(proj, ndcCoo, ndcToClip, clipZoomFactor, longitudeReversed, worldCoo)
      ensures worldCoo.Some? ==> Transforms(mat, worldCoo.value, modelCoo.value)
      ensures greatCircles.Polygon? <==> worldCoo.Some?
      ensures greatCircles.Polygon? ==> modelCoo == Some(greatCircles.vertices)
    {
      var ring := NdcRing();
      var world := NdcToWorld(proj, ring, ndcToClip, clipZoomFactor, longitudeReversed);
      var model: Option<seq<Vec4>> := None;
      if world.Some? {
        var m := WorldToModel(world.value, mat);
        model := Some(m);
      }
      ndcCoo := ring;
      worldCoo := world;
      modelCoo := model;
      greatCircles := if model.Some? then Polygon(model.value) else AllSky;
    }

    /** `set_projection`: the field of view recomputed for a new projection. */
    method SetProjection(proj: Projection, ndcToClip: Vec2, clipZoomFactor: real, w2m: Mat4, aperture: real,
                         longitudeReversed: bool)
      requires Valid()
      modifies this
      ensures Valid()
      ensures ndcCoo == old(ndcCoo)
      ensures Unprojects(proj, ndcCoo, ndcToClip, clipZoomFactor, longitudeReversed, worldCoo)
      ensures worldCoo.Some? ==> Transforms(w2m, worldCoo.value, modelCoo.value)
      ensures greatCircles == GreatCircles(aperture, proj.rasterThresholdAngle, modelCoo)
    {
      SetFov(proj, ndcToClip, clipZoomFactor, w2m, aperture, longitudeReversed);
    }

    /**
     * `set_fov`: unprojects the stored ring again (it does not change), then
     * rotates and settles the outline as `set_rotation` does.
     */
    method SetFov(proj: Projection, ndcToClip: Vec2, clipZoomFactor: real, w2m: Mat4, aperture: real,
                  longitudeReversed: bool)
      requires Valid()
      modifies this
      ensures Valid()
      ensures ndcCoo == old(ndcCoo)
      ensures Unprojects(proj, ndcCoo, ndcToClip, clipZoomFactor, longitudeReversed, worldCoo)
      ensures worldCoo.Some? ==> Transforms(w2m, worldCoo.value, modelCoo.value)
      ensures greatCircles == GreatCircles(aperture, proj.rasterThresholdAngle, modelCoo)
    {
      worldCoo := NdcToWorld(proj, ndcCoo, ndcToClip, clipZoomFactor, longitudeReversed);
      SetRotation(proj, w2m, aperture);
    }

    /**
     * `set_rotation`: the model vertices are the world vertices through the
     * new rotation, or none when there are none; then the outline is settled.
     */
    method SetRotation(proj: Projection, w2m: Mat4, aperture: real)
      requires worldCoo.Some? ==> |worldCoo.value| == |ndcCoo|
      requires ndcCoo == Ring()
      modifies this
      ensures Valid()
      ensures ndcCoo == old(ndcCoo) && worldCoo == old(worldCoo)
      ensures modelCoo.Some? <==> worldCoo.Some?
      ensures worldCoo.Some? ==> Transforms(w2m, worldCoo.value, modelCoo.value)
      ensures greatCircles == GreatCircles(aperture, proj.rasterThresholdAngle, modelCoo)
    {
      RingOnBorder();
      if worldCoo.Some? {
        var m := WorldToModel(worldCoo.value, w2m);
        modelCoo := Some(m);
      } else {
        modelCoo := None;
      }
      SetGreatCircles(proj, aperture);
    }

    /**
     * `set_great_circles`: below the threshold aperture the outline is the
     * polygon of the model vertices if there are any and the whole sky
     * otherwise; at or above it, the whole sky.
     */
    method SetGreatCircles(proj: Projection, aperture: real)
      modifies this
      ensures greatCircles == GreatCircles(aperture, proj.rasterThresholdAngle, modelCoo)
      ensures ndcCoo == old(ndcCoo) && worldCoo == old(worldCoo) && modelCoo == old(modelCoo)
    {
      if aperture < proj.rasterThresholdAngle {
        if modelCoo.Some? {
          greatCircles := Polygon(modelCoo.value);
        } else if greatCircles.Polygon? {
          greatCircles := AllSky;
        }
      } else {
        if greatCircles.Polygon? {
          greatCircles := AllSky;
        }
      }
    }
  }
}
