/** `draw_triangle_clipped`: perspective division, the mapping to the
    viewport, the scan of the clamped bounding box with the strict inside
    test, and the depth test against a depth buffer that is overwritten in
    place. The calls of `State::draw` are collected as a log. */
module Rasterizer {
  import opened Ints
  import opened LinAlg
  import opened Vertices
  import opened Triangles
  import opened Options
  import opened Shared
  import opened Bounds
  import Utils

  /** The pixel shader `shade_fn`, with the render state folded in: it gets
      the three divided vertices, the barycentric weights and the
      perspective correction, and returns a packed colour. */
  type Shader = (Vertex, Vertex, Vertex, Vec3, real) -> u32

  /** What `draw_triangle_clipped` computes before its loops: the
      reciprocals of w, the vertices divided by w and their screen points. */
  datatype Scene = Scene(rec0: real, rec1: real, rec2: real,
                         v0: Vertex, v1: Vertex, v2: Vertex,
                         sc0: Vec2, sc1: Vec2, sc2: Vec2)

  /** The screen point of a position in normalized device coordinates: x in
      [-1, 1] maps onto [0, width] and y onto [height, 0], so the corners of
      the device square land on the corners of the viewport, y flipped. */
  function ScreenPoint(ndc: Vec4, viewport: Vec2): (p: Vec2)
    ensures ndc.x == -1.0 ==> p.x == 0.0
    ensures ndc.x == 1.0 ==> p.x == viewport.x
    ensures ndc.y == 1.0 ==> p.y == 0.0
    ensures ndc.y == -1.0 ==> p.y == viewport.y
  {
    Vec2(Utils.MapToRange(ndc.x, -1.0, 1.0, 0.0, viewport.x),
         Utils.MapToRange(-ndc.y, -1.0, 1.0, 0.0, viewport.y))
  }

  /** Dividing a vertex by its w: the reciprocal undoes w and keeps its sign,
      and the divided vertex has w = 1 and the divided position. */
  lemma PerspectiveDivide(v: Vertex)
    requires v.position.w != 0.0
    ensures var rec := 1.0 / v.position.w;
            rec * v.position.w == 1.0 && (v.position.w > 0.0 <==> rec > 0.0)
            && v.Mul(rec).position.w == 1.0 && v.Mul(rec).position == v.position.Scale(rec)
  {
  }

  /** The set-up of `draw_triangle_clipped` for a clipped triangle: each
      reciprocal undoes its vertex's w and keeps its sign, every divided
      vertex has w = 1, and the screen points are those of the divided
      positions. */
  function SceneOf(t: Triangle, viewport: Vec2): (s: Scene)
    requires t.v0.position.w != 0.0 && t.v1.position.w != 0.0 && t.v2.position.w != 0.0
    ensures s.rec0 * t.v0.position.w == 1.0 && s.rec1 * t.v1.position.w == 1.0
            && s.rec2 * t.v2.position.w == 1.0
    ensures (t.v0.position.w > 0.0 <==> s.rec0 > 0.0) && (t.v1.position.w > 0.0 <==> s.rec1 > 0.0)
            && (t.v2.position.w > 0.0 <==> s.rec2 > 0.0)
    ensures s.v0.position.w == 1.0 && s.v1.position.w == 1.0 && s.v2.position.w == 1.0
    ensures s.sc0 == ScreenPoint(s.v0.position, viewport) && s.sc1 == ScreenPoint(s.v1.position, viewport)
            && s.sc2 == ScreenPoint(s.v2.position, viewport)
  {
    var rec0 := 1.0 / t.v0.position.w;
    var rec1 := 1.0 / t.v1.position.w;
    var rec2 := 1.0 / t.v2.position.w;
    PerspectiveDivide(t.v0);
    PerspectiveDivide(t.v1);
    PerspectiveDivide(t.v2);
    Scene(rec0, rec1, rec2, t.v0.Mul(rec0), t.v1.Mul(rec1), t.v2.Mul(rec2),
          ScreenPoint(t.v0.position.Scale(rec0), viewport),
          ScreenPoint(t.v1.position.Scale(rec1), viewport),
          ScreenPoint(t.v2.position.Scale(rec2), viewport))
  }

  /** Twice the signed screen area of the scene's triangle. */
  function Area(s: Scene): real {
    Utils.EdgeFunctionCw(s.sc0, s.sc1, s.sc2)
  }

  /** The scene can be drawn without dividing by zero: its screen area is not
      zero and every vertex had a positive w. */
  predicate Rasterizable(s: Scene) {
    Area(s) != 0.0 && s.rec0 > 0.0 && s.rec1 > 0.0 && s.rec2 > 0.0
  }

  /** The point sampled for pixel (x, y): its centre. */
  function PixelCentre(x: nat, y: nat): Vec2 {
    Vec2(x as real, y as real).Add(Vec2(0.5, 0.5))
  }

  /** The strict inside test at the centre of pixel (x, y). A covered
      pixel gets positive weights that sum to one and blend the three
      screen points into the pixel centre. */
  function Coverage(s: Scene, x: nat, y: nat): (r: Option<Vec3>)
    requires Area(s) != 0.0
    ensures r.Some? ==> r.value.x > 0.0 && r.value.y > 0.0 && r.value.z > 0.0
                        && r.value.x + r.value.y + r.value.z == 1.0
  {
    Utils.BarycentricWeights(PixelCentre(x, y), s.sc0, s.sc1, s.sc2);
    Utils.Barycentric(PixelCentre(x, y), s.sc0, s.sc1, s.sc2, Area(s))
  }

  /** The weights of a covered pixel blend the three screen points into the
      pixel centre. */
  lemma CoverageBlend(s: Scene, x: nat, y: nat)
    requires Area(s) != 0.0 && Coverage(s, x, y).Some?
    ensures var b := Coverage(s, x, y).value;
            s.sc0.Scale(b.x).Add(s.sc1.Scale(b.y)).Add(s.sc2.Scale(b.z)) == PixelCentre(x, y)
  {
    Utils.BarycentricBlend(PixelCentre(x, y), s.sc0, s.sc1, s.sc2);
  }

  /** The interpolated reciprocal of w, used as the depth. With positive
      weights and positive reciprocals it is positive, so the correction
      1 / depth is defined. */
  function Depth(s: Scene, b: Vec3): (d: real)
    ensures b.x > 0.0 && b.y > 0.0 && b.z > 0.0 && s.rec0 > 0.0 && s.rec1 > 0.0 && s.rec2 > 0.0 ==> d > 0.0
  {
    var d := b.x * s.rec0 + b.y * s.rec1 + b.z * s.rec2;
    if b.x > 0.0 && b.y > 0.0 && b.z > 0.0 && s.rec0 > 0.0 && s.rec1 > 0.0 && s.rec2 > 0.0 then
      Bounds.NonNegProduct(b.y, s.rec1);
      Bounds.NonNegProduct(b.z, s.rec2);
      assert b.x * s.rec0 > 0.0;
      d
    else
      d
  }

  /** The depth at a covered pixel is positive. */
  lemma CoveredDepthPositive(s: Scene, x: nat, y: nat)
    requires Rasterizable(s) && Coverage(s, x, y).Some?
    ensures Depth(s, Coverage(s, x, y).value) > 0.0
  {
    Utils.BarycentricWeights(PixelCentre(x, y), s.sc0, s.sc1, s.sc2);
  }

  /** The depth buffer and the log of draw calls. */
  datatype Frame = Frame(zbuff: seq<real>, draws: seq<Draw>)

  /** The draw call issued for a covered pixel: at the pixel itself when
      both coordinates fit in 16 bits, with the colour the shader gives for
      the pixel's weights and the perspective correction 1 / depth. */
  function DrawAt(s: Scene, shade: Shader, x: nat, y: nat): (d: Draw)
    requires Rasterizable(s) && Coverage(s, x, y).Some?
    ensures x < U16Limit && y < U16Limit ==> d.x == x && d.y == y
    ensures Depth(s, Coverage(s, x, y).value) > 0.0
    ensures d.color == shade(s.v0, s.v1, s.v2, Coverage(s, x, y).value, 1.0 / Depth(s, Coverage(s, x, y).value))
  {
    var b := Coverage(s, x, y).value;
    CoveredDepthPositive(s, x, y);
    Draw(UsizeToU16(x), UsizeToU16(y), shade(s.v0, s.v1, s.v2, b, 1.0 / Depth(s, b)))
  }

  /** One iteration of the inner loop for pixel (x, y): an index outside the
      frame is skipped; a covered pixel whose depth is at most the stored
      one overwrites the stored depth and issues one draw call. */
  function PixelStep(s: Scene, shade: Shader, x: nat, y: nat, f: Frame): (g: Frame)
    requires Rasterizable(s) && |f.zbuff| >= Width * Height
    ensures |g.zbuff| == |f.zbuff|
  {
    var id := CoordsToIndex(PixelCentre(x, y));
    if id >= Width * Height then f
    else
      match Coverage(s, x, y)
      case None => f
      case Some(b) =>
        var depth := Depth(s, b);
        if depth <= f.zbuff[id] then
          Frame(f.zbuff[id := depth], f.draws + [DrawAt(s, shade, x, y)])
        else f
  }

  /** The inner loop from column x up to (not including) column xEnd. */
  function ScanRow(s: Scene, shade: Shader, y: nat, x: nat, xEnd: nat, f: Frame): (g: Frame)
    requires Rasterizable(s) && |f.zbuff| >= Width * Height
    ensures |g.zbuff| == |f.zbuff|
    decreases xEnd - x
  {
    if x >= xEnd then f
    else ScanRow(s, shade, y, x + 1, xEnd, PixelStep(s, shade, x, y, f))
  }

  /** The outer loop from row y up to (not including) row yEnd, each row
      scanning columns xStart up to xEnd. */
  function ScanRows(s: Scene, shade: Shader, y: nat, yEnd: nat, xStart: nat, xEnd: nat, f: Frame): (g: Frame)
    requires Rasterizable(s) && |f.zbuff| >= Width * Height
    ensures |g.zbuff| == |f.zbuff|
    decreases yEnd - y
  {
    if y >= yEnd then f
    else ScanRows(s, shade, y + 1, yEnd, xStart, xEnd, ScanRow(s, shade, y, xStart, xEnd, f))
  }

  /** The pixel rectangle a loop nest visits. */
  datatype Rect = Rect(xStart: nat, xEnd: nat, yStart: nat, yEnd: nat)

  /** The loop bounds as written: each corner of the clamped box truncated
      to `usize`, upper bounds excluded. */
  function ScanRect(b: Box): Rect {
    Rect(TruncUsize(b.min.x), TruncUsize(b.max.x), TruncUsize(b.min.y), TruncUsize(b.max.y))
  }

  /** The screen box of a scene clamped to the viewport. */
  function ScreenBox(s: Scene, viewport: Vec2): Box {
    ClampBox(TriangleBounds(s.sc0, s.sc1, s.sc2), Vec2(0.0, 0.0), viewport)
  }

  /** All of `draw_triangle_clipped` on a frame. */
  function Rasterize(t: Triangle, shade: Shader, viewport: Vec2, f: Frame): (g: Frame)
    requires t.v0.position.w > 0.0 && t.v1.position.w > 0.0 && t.v2.position.w > 0.0
    requires Rasterizable(SceneOf(t, viewport)) && |f.zbuff| >= Width * Height
    ensures |g.zbuff| == |f.zbuff|
  {
    var s := SceneOf(t, viewport);
    var r := ScanRect(ScreenBox(s, viewport));
    ScanRows(s, shade, r.yStart, r.yEnd, r.xStart, r.xEnd, f)
  }

  /** The body of the inner loop of `draw_triangle_clipped` for pixel
      (x, y), on the depth buffer in place. */
  method DrawPixel(s: Scene, shade: Shader, x: nat, y: nat, zbuff: array<real>, draws: seq<Draw>)
    returns (drawn: seq<Draw>)
    requires Rasterizable(s) && zbuff.Length >= Width * Height
    modifies zbuff
    ensures Frame(zbuff[..], drawn) == PixelStep(s, shade, x, y, Frame(old(zbuff[..]), draws))
  {
    drawn := draws;
    var coords := Vec2(x as real, y as real).Add(Vec2(0.5, 0.5));
    assert coords == PixelCentre(x, y);
    var pixelId := CoordsToIndex(coords);
    if pixelId >= Width * Height {
      return;
    }
    var area := Utils.EdgeFunctionCw(s.sc0, s.sc1, s.sc2);
    var bary := Utils.Barycentric(coords, s.sc0, s.sc1, s.sc2, area);
    assert bary == Coverage(s, x, y);
    if bary.Some? {
      var b := bary.value;
      CoveredDepthPositive(s, x, y);
      var correction := b.x * s.rec0 + b.y * s.rec1 + b.z * s.rec2;
      assert correction == Depth(s, b);
      var depth := correction;
      correction := 1.0 / correction;
      if depth <= zbuff[pixelId] {
        ghost var before := zbuff[..];
        zbuff[pixelId] := depth;
        assert zbuff[..] == before[pixelId := depth];
        var color := shade(s.v0, s.v1, s.v2, b, correction);
        assert Draw(UsizeToU16(x), UsizeToU16(y), color) == DrawAt(s, shade, x, y);
        drawn := drawn + [Draw(UsizeToU16(x), UsizeToU16(y), color)];
      }
    }
  }

  /** The inner loop of `draw_triangle_clipped`: row y, columns xStart up to
      xEnd. */
  method DrawRow(s: Scene, shade: Shader, y: nat, xStart: nat, xEnd: nat, zbuff: array<real>, draws: seq<Draw>)
    returns (drawn: seq<Draw>)
    requires Rasterizable(s) && zbuff.Length >= Width * Height
    modifies zbuff
    ensures Frame(zbuff[..], drawn) == ScanRow(s, shade, y, xStart, xEnd, Frame(old(zbuff[..]), draws))
  {
    ghost var goal := ScanRow(s, shade, y, xStart, xEnd, Frame(zbuff[..], draws));
    drawn := draws;
    var x := xStart;
    while x < xEnd
      invariant ScanRow(s, shade, y, x, xEnd, Frame(zbuff[..], drawn)) == goal
      decreases xEnd - x
    {
      drawn := DrawPixel(s, shade, x, y, zbuff, drawn);
      x := x + 1;
    }
  }

  /** `draw_triangle_clipped`: the set-up, then the outer loop over the rows
      of the clamped box; it agrees with `Rasterize`. */
  method DrawTriangleClipped(t: Triangle, shade: Shader, viewport: Vec2, zbuff: array<real>)
    returns (draws: seq<Draw>)
    requires t.v0.position.w > 0.0 && t.v1.position.w > 0.0 && t.v2.position.w > 0.0
    requires Rasterizable(SceneOf(t, viewport)) && zbuff.Length >= Width * Height
    modifies zbuff
    ensures Frame(zbuff[..], draws) == Rasterize(t, shade, viewport, Frame(old(zbuff[..]), []))
  {
    var rec0 := 1.0 / t.v0.position.w;
    var rec1 := 1.0 / t.v1.position.w;
    var rec2 := 1.0 / t.v2.position.w;
    PerspectiveDivide(t.v0);
    PerspectiveDivide(t.v1);
    PerspectiveDivide(t.v2);
    var ndc0 := t.v0.position.Scale(rec0);
    var ndc1 := t.v1.position.Scale(rec1);
    var ndc2 := t.v2.position.Scale(rec2);
    var v0 := t.v0.Mul(rec0);
    var v1 := t.v1.Mul(rec1);
    var v2 := t.v2.Mul(rec2);
    var sc0 := ScreenPoint(ndc0, viewport);
    var sc1 := ScreenPoint(ndc1, viewport);
    var sc2 := ScreenPoint(ndc2, viewport);
    var s := Scene(rec0, rec1, rec2, v0, v1, v2, sc0, sc1, sc2);
    assert s == SceneOf(t, viewport);

    var bounds := new BoundingBox2D.FromTriangle([sc0, sc1, sc2]);
    bounds.Clamp(Vec2(0.0, 0.0), viewport);
    var yStart, yEnd := TruncUsize(bounds.min.y), TruncUsize(bounds.max.y);
    var xStart, xEnd := TruncUsize(bounds.min.x), TruncUsize(bounds.max.x);
    assert Rect(xStart, xEnd, yStart, yEnd) == ScanRect(ScreenBox(s, viewport));
    draws := DrawRows(s, shade, yStart, yEnd, xStart, xEnd, zbuff);
  }

  /** The outer loop of `draw_triangle_clipped`: rows yStart up to yEnd,
      starting from an empty log. */
  method DrawRows(s: Scene, shade: Shader, yStart: nat, yEnd: nat, xStart: nat, xEnd: nat, zbuff: array<real>)
    returns (draws: seq<Draw>)
    requires Rasterizable(s) && zbuff.Length >= Width * Height
    modifies zbuff
    ensures Frame(zbuff[..], draws) == ScanRows(s, shade, yStart, yEnd, xStart, xEnd, Frame(old(zbuff[..]), []))
  {
    ghost var goal := ScanRows(s, shade, yStart, yEnd, xStart, xEnd, Frame(zbuff[..], []));
    draws := [];
    var y := yStart;
    while y < yEnd
      invariant ScanRows(s, shade, y, yEnd, xStart, xEnd, Frame(zbuff[..], draws)) == goal
      decreases yEnd - y
    {
      draws := DrawRow(s, shade, y, xStart, xEnd, zbuff, draws);
      y := y + 1;
    }
  }
}
