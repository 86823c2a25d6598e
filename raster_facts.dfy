/** What one call of `draw_triangle_clipped` does to the depth buffer and
    which draw calls it issues, stated without the loops: the buffer becomes
    the pointwise minimum of the old depths and the triangle's depths over
    the covered pixels of the scanned rectangle, and the draw calls are the
    covered pixels that pass the depth test against the old buffer, in scan
    order. */
module RasterFacts {
  import opened Ints
  import opened LinAlg
  import opened Triangles
  import opened Options
  import opened Shared
  import opened Bounds
  import opened Rasterizer
  import Utils

  /** Pixel (x, y) lies in the rectangle. */
  predicate InRect(r: Rect, x: nat, y: nat) {
    r.xStart <= x < r.xEnd && r.yStart <= y < r.yEnd
  }

  /** The pixel whose centre maps to buffer index i. */
  function Column(i: nat): nat { i / Width }
  function Row(i: nat): nat { i % Width }

  /** The value entry i of buffer z0 takes once rectangle r is drawn: the
      smaller of the stored depth and the triangle's depth when the pixel is
      in the frame, in r and covered; the stored depth otherwise. */
  ghost function LoweredAt(s: Scene, r: Rect, z0: seq<real>, i: nat): real
    requires Rasterizable(s) && i < |z0|
  {
    if i < Width * Height && InRect(r, Column(i), Row(i)) && Coverage(s, Column(i), Row(i)).Some? then
      Min(z0[i], Depth(s, Coverage(s, Column(i), Row(i)).value))
    else z0[i]
  }

  /** Buffer z is z0 with rectangle r drawn. */
  ghost predicate Lowered(s: Scene, r: Rect, z0: seq<real>, z: seq<real>)
    requires Rasterizable(s)
  {
    |z| == |z0| && forall i :: 0 <= i < |z0| ==> z[i] == LoweredAt(s, r, z0, i)
  }

  /** The two buffers hold the same depth at every in-frame pixel of r. */
  ghost predicate AgreeOn(r: Rect, z: seq<real>, z2: seq<real>)
    requires |z| >= Width * Height && |z2| >= Width * Height
  {
    forall i :: 0 <= i < Width * Height && InRect(r, Column(i), Row(i)) ==> z[i] == z2[i]
  }

  /** Pixel (x, y) passes both tests against buffer z: its centre is covered
      and its depth is at most the stored one. */
  predicate Hit(s: Scene, z: seq<real>, x: nat, y: nat)
    requires Rasterizable(s) && |z| >= Width * Height
  {
    x * Width + y < Width * Height && Coverage(s, x, y).Some?
    && Depth(s, Coverage(s, x, y).value) <= z[x * Width + y]
  }

  /** The draw calls for row y, columns x up to xEnd, against a fixed buffer. */
  function RowHits(s: Scene, shade: Shader, z: seq<real>, y: nat, x: nat, xEnd: nat): seq<Draw>
    requires Rasterizable(s) && |z| >= Width * Height
    decreases xEnd - x
  {
    if x >= xEnd then []
    else (if Hit(s, z, x, y) then [DrawAt(s, shade, x, y)] else []) + RowHits(s, shade, z, y, x + 1, xEnd)
  }

  /** The draw calls for rows y up to yEnd, row after row, against a fixed
      buffer. */
  function RectHits(s: Scene, shade: Shader, z: seq<real>, y: nat, yEnd: nat, xStart: nat, xEnd: nat): seq<Draw>
    requires Rasterizable(s) && |z| >= Width * Height
    decreases yEnd - y
  {
    if y >= yEnd then []
    else RowHits(s, shade, z, y, xStart, xEnd) + RectHits(s, shade, z, y + 1, yEnd, xStart, xEnd)
  }

  /** For a row inside the frame width, index x * WIDTH + y belongs to pixel
      (x, y) and to no other. */
  lemma IndexOfPixel(i: nat, x: nat, y: nat)
    requires y < Width
    ensures (Column(i) == x && Row(i) == y) <==> i == x * Width + y
  {
  }

  /** Drawing an empty rectangle leaves the buffer as it is. */
  lemma LoweredEmpty(s: Scene, r: Rect, z: seq<real>)
    requires Rasterizable(s) && (r.xEnd <= r.xStart || r.yEnd <= r.yStart)
    ensures Lowered(s, r, z, z)
  {
  }

  /** Drawing r1 and then r2 is drawing their union: the minimum with the
      same depth twice is the minimum once. */
  lemma LoweredThen(s: Scene, r1: Rect, r2: Rect, r: Rect, z0: seq<real>, z1: seq<real>, z2: seq<real>)
    requires Rasterizable(s)
    requires Lowered(s, r1, z0, z1) && Lowered(s, r2, z1, z2)
    requires forall x: nat, y: nat :: InRect(r, x, y) <==> InRect(r1, x, y) || InRect(r2, x, y)
    ensures Lowered(s, r, z0, z2)
  {
    forall i | 0 <= i < |z0|
      ensures z2[i] == LoweredAt(s, r, z0, i)
    {
      assert z1[i] == LoweredAt(s, r1, z0, i);
      assert z2[i] == LoweredAt(s, r2, z1, i);
    }
  }

  /** One step of the inner loop draws the one-pixel rectangle (x, y) and
      issues a draw call exactly when the pixel is a hit. */
  lemma PixelStepEffect(s: Scene, shade: Shader, x: nat, y: nat, f: Frame)
    requires Rasterizable(s) && |f.zbuff| >= Width * Height && y < Width
    ensures var g := PixelStep(s, shade, x, y, f);
            Lowered(s, Rect(x, x + 1, y, y + 1), f.zbuff, g.zbuff)
            && g.draws == f.draws + (if Hit(s, f.zbuff, x, y) then [DrawAt(s, shade, x, y)] else [])
  {
    var g := PixelStep(s, shade, x, y, f);
    var id := x * Width + y;
    assert PixelCentre(x, y) == Vec2(x as real + 0.5, y as real + 0.5);
    PixelCentreIndex(x, y);
    forall i | 0 <= i < |f.zbuff|
      ensures g.zbuff[i] == LoweredAt(s, Rect(x, x + 1, y, y + 1), f.zbuff, i)
    {
      IndexOfPixel(i, x, y);
    }
  }

  /** One step of the inner loop issues a draw call exactly when the pixel
      is a hit. */
  lemma PixelStepDraws(s: Scene, shade: Shader, x: nat, y: nat, f: Frame)
    requires Rasterizable(s) && |f.zbuff| >= Width * Height && y < Width
    ensures PixelStep(s, shade, x, y, f).draws
            == f.draws + (if Hit(s, f.zbuff, x, y) then [DrawAt(s, shade, x, y)] else [])
  {
    assert PixelCentre(x, y) == Vec2(x as real + 0.5, y as real + 0.5);
    PixelCentreIndex(x, y);
  }

  /** The buffer entries outside a row do not change which of its pixels are
      hits. */
  lemma {:induction false} RowHitsFrame(s: Scene, shade: Shader, z: seq<real>, z2: seq<real>, y: nat, x: nat, xEnd: nat)
    requires Rasterizable(s) && |z| >= Width * Height && |z2| >= Width * Height && y < Width
    requires AgreeOn(Rect(x, xEnd, y, y + 1), z, z2)
    ensures RowHits(s, shade, z, y, x, xEnd) == RowHits(s, shade, z2, y, x, xEnd)
    decreases xEnd - x
  {
    if x < xEnd {
      var id := x * Width + y;
      IndexOfPixel(id, x, y);
      assert Hit(s, z, x, y) == Hit(s, z2, x, y);
      RowHitsFrame(s, shade, z, z2, y, x + 1, xEnd);
    }
  }

  /** The buffer entries outside some rows do not change which of their
      pixels are hits. */
  lemma {:induction false} RectHitsFrame(s: Scene, shade: Shader, z: seq<real>, z2: seq<real>,
                                         y: nat, yEnd: nat, xStart: nat, xEnd: nat)
    requires Rasterizable(s) && |z| >= Width * Height && |z2| >= Width * Height && yEnd <= Width
    requires AgreeOn(Rect(xStart, xEnd, y, yEnd), z, z2)
    ensures RectHits(s, shade, z, y, yEnd, xStart, xEnd) == RectHits(s, shade, z2, y, yEnd, xStart, xEnd)
    decreases yEnd - y
  {
    if y < yEnd {
      RowHitsFrame(s, shade, z, z2, y, xStart, xEnd);
      RectHitsFrame(s, shade, z, z2, y + 1, yEnd, xStart, xEnd);
    }
  }

  /** Drawing pixel (x, y) leaves the rest of its row as it was. */
  lemma PixelStepKeepsRest(s: Scene, shade: Shader, x: nat, y: nat, xEnd: nat, f: Frame)
    requires Rasterizable(s) && |f.zbuff| >= Width * Height && y < Width
    ensures |PixelStep(s, shade, x, y, f).zbuff| >= Width * Height
    ensures AgreeOn(Rect(x + 1, xEnd, y, y + 1), PixelStep(s, shade, x, y, f).zbuff, f.zbuff)
  {
    var h := PixelStep(s, shade, x, y, f);
    PixelStepEffect(s, shade, x, y, f);
    forall i | 0 <= i < Width * Height && InRect(Rect(x + 1, xEnd, y, y + 1), Column(i), Row(i))
      ensures h.zbuff[i] == f.zbuff[i]
    {
      assert h.zbuff[i] == LoweredAt(s, Rect(x, x + 1, y, y + 1), f.zbuff, i);
    }
  }

  /** Drawing pixel (x, y) does not change which of the later pixels of
      its row are hits. */
  lemma PixelStepKeepsRowHits(s: Scene, shade: Shader, x: nat, y: nat, xEnd: nat, f: Frame)
    requires Rasterizable(s) && |f.zbuff| >= Width * Height && y < Width
    ensures RowHits(s, shade, PixelStep(s, shade, x, y, f).zbuff, y, x + 1, xEnd)
            == RowHits(s, shade, f.zbuff, y, x + 1, xEnd)
  {
    PixelStepKeepsRest(s, shade, x, y, xEnd, f);
    RowHitsFrame(s, shade, PixelStep(s, shade, x, y, f).zbuff, f.zbuff, y, x + 1, xEnd);
  }

  /** The inner loop lowers the buffer over its part of row y. */
  lemma {:induction false} ScanRowLowers(s: Scene, shade: Shader, y: nat, x: nat, xEnd: nat, f: Frame)
    requires Rasterizable(s) && |f.zbuff| >= Width * Height && y < Width
    ensures Lowered(s, Rect(x, xEnd, y, y + 1), f.zbuff, ScanRow(s, shade, y, x, xEnd, f).zbuff)
    decreases xEnd - x
  {
    if x >= xEnd {
      LoweredEmpty(s, Rect(x, xEnd, y, y + 1), f.zbuff);
    } else {
      var h := PixelStep(s, shade, x, y, f);
      PixelStepEffect(s, shade, x, y, f);
      ScanRowLowers(s, shade, y, x + 1, xEnd, h);
      LoweredThen(s, Rect(x, x + 1, y, y + 1), Rect(x + 1, xEnd, y, y + 1), Rect(x, xEnd, y, y + 1),
                  f.zbuff, h.zbuff, ScanRow(s, shade, y, x + 1, xEnd, h).zbuff);
    }
  }

  /** The inner loop issues the hits of its part of row y against the
      buffer it started from. */
  lemma {:induction false} ScanRowDraws(s: Scene, shade: Shader, y: nat, x: nat, xEnd: nat, f: Frame)
    requires Rasterizable(s) && |f.zbuff| >= Width * Height && y < Width
    ensures ScanRow(s, shade, y, x, xEnd, f).draws == f.draws + RowHits(s, shade, f.zbuff, y, x, xEnd)
    decreases xEnd - x
  {
    if x < xEnd {
      var h := PixelStep(s, shade, x, y, f);
      var first := if Hit(s, f.zbuff, x, y) then [DrawAt(s, shade, x, y)] else [];
      var rest := RowHits(s, shade, f.zbuff, y, x + 1, xEnd);
      calc {
        ScanRow(s, shade, y, x, xEnd, f).draws;
        ScanRow(s, shade, y, x + 1, xEnd, h).draws;
        { ScanRowDraws(s, shade, y, x + 1, xEnd, h); }
        h.draws + RowHits(s, shade, h.zbuff, y, x + 1, xEnd);
        { PixelStepKeepsRowHits(s, shade, x, y, xEnd, f); }
        h.draws + rest;
        { PixelStepDraws(s, shade, x, y, f); }
        (f.draws + first) + rest;
        f.draws + (first + rest);
        f.draws + RowHits(s, shade, f.zbuff, y, x, xEnd);
      }
    }
  }

  /** Scanning row y leaves the rows after it as they were. */
  lemma ScanRowKeepsRest(s: Scene, shade: Shader, y: nat, yEnd: nat, xStart: nat, xEnd: nat, f: Frame)
    requires Rasterizable(s) && |f.zbuff| >= Width * Height && y < Width
    ensures AgreeOn(Rect(xStart, xEnd, y + 1, yEnd), ScanRow(s, shade, y, xStart, xEnd, f).zbuff, f.zbuff)
  {
    var h := ScanRow(s, shade, y, xStart, xEnd, f);
    ScanRowLowers(s, shade, y, xStart, xEnd, f);
    forall i | 0 <= i < Width * Height && InRect(Rect(xStart, xEnd, y + 1, yEnd), Column(i), Row(i))
      ensures h.zbuff[i] == f.zbuff[i]
    {
      assert h.zbuff[i] == LoweredAt(s, Rect(xStart, xEnd, y, y + 1), f.zbuff, i);
    }
  }

  /** Scanning row y does not change which pixels of the later rows are
      hits. */
  lemma ScanRowKeepsRectHits(s: Scene, shade: Shader, y: nat, yEnd: nat, xStart: nat, xEnd: nat, f: Frame)
    requires Rasterizable(s) && |f.zbuff| >= Width * Height && yEnd <= Width && y < yEnd
    ensures RectHits(s, shade, ScanRow(s, shade, y, xStart, xEnd, f).zbuff, y + 1, yEnd, xStart, xEnd)
            == RectHits(s, shade, f.zbuff, y + 1, yEnd, xStart, xEnd)
  {
    ScanRowKeepsRest(s, shade, y, yEnd, xStart, xEnd, f);
    RectHitsFrame(s, shade, ScanRow(s, shade, y, xStart, xEnd, f).zbuff, f.zbuff, y + 1, yEnd, xStart, xEnd);
  }

  /** The outer loop lowers the buffer over the rectangle of its rows. */
  lemma {:induction false} ScanRowsLowers(s: Scene, shade: Shader, y: nat, yEnd: nat, xStart: nat, xEnd: nat, f: Frame)
    requires Rasterizable(s) && |f.zbuff| >= Width * Height && yEnd <= Width
    ensures Lowered(s, Rect(xStart, xEnd, y, yEnd), f.zbuff, ScanRows(s, shade, y, yEnd, xStart, xEnd, f).zbuff)
    decreases yEnd - y
  {
    if y >= yEnd {
      LoweredEmpty(s, Rect(xStart, xEnd, y, yEnd), f.zbuff);
    } else {
      var h := ScanRow(s, shade, y, xStart, xEnd, f);
      ScanRowLowers(s, shade, y, xStart, xEnd, f);
      ScanRowsLowers(s, shade, y + 1, yEnd, xStart, xEnd, h);
      LoweredThen(s, Rect(xStart, xEnd, y, y + 1), Rect(xStart, xEnd, y + 1, yEnd), Rect(xStart, xEnd, y, yEnd),
                  f.zbuff, h.zbuff, ScanRows(s, shade, y + 1, yEnd, xStart, xEnd, h).zbuff);
    }
  }

  /** The outer loop issues the hits of each row, row after row, against
      the buffer it started from. */
  lemma {:induction false} ScanRowsDraws(s: Scene, shade: Shader, y: nat, yEnd: nat, xStart: nat, xEnd: nat, f: Frame)
    requires Rasterizable(s) && |f.zbuff| >= Width * Height && yEnd <= Width
    ensures ScanRows(s, shade, y, yEnd, xStart, xEnd, f).draws == f.draws + RectHits(s, shade, f.zbuff, y, yEnd, xStart, xEnd)
    decreases yEnd - y
  {
    if y < yEnd {
      var h := ScanRow(s, shade, y, xStart, xEnd, f);
      var first := RowHits(s, shade, f.zbuff, y, xStart, xEnd);
      var rest := RectHits(s, shade, f.zbuff, y + 1, yEnd, xStart, xEnd);
      calc {
        ScanRows(s, shade, y, yEnd, xStart, xEnd, f).draws;
        ScanRows(s, shade, y + 1, yEnd, xStart, xEnd, h).draws;
        { ScanRowsDraws(s, shade, y + 1, yEnd, xStart, xEnd, h); }
        h.draws + RectHits(s, shade, h.zbuff, y + 1, yEnd, xStart, xEnd);
        { ScanRowKeepsRectHits(s, shade, y, yEnd, xStart, xEnd, f); }
        h.draws + rest;
        { ScanRowDraws(s, shade, y, xStart, xEnd, f); }
        (f.draws + first) + rest;
        f.draws + (first + rest);
        f.draws + RectHits(s, shade, f.zbuff, y, yEnd, xStart, xEnd);
      }
    }
  }

  /** The outer loop draws the rectangle of its rows and issues the hits of
      each row, row after row, against the buffer it started from. */
  lemma ScanRowsEffect(s: Scene, shade: Shader, y: nat, yEnd: nat, xStart: nat, xEnd: nat, f: Frame)
    requires Rasterizable(s) && |f.zbuff| >= Width * Height && yEnd <= Width
    ensures var g := ScanRows(s, shade, y, yEnd, xStart, xEnd, f);
            Lowered(s, Rect(xStart, xEnd, y, yEnd), f.zbuff, g.zbuff)
            && g.draws == f.draws + RectHits(s, shade, f.zbuff, y, yEnd, xStart, xEnd)
  {
    ScanRowsLowers(s, shade, y, yEnd, xStart, xEnd, f);
    ScanRowsDraws(s, shade, y, yEnd, xStart, xEnd, f);
  }

  /** All of `draw_triangle_clipped`, for a viewport no taller than the
      frame is wide (so no two pixels share a buffer index): the buffer is
      lowered over the covered pixels of the scanned rectangle and the draw
      calls are that rectangle's hits against the old buffer. */
  lemma RasterizeEffect(t: Triangle, shade: Shader, viewport: Vec2, f: Frame)
    requires t.v0.position.w > 0.0 && t.v1.position.w > 0.0 && t.v2.position.w > 0.0
    requires Rasterizable(SceneOf(t, viewport)) && |f.zbuff| >= Width * Height
    requires viewport.y <= Width as real
    ensures var s := SceneOf(t, viewport);
            var r := ScanRect(ScreenBox(s, viewport));
            var g := Rasterize(t, shade, viewport, f);
            Lowered(s, r, f.zbuff, g.zbuff)
            && g.draws == f.draws + RectHits(s, shade, f.zbuff, r.yStart, r.yEnd, r.xStart, r.xEnd)
  {
    var s := SceneOf(t, viewport);
    var r := ScanRect(ScreenBox(s, viewport));
    assert ScreenBox(s, viewport).max.y <= viewport.y;
    ScanRowsEffect(s, shade, r.yStart, r.yEnd, r.xStart, r.xEnd, f);
  }

  /** The loop bounds as evidently intended: the upper corners rounded up,
      so that a pixel whose centre lies in the clamped box is scanned. */
  function ScanRectIntended(b: Box): Rect {
    Rect(TruncUsize(b.min.x), CeilUsize(b.max.x), TruncUsize(b.min.y), CeilUsize(b.max.y))
  }

  /** `draw_triangle_clipped` with the intended loop bounds. */
  function RasterizeIntended(t: Triangle, shade: Shader, viewport: Vec2, f: Frame): (g: Frame)
    requires t.v0.position.w > 0.0 && t.v1.position.w > 0.0 && t.v2.position.w > 0.0
    requires Rasterizable(SceneOf(t, viewport)) && |f.zbuff| >= Width * Height
    ensures |g.zbuff| == |f.zbuff|
  {
    var s := SceneOf(t, viewport);
    var r := ScanRectIntended(ScreenBox(s, viewport));
    ScanRows(s, shade, r.yStart, r.yEnd, r.xStart, r.xEnd, f)
  }

  /** As written, the truncated upper bounds drop the last column when the
      box ends more than half-way into it: with screen points (0, 0), (0, 21)
      and (10.8, 10.5) the centre (10.5, 10.5) of pixel (10, 10) is strictly
      inside the triangle and inside the viewport, but column 10 is not
      scanned, so the buffer keeps a depth behind the triangle there. */
  lemma MissedPixelKeepsDepth(s: Scene, shade: Shader, f: Frame)
    requires Rasterizable(s) && |f.zbuff| >= Width * Height
    requires s.sc0 == Vec2(0.0, 0.0) && s.sc1 == Vec2(0.0, 21.0) && s.sc2 == Vec2(10.8, 10.5)
    ensures Coverage(s, 10, 10).Some?
    ensures var r := ScanRect(ScreenBox(s, Vec2(600.0, 600.0)));
            var g := ScanRows(s, shade, r.yStart, r.yEnd, r.xStart, r.xEnd, f);
            !InRect(r, 10, 10) && g.zbuff[6010] == f.zbuff[6010]
  {
    var p := PixelCentre(10, 10);
    assert p == Vec2(10.5, 10.5);
    assert Utils.SubAreas(p, s.sc0, s.sc1, s.sc2) == Vec3(3.15, 3.15, 220.5);
    var r := ScanRect(ScreenBox(s, Vec2(600.0, 600.0)));
    assert ScreenBox(s, Vec2(600.0, 600.0)).max.x == 10.8;
    assert r.xEnd == 10;
    ScanRowsEffect(s, shade, r.yStart, r.yEnd, r.xStart, r.xEnd, f);
    var g := ScanRows(s, shade, r.yStart, r.yEnd, r.xStart, r.xEnd, f);
    assert Column(6010) == 10 && Row(6010) == 10;
    assert g.zbuff[6010] == LoweredAt(s, r, f.zbuff, 6010);
  }

  /** With the intended bounds, every covered pixel of the viewport is in
      the scanned rectangle. */
  lemma ScanRectIntendedCovers(s: Scene, viewport: Vec2, x: nat, y: nat)
    requires Area(s) != 0.0 && Coverage(s, x, y).Some?
    requires x as real + 1.0 <= viewport.x && y as real + 1.0 <= viewport.y
    ensures InRect(ScanRectIntended(ScreenBox(s, viewport)), x, y)
  {
    var p := PixelCentre(x, y);
    var b := Coverage(s, x, y).value;
    Utils.BarycentricWeights(p, s.sc0, s.sc1, s.sc2);
    Utils.BarycentricBlend(p, s.sc0, s.sc1, s.sc2);
    BlendInBounds(s.sc0, s.sc1, s.sc2, b.x, b.y, b.z, p);
    var c := ScreenBox(s, viewport);
    assert c.min.x <= p.x <= c.max.x && c.min.y <= p.y <= c.max.y;
  }

  /** With the intended bounds, drawing lowers the buffer at every covered
      pixel of the viewport to at most the triangle's depth there, and to
      exactly the smaller of the old and the new depth. */
  lemma RasterizeIntendedComplete(t: Triangle, shade: Shader, viewport: Vec2, f: Frame, x: nat, y: nat)
    requires t.v0.position.w > 0.0 && t.v1.position.w > 0.0 && t.v2.position.w > 0.0
    requires Rasterizable(SceneOf(t, viewport)) && |f.zbuff| >= Width * Height
    requires viewport.y <= Width as real
    requires x as real + 1.0 <= viewport.x && y as real + 1.0 <= viewport.y
    requires x * Width + y < Width * Height && Coverage(SceneOf(t, viewport), x, y).Some?
    ensures var s := SceneOf(t, viewport);
            var d := Depth(s, Coverage(s, x, y).value);
            var g := RasterizeIntended(t, shade, viewport, f);
            g.zbuff[x * Width + y] == Min(f.zbuff[x * Width + y], d) && g.zbuff[x * Width + y] <= d
  {
    var s := SceneOf(t, viewport);
    var r := ScanRectIntended(ScreenBox(s, viewport));
    RasterizeIntendedLowers(t, shade, viewport, f);
    ScanRectIntendedCovers(s, viewport, x, y);
    var i := x * Width + y;
    IndexOfPixel(i, x, y);
    var g := RasterizeIntended(t, shade, viewport, f);
    assert g.zbuff[i] == LoweredAt(s, r, f.zbuff, i);
  }

  /** With the intended bounds, drawing lowers the buffer over the covered
      pixels of the rounded-out rectangle. */
  lemma RasterizeIntendedLowers(t: Triangle, shade: Shader, viewport: Vec2, f: Frame)
    requires t.v0.position.w > 0.0 && t.v1.position.w > 0.0 && t.v2.position.w > 0.0
    requires Rasterizable(SceneOf(t, viewport)) && |f.zbuff| >= Width * Height
    requires viewport.y <= Width as real
    ensures var s := SceneOf(t, viewport);
            Lowered(s, ScanRectIntended(ScreenBox(s, viewport)), f.zbuff, RasterizeIntended(t, shade, viewport, f).zbuff)
  {
    var s := SceneOf(t, viewport);
    var r := ScanRectIntended(ScreenBox(s, viewport));
    assert ScreenBox(s, viewport).max.y <= viewport.y;
    ScanRowsLowers(s, shade, r.yStart, r.yEnd, r.xStart, r.xEnd, f);
  }
}
