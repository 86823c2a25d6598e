/** `plotline`, `plotline_low` and `plotline_high` of the rusterizer crate:
    each plotted point becomes one call of `State::draw`, collected here as
    a log. */
module PlotDraw {
  import opened Ints
  import opened LinAlg
  import opened Shared
  import opened Colors
  import opened Bresenham

  /** The draw call for one plotted point: the major coordinate is cast from
      `usize` and the minor one from `f32`, both to `u16`; `plotline_low`
      has x as its major axis, `plotline_high` y. Coordinates that fit in
      16 bits arrive unchanged (the minor one truncated), and the colour is
      passed through. */
  function DrawOf(q: Plot, helper: Helper, color: u32): (d: Draw)
    ensures d.color == color
    ensures q.major < U16Limit ==> (if helper == Low then d.x else d.y) == q.major
    ensures 0.0 <= q.minor < U16Limit as real ==> (if helper == Low then d.y else d.x) == TruncUsize(q.minor)
  {
    if helper == Low then Draw(UsizeToU16(q.major), F32ToU16(q.minor), color)
    else Draw(F32ToU16(q.minor), UsizeToU16(q.major), color)
  }

  /** The draw calls for a run of plotted points, in order. */
  function Render(p: seq<Plot>, helper: Helper, color: u32): (ds: seq<Draw>)
    ensures |ds| == |p|
  {
    if |p| == 0 then [] else [DrawOf(p[0], helper, color)] + Render(p[1..], helper, color)
  }

  /** `plotline_low`: one draw call per point of the low walk, in order. */
  method PlotlineLow(v0: Vec2, v1: Vec2, color: Color) returns (draws: seq<Draw>)
    ensures draws == Render(Plots(LowLine(v0, v1)), Low, color.ToArgb8())
  {
    ghost var l := LowLine(v0, v1);
    var dx := v1.x - v0.x;
    var dy := v1.y - v0.y;
    var yi := 1.0;
    if dy < 0.0 {
      yi := -1.0;
      dy := -dy;
    }
    var d := (2.0 * dy) - dx;
    var y := v0.y;
    var x := TruncUsize(v0.x);
    var xEnd := TruncUsize(v1.x);
    assert l == Line(x, xEnd, y, dx, dy, yi);
    ghost var goal := Render(Plots(l), Low, color.ToArgb8());
    var c := color.ToArgb8();
    ghost var rest := Plots(l);
    draws := [];
    while x < xEnd
      invariant rest == Path(l, x, Walk(y, d))
      invariant draws + Render(rest, Low, c) == goal
    {
      ghost var w := Walk(y, d);
      PathStep(l, x, w);
      assert Render(rest, Low, c) == [DrawOf(rest[0], Low, c)] + Render(rest[1..], Low, c);
      draws := draws + [Draw(UsizeToU16(x), F32ToU16(y), c)];
      assert draws + Render(rest[1..], Low, c) == goal;
      rest := rest[1..];
      if d >= 0.0 {
        y := y + yi;
        d := d + 2.0 * (dy - dx);
      } else {
        d := d + 2.0 * dy;
      }
      assert Walk(y, d) == Next(w, l);
      x := x + 1;
    }
  }

  /** `plotline_high`: one draw call per point of the high walk, in order. */
  method PlotlineHigh(v0: Vec2, v1: Vec2, color: Color) returns (draws: seq<Draw>)
    ensures draws == Render(Plots(HighLine(v0, v1)), High, color.ToArgb8())
  {
    ghost var l := HighLine(v0, v1);
    var dx := v1.x - v0.x;
    var dy := v1.y - v0.y;
    var xi := 1.0;
    if dx < 0.0 {
      xi := -1.0;
      dx := -dx;
    }
    var d := (2.0 * dx) - dy;
    var x := v0.x;
    var y := TruncUsize(v0.y);
    var yEnd := TruncUsize(v1.y);
    assert l == Line(y, yEnd, x, dy, dx, xi);
    ghost var goal := Render(Plots(l), High, color.ToArgb8());
    var c := color.ToArgb8();
    ghost var rest := Plots(l);
    draws := [];
    while y < yEnd
      invariant rest == Path(l, y, Walk(x, d))
      invariant draws + Render(rest, High, c) == goal
    {
      ghost var w := Walk(x, d);
      PathStep(l, y, w);
      assert Render(rest, High, c) == [DrawOf(rest[0], High, c)] + Render(rest[1..], High, c);
      draws := draws + [Draw(F32ToU16(x), UsizeToU16(y), c)];
      assert draws + Render(rest[1..], High, c) == goal;
      rest := rest[1..];
      if d >= 0.0 {
        x := x + xi;
        d := d + 2.0 * (dx - dy);
      } else {
        d := d + 2.0 * dx;
      }
      assert Walk(x, d) == Next(w, l);
      y := y + 1;
    }
  }

  /** `plotline`: the draw calls of the walk `PlotlineDispatch` chooses. */
  method Plotline(v0: Vec2, v1: Vec2, color: Color) returns (draws: seq<Draw>)
    ensures draws == Render(Plots(PlotlineLine(v0, v1)), PlotlineDispatch(v0, v1).helper, color.ToArgb8())
  {
    if Abs(v1.y - v0.y) < Abs(v1.x - v0.x) {
      if v0.x > v1.x {
        draws := PlotlineLow(v1, v0, color);
      } else {
        draws := PlotlineLow(v0, v1, color);
      }
    } else {
      if v0.y > v1.y {
        draws := PlotlineHigh(v1, v0, color);
      } else {
        draws := PlotlineHigh(v0, v1, color);
      }
    }
  }

  /** The k-th draw call is the one for the k-th point. */
  lemma {:induction false} RenderAt(p: seq<Plot>, helper: Helper, color: u32, k: nat)
    requires k < |p|
    ensures Render(p, helper, color)[k] == DrawOf(p[k], helper, color)
  {
    if k > 0 {
      RenderAt(p[1..], helper, color, k - 1);
    }
  }

  /** The draw calls of `plotline_low` go along x one column at a time, in
      the given colour, while the plotted y stays or moves by one in the
      line's direction. */
  lemma LowDrawsStep(v0: Vec2, v1: Vec2, color: u32)
    requires TruncUsize(v1.x) < U16Limit
    ensures var l := LowLine(v0, v1);
            var p := Plots(l);
            var ds := Render(p, Low, color);
            (forall k :: 0 <= k < |ds| ==> ds[k].x == l.start + k && ds[k].color == color)
            && (forall k :: 0 <= k < |ds| - 1 ==> p[k + 1].minor == p[k].minor || p[k + 1].minor == p[k].minor + l.inc)
  {
    var l := LowLine(v0, v1);
    var p := Plots(l);
    PathSteps(l, l.start, Start(l));
    forall k | 0 <= k < |p|
      ensures Render(p, Low, color)[k].x == l.start + k && Render(p, Low, color)[k].color == color
    {
      RenderAt(p, Low, color, k);
    }
  }

  /** The draw calls of `plotline_high` go along y one row at a time, in the
      given colour, while the plotted x stays or moves by one in the line's
      direction. */
  lemma HighDrawsStep(v0: Vec2, v1: Vec2, color: u32)
    requires TruncUsize(v1.y) < U16Limit
    ensures var l := HighLine(v0, v1);
            var p := Plots(l);
            var ds := Render(p, High, color);
            (forall k :: 0 <= k < |ds| ==> ds[k].y == l.start + k && ds[k].color == color)
            && (forall k :: 0 <= k < |ds| - 1 ==> p[k + 1].minor == p[k].minor || p[k + 1].minor == p[k].minor + l.inc)
  {
    var l := HighLine(v0, v1);
    var p := Plots(l);
    PathSteps(l, l.start, Start(l));
    forall k | 0 <= k < |p|
      ensures Render(p, High, color)[k].y == l.start + k && Render(p, High, color)[k].color == color
    {
      RenderAt(p, High, color, k);
    }
  }
}
