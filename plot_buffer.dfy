/** `plotline`, `plotline_low` and `plotline_high` of the stand-alone
    program, which write the colour word straight into a 640-wide pixel
    buffer at `x * WIDTH + y`. */
module PlotBuffer {
  import opened Ints
  import opened LinAlg
  import opened Colors
  import opened Bresenham
  import opened Standalone

  /** The buffer index a plotted point is written to: `plotline_low` uses
      `x * WIDTH + y as usize`, `plotline_high` uses `x as usize * WIDTH + y`;
      the float coordinate is truncated. While the coordinate that is not
      scaled is below the width, `index_to_coords` recovers the point's
      coordinates from the index. */
  function IndexOf(q: Plot, helper: Helper): (n: nat)
    ensures helper == Low && TruncUsize(q.minor) < Width ==>
              IndexToCoords(n, Width) == (q.major, TruncUsize(q.minor))
    ensures helper == High && q.major < Width ==>
              IndexToCoords(n, Width) == (TruncUsize(q.minor), q.major)
  {
    if helper == Low then
      if TruncUsize(q.minor) < Width then DivModOfIndex(q.major, TruncUsize(q.minor), Width); q.major * Width + TruncUsize(q.minor)
      else q.major * Width + TruncUsize(q.minor)
    else
      if q.major < Width then DivModOfIndex(TruncUsize(q.minor), q.major, Width); TruncUsize(q.minor) * Width + q.major
      else TruncUsize(q.minor) * Width + q.major
  }

  /** Every point of the walk is written inside the buffer; otherwise the
      indexing panics. */
  predicate InBuffer(p: seq<Plot>, helper: Helper, length: nat) {
    forall k :: 0 <= k < |p| ==> IndexOf(p[k], helper) < length
  }

  /** The buffer after the points are written one after the other. */
  function Paint(b: seq<u32>, p: seq<Plot>, helper: Helper, color: u32): (r: seq<u32>)
    requires InBuffer(p, helper, |b|)
    ensures |r| == |b|
    decreases |p|
  {
    if |p| == 0 then b else Paint(b[IndexOf(p[0], helper) := color], p[1..], helper, color)
  }

  /** The indices written for a run of points. */
  function Written(p: seq<Plot>, helper: Helper): set<nat> {
    set q | q in p :: IndexOf(q, helper)
  }

  /** Painting sets exactly the written indices to the colour and leaves
      every other entry as it was. */
  lemma {:induction false} PaintEffect(b: seq<u32>, p: seq<Plot>, helper: Helper, color: u32)
    requires InBuffer(p, helper, |b|)
    ensures forall i :: 0 <= i < |b| ==>
              Paint(b, p, helper, color)[i] == if i in Written(p, helper) then color else b[i]
    decreases |p|
  {
    if |p| > 0 {
      var b2 := b[IndexOf(p[0], helper) := color];
      assert InBuffer(p[1..], helper, |b2|);
      PaintEffect(b2, p[1..], helper, color);
      assert p == [p[0]] + p[1..];
      assert Written(p, helper) == {IndexOf(p[0], helper)} + Written(p[1..], helper);
    }
  }

  /** Writing the first of a run of points leaves the writes of the rest
      of the run to do. */
  lemma PaintStep(b: seq<u32>, b2: seq<u32>, p: seq<Plot>, helper: Helper, color: u32)
    requires |p| > 0 && InBuffer(p, helper, |b|)
    requires b2 == b[IndexOf(p[0], helper) := color]
    ensures InBuffer(p[1..], helper, |b2|)
    ensures Paint(b, p, helper, color) == Paint(b2, p[1..], helper, color)
  {
    forall k | 0 <= k < |p[1..]|
      ensures IndexOf(p[1..][k], helper) < |b2|
    {
      assert p[1..][k] == p[k + 1];
    }
  }

  /** `plotline_low`: writes the colour at the index of every point of the
      low walk. */
  method PlotlineLow(v0: Vec2, v1: Vec2, color: Color, buff: array<u32>)
    requires InBuffer(Plots(LowLine(v0, v1)), Low, buff.Length)
    modifies buff
    ensures buff[..] == Paint(old(buff[..]), Plots(LowLine(v0, v1)), Low, color.ToArgb8())
  {
    ghost var l := LowLine(v0, v1);
    var dx := v1.x - v0.x;
    var dy := v1.y - v0.y;
    var yi := 1.0;
    if dy < 0.0 {
      yi := -1.0;
      dy := -dy;
    }
    var d := (2.0 * dy) - dx;
    var y := v0.y;
    var x := TruncUsize(v0.x);
    var xEnd := TruncUsize(v1.x);
    assert l == Line(x, xEnd, y, dx, dy, yi);
    var c := color.ToArgb8();
    ghost var goal := Paint(buff[..], Plots(l), Low, c);
    ghost var rest := Plots(l);
    while x < xEnd
      invariant rest == Path(l, x, Walk(y, d))
      invariant InBuffer(rest, Low, buff.Length)
      invariant Paint(buff[..], rest, Low, c) == goal
    {
      ghost var w := Walk(y, d);
      ghost var before := buff[..];
      PathStep(l, x, w);
      assert x * Width + TruncUsize(y) == IndexOf(rest[0], Low);
      buff[x * Width + TruncUsize(y)] := c;
      PaintStep(before, buff[..], rest, Low, c);
      rest := rest[1..];
      if d >= 0.0 {
        y := y + yi;
        d := d + 2.0 * (dy - dx);
      } else {
        d := d + 2.0 * dy;
      }
      assert Walk(y, d) == Next(w, l);
      x := x + 1;
    }
  }

  /** `plotline_high`: writes the colour at the index of every point of the
      high walk. */
  method PlotlineHigh(v0: Vec2, v1: Vec2, color: Color, buff: array<u32>)
    requires InBuffer(Plots(HighLine(v0, v1)), High, buff.Length)
    modifies buff
    ensures buff[..] == Paint(old(buff[..]), Plots(HighLine(v0, v1)), High, color.ToArgb8())
  {
    ghost var l := HighLine(v0, v1);
    var dx := v1.x - v0.x;
    var dy := v1.y - v0.y;
    var xi := 1.0;
    if dx < 0.0 {
      xi := -1.0;
      dx := -dx;
    }
    var d := (2.0 * dx) - dy;
    var x := v0.x;
    var y := TruncUsize(v0.y);
    var yEnd := TruncUsize(v1.y);
    assert l == Line(y, yEnd, x, dy, dx, xi);
    var c := color.ToArgb8();
    ghost var goal := Paint(buff[..], Plots(l), High, c);
    ghost var rest := Plots(l);
    while y < yEnd
      invariant rest == Path(l, y, Walk(x, d))
      invariant InBuffer(rest, High, buff.Length)
      invariant Paint(buff[..], rest, High, c) == goal
    {
      ghost var w := Walk(x, d);
      ghost var before := buff[..];
      PathStep(l, y, w);
      assert TruncUsize(x) * Width + y == IndexOf(rest[0], High);
      buff[TruncUsize(x) * Width + y] := c;
      PaintStep(before, buff[..], rest, High, c);
      rest := rest[1..];
      if d >= 0.0 {
        x := x + xi;
        d := d + 2.0 * (dx - dy);
      } else {
        d := d + 2.0 * dx;
      }
      assert Walk(x, d) == Next(w, l);
      y := y + 1;
    }
  }

  /** `plotline`: the writes of the walk `PlotlineDispatch` chooses. */
  method Plotline(v0: Vec2, v1: Vec2, color: Color, buff: array<u32>)
    requires InBuffer(Plots(PlotlineLine(v0, v1)), PlotlineDispatch(v0, v1).helper, buff.Length)
    modifies buff
    ensures buff[..] == Paint(old(buff[..]), Plots(PlotlineLine(v0, v1)), PlotlineDispatch(v0, v1).helper, color.ToArgb8())
  {
    if Abs(v1.y - v0.y) < Abs(v1.x - v0.x) {
      if v0.x > v1.x {
        PlotlineLow(v1, v0, color, buff);
      } else {
        PlotlineLow(v0, v1, color, buff);
      }
    } else {
      if v0.y > v1.y {
        PlotlineHigh(v1, v0, color, buff);
      } else {
        PlotlineHigh(v0, v1, color, buff);
      }
    }
  }
}
