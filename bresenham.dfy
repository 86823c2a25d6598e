/** The stepping shared by every `plotline_low` and `plotline_high`: one
    plotted point per whole major coordinate, the minor coordinate moving by
    one whenever the decision variable is not negative. The loops that draw
    (into a log or into a buffer) are proved against `Plots`. */
module Bresenham {
  import opened Ints
  import opened LinAlg

  /** What the loop carries from one step to the next: the minor coordinate
      and the decision variable `d`. */
  datatype Walk = Walk(minor: real, d: real)

  /** One plotted point: the loop's major coordinate and the minor
      coordinate at that step. */
  datatype Plot = Plot(major: nat, minor: real)

  /** The set-up of one loop: the major range [start, end), the first minor
      coordinate, the major delta, the absolute minor delta and the direction
      (+1 or -1) the minor coordinate moves in. */
  datatype Line = Line(start: nat, end: nat, minor0: real, dMajor: real, dMinor: real, inc: real)

  /** The update after each plotted point. The minor coordinate moves one
      step in the line's direction exactly when `d` is not negative, and
      `d` grows by 2 * dMinor per step less 2 * dMajor per minor step, so
      `d - 2 * dMinor * steps + 2 * dMajor * offset` never changes. */
  function Next(w: Walk, l: Line): (n: Walk)
    ensures n.minor == w.minor || n.minor == w.minor + l.inc
    ensures l.inc != 0.0 ==> (n.minor != w.minor <==> w.d >= 0.0)
    ensures (l.inc == 1.0 || l.inc == -1.0) ==>
              n.d == w.d + 2.0 * l.dMinor - 2.0 * l.dMajor * (Offset(l, n.minor) - Offset(l, w.minor))
  {
    if w.d >= 0.0 then Walk(w.minor + l.inc, w.d + 2.0 * (l.dMinor - l.dMajor))
    else Walk(w.minor, w.d + 2.0 * l.dMinor)
  }

  /** The points plotted from major coordinate `major` on, with the loop in
      state w: one per whole major coordinate below `end`. */
  function Path(l: Line, major: nat, w: Walk): (p: seq<Plot>)
    ensures |p| == if major < l.end then l.end - major else 0
    decreases l.end - major
  {
    if major >= l.end then [] else [Plot(major, w.minor)] + Path(l, major + 1, Next(w, l))
  }

  /** The first point of a walk and the rest of it. */
  lemma PathStep(l: Line, major: nat, w: Walk)
    requires major < l.end
    ensures Path(l, major, w)[0] == Plot(major, w.minor)
    ensures Path(l, major, w)[1..] == Path(l, major + 1, Next(w, l))
  {
  }

  /** The loop state before the first step: `d = 2 * dMinor - dMajor`. */
  function Start(l: Line): Walk {
    Walk(l.minor0, 2.0 * l.dMinor - l.dMajor)
  }

  /** Everything a loop plots. */
  function Plots(l: Line): seq<Plot> {
    Path(l, l.start, Start(l))
  }

  /** The set-up of `plotline_low`: x is the major axis, from `v0.x as usize`
      up to `v1.x as usize`; y starts at v0.y and moves towards v1.y. */
  function LowLine(v0: Vec2, v1: Vec2): (l: Line)
    ensures l.start == TruncUsize(v0.x) && l.end == TruncUsize(v1.x) && l.minor0 == v0.y
    ensures l.dMajor == v1.x - v0.x && l.dMinor >= 0.0
    ensures (l.inc == 1.0 && l.dMinor == v1.y - v0.y) || (l.inc == -1.0 && l.dMinor == v0.y - v1.y)
  {
    var dx := v1.x - v0.x;
    var dy := v1.y - v0.y;
    if dy < 0.0 then Line(TruncUsize(v0.x), TruncUsize(v1.x), v0.y, dx, -dy, -1.0)
    else Line(TruncUsize(v0.x), TruncUsize(v1.x), v0.y, dx, dy, 1.0)
  }

  /** The set-up of `plotline_high`: the same with the axes exchanged. */
  function HighLine(v0: Vec2, v1: Vec2): (l: Line)
    ensures l.start == TruncUsize(v0.y) && l.end == TruncUsize(v1.y) && l.minor0 == v0.x
    ensures l.dMajor == v1.y - v0.y && l.dMinor >= 0.0
    ensures (l.inc == 1.0 && l.dMinor == v1.x - v0.x) || (l.inc == -1.0 && l.dMinor == v0.x - v1.x)
  {
    var dx := v1.x - v0.x;
    var dy := v1.y - v0.y;
    if dx < 0.0 then Line(TruncUsize(v0.y), TruncUsize(v1.y), v0.x, dy, -dx, -1.0)
    else Line(TruncUsize(v0.y), TruncUsize(v1.y), v0.x, dy, dx, 1.0)
  }

  /** Which helper `plotline` calls. */
  datatype Helper = Low | High

  /** The call `plotline` makes: the helper and its two endpoints. */
  datatype Dispatch = Dispatch(helper: Helper, from: Vec2, to: Vec2)

  function Abs(r: real): real { if r < 0.0 then -r else r }

  /** `plotline`: the low helper for lines flatter than the diagonal, the high
      one otherwise, the endpoints exchanged when needed so that the helper
      runs up its major axis. */
  function PlotlineDispatch(v0: Vec2, v1: Vec2): (r: Dispatch)
    ensures r.helper == Low <==> Abs(v1.y - v0.y) < Abs(v1.x - v0.x)
    ensures (r.from == v0 && r.to == v1) || (r.from == v1 && r.to == v0)
    ensures r.helper == Low ==> r.from.x <= r.to.x
    ensures r.helper == High ==> r.from.y <= r.to.y
  {
    if Abs(v1.y - v0.y) < Abs(v1.x - v0.x) then
      if v0.x > v1.x then Dispatch(Low, v1, v0) else Dispatch(Low, v0, v1)
    else
      if v0.y > v1.y then Dispatch(High, v1, v0) else Dispatch(High, v0, v1)
  }

  /** The loop `plotline` runs. */
  function PlotlineLine(v0: Vec2, v1: Vec2): Line {
    var c := PlotlineDispatch(v0, v1);
    if c.helper == Low then LowLine(c.from, c.to) else HighLine(c.from, c.to)
  }

  /** How far the walk has moved along the minor direction. */
  function Offset(l: Line, minor: real): real {
    if l.inc >= 0.0 then minor - l.minor0 else l.minor0 - minor
  }

  /** Point q is within half a unit of the ideal line: after t major steps
      the ideal minor offset is t * dMinor / dMajor, and twice the plotted
      offset times dMajor differs from 2 * t * dMinor by at most dMajor
      (less on the far side). */
  predicate NearLine(l: Line, q: Plot) {
    q.major >= l.start
    && var t := (q.major - l.start) as real;
       -l.dMajor <= 2.0 * (l.dMinor * t - l.dMajor * Offset(l, q.minor)) < l.dMajor
  }

  /** Consecutive points advance by one along the major axis; along the
      minor axis they stay or move by one in the line's direction. */
  lemma {:induction false} PathSteps(l: Line, major: nat, w: Walk)
    ensures var p := Path(l, major, w);
            (|p| > 0 ==> p[0].minor == w.minor)
            && (forall k :: 0 <= k < |p| ==> p[k].major == major + k)
            && (forall k :: 0 <= k < |p| - 1 ==> p[k + 1].minor == p[k].minor || p[k + 1].minor == p[k].minor + l.inc)
    decreases l.end - major
  {
    if major < l.end {
      var p := Path(l, major, w);
      var rest := Path(l, major + 1, Next(w, l));
      PathSteps(l, major + 1, Next(w, l));
      assert p == [Plot(major, w.minor)] + rest;
      forall k | 0 <= k < |p| - 1
        ensures p[k + 1].minor == p[k].minor || p[k + 1].minor == p[k].minor + l.inc
      {
        if k > 0 {
          assert p[k] == rest[k - 1] && p[k + 1] == rest[k];
        }
      }
    }
  }

  /** The decision variable keeps the plotted offset within half a unit of
      the ideal line: `d` stays in [2 dMinor - 2 dMajor, 2 dMinor) and equals
      2 dMinor (t + 1) - dMajor - 2 dMajor * offset after t steps. */
  lemma {:induction false} PathNearLine(l: Line, major: nat, w: Walk)
    requires 0.0 <= l.dMinor <= l.dMajor && (l.inc == 1.0 || l.inc == -1.0)
    requires major >= l.start
    requires 2.0 * l.dMinor - 2.0 * l.dMajor <= w.d < 2.0 * l.dMinor
    requires w.d == 2.0 * (l.dMinor * ((major - l.start) as real + 1.0)) - l.dMajor - 2.0 * (l.dMajor * Offset(l, w.minor))
    ensures forall q :: q in Path(l, major, w) ==> NearLine(l, q)
    decreases l.end - major
  {
    if major < l.end {
      var t := (major - l.start) as real;
      var m := Offset(l, w.minor);
      var n := Next(w, l);
      NextKeepsBounds(l, w, t, m);
      assert NearLine(l, Plot(major, w.minor));
      assert ((major + 1 - l.start) as real) == t + 1.0;
      PathNearLine(l, major + 1, n);
    }
  }

  /** One step of the walk: the head point is near the line, and the
      invariant of `PathNearLine` holds again one major step further. */
  lemma NextKeepsBounds(l: Line, w: Walk, t: real, m: real)
    requires 0.0 <= l.dMinor <= l.dMajor && (l.inc == 1.0 || l.inc == -1.0)
    requires 2.0 * l.dMinor - 2.0 * l.dMajor <= w.d < 2.0 * l.dMinor
    requires m == Offset(l, w.minor)
    requires w.d == 2.0 * (l.dMinor * (t + 1.0)) - l.dMajor - 2.0 * (l.dMajor * m)
    ensures -l.dMajor <= 2.0 * (l.dMinor * t - l.dMajor * m) < l.dMajor
    ensures var n := Next(w, l);
            2.0 * l.dMinor - 2.0 * l.dMajor <= n.d < 2.0 * l.dMinor
            && n.d == 2.0 * (l.dMinor * (t + 2.0)) - l.dMajor - 2.0 * (l.dMajor * Offset(l, n.minor))
  {
    var a := l.dMinor * t;
    var b := l.dMajor * m;
    assert l.dMinor * (t + 1.0) == a + l.dMinor;
    assert l.dMinor * (t + 2.0) == a + 2.0 * l.dMinor;
    var n := Next(w, l);
    if w.d >= 0.0 {
      assert Offset(l, n.minor) == m + 1.0;
      assert l.dMajor * (m + 1.0) == b + l.dMajor;
    } else {
      assert Offset(l, n.minor) == m;
    }
  }

  /** Every point `plotline` plots is within half a unit of the straight
      line with the line's slope through (the start endpoint's major
      coordinate truncated to a whole number, its minor coordinate), where
      the start endpoint is the one the dispatch walks from. There is one
      point per whole major coordinate from that truncated start up to the
      other endpoint's truncated major coordinate. */
  lemma PlotlineNearLine(v0: Vec2, v1: Vec2)
    ensures var l := PlotlineLine(v0, v1);
            var p := Plots(l);
            |p| == (if l.start < l.end then l.end - l.start else 0)
            && (forall k :: 0 <= k < |p| ==> p[k].major == l.start + k)
            && (forall q :: q in p ==> NearLine(l, q))
  {
    var l := PlotlineLine(v0, v1);
    PathSteps(l, l.start, Start(l));
    if l.start < l.end {
      var c := PlotlineDispatch(v0, v1);
      assert l.dMajor > 0.0 by {
        if c.helper == High {
          assert TruncUsize(c.from.y) < TruncUsize(c.to.y);
        }
      }
      assert l.dMinor <= l.dMajor;
      PathNearLine(l, l.start, Start(l));
    }
  }
}
