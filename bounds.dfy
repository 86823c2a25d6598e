/** `BoundingBox2D`: the screen-space box the rasterizer scans. */
module Bounds {
  import opened LinAlg

  /** A box as a pair of corners. */
  datatype Box = Box(min: Vec2, max: Vec2)

  /** `f32::min` and `f32::max` on ordinary numbers. */
  function Min(a: real, b: real): real { if a <= b then a else b }
  function Max(a: real, b: real): real { if a >= b then a else b }

  /** `get_bounds_from_triangle`: component-wise minimum and maximum of the
      three points. Every point lies in the box and each bound is attained
      by one of the points. */
  function TriangleBounds(p0: Vec2, p1: Vec2, p2: Vec2): (b: Box)
    ensures b.min.x <= p0.x && b.min.x <= p1.x && b.min.x <= p2.x
    ensures b.min.y <= p0.y && b.min.y <= p1.y && b.min.y <= p2.y
    ensures b.max.x >= p0.x && b.max.x >= p1.x && b.max.x >= p2.x
    ensures b.max.y >= p0.y && b.max.y >= p1.y && b.max.y >= p2.y
    ensures (b.min.x == p0.x || b.min.x == p1.x || b.min.x == p2.x)
            && (b.min.y == p0.y || b.min.y == p1.y || b.min.y == p2.y)
    ensures (b.max.x == p0.x || b.max.x == p1.x || b.max.x == p2.x)
            && (b.max.y == p0.y || b.max.y == p1.y || b.max.y == p2.y)
  {
    Box(Vec2(Min(p0.x, Min(p1.x, p2.x)), Min(p0.y, Min(p1.y, p2.y))),
        Vec2(Max(p0.x, Max(p1.x, p2.x)), Max(p0.y, Max(p1.y, p2.y))))
  }

  /** `clamp(lo, hi)`: a lower bound below `lo` is raised to it and an upper
      bound above `hi` is lowered to it; bounds already in range are left as
      they are. */
  function ClampBox(b: Box, lo: Vec2, hi: Vec2): (c: Box)
    ensures c.min.x == Max(b.min.x, lo.x) && c.min.y == Max(b.min.y, lo.y)
    ensures c.max.x == Min(b.max.x, hi.x) && c.max.y == Min(b.max.y, hi.y)
  {
    var minX := if b.min.x < lo.x then lo.x else b.min.x;
    var minY := if b.min.y < lo.y then lo.y else b.min.y;
    var maxX := if b.max.x > hi.x then hi.x else b.max.x;
    var maxY := if b.max.y > hi.y then hi.y else b.max.y;
    Box(Vec2(minX, minY), Vec2(maxX, maxY))
  }

  /** Clamping only shrinks a box, and clamping twice changes nothing more. */
  lemma ClampShrinksAndSettles(b: Box, lo: Vec2, hi: Vec2)
    ensures var c := ClampBox(b, lo, hi);
            b.min.x <= c.min.x && b.min.y <= c.min.y && c.max.x <= b.max.x && c.max.y <= b.max.y
            && lo.x <= c.min.x && lo.y <= c.min.y && c.max.x <= hi.x && c.max.y <= hi.y
            && ClampBox(c, lo, hi) == c
  {
  }

  /** A blend of the three points with non-negative weights summing to one
      lies inside their bounding box. */
  lemma BlendInBounds(p0: Vec2, p1: Vec2, p2: Vec2, l0: real, l1: real, l2: real, p: Vec2)
    requires l0 >= 0.0 && l1 >= 0.0 && l2 >= 0.0 && l0 + l1 + l2 == 1.0
    requires p == p0.Scale(l0).Add(p1.Scale(l1)).Add(p2.Scale(l2))
    ensures TriangleBounds(p0, p1, p2).min.x <= p.x <= TriangleBounds(p0, p1, p2).max.x
    ensures TriangleBounds(p0, p1, p2).min.y <= p.y <= TriangleBounds(p0, p1, p2).max.y
  {
    var b := TriangleBounds(p0, p1, p2);
    BlendCoordinates(p0, p1, p2, l0, l1, l2, p);
    BlendBetween(l0, l1, l2, p0.x, p1.x, p2.x, b.min.x, b.max.x, p.x);
    BlendBetween(l0, l1, l2, p0.y, p1.y, p2.y, b.min.y, b.max.y, p.y);
  }

  /** Each coordinate of a blend is the weighted sum of the points'
      coordinates. */
  lemma BlendCoordinates(p0: Vec2, p1: Vec2, p2: Vec2, l0: real, l1: real, l2: real, p: Vec2)
    requires p == p0.Scale(l0).Add(p1.Scale(l1)).Add(p2.Scale(l2))
    ensures p.x == p0.x * l0 + p1.x * l1 + p2.x * l2 && p.y == p0.y * l0 + p1.y * l1 + p2.y * l2
  {
  }

  /** A convex blend of three numbers between lo and hi is between them. */
  lemma BlendBetween(l0: real, l1: real, l2: real, a0: real, a1: real, a2: real, lo: real, hi: real, s: real)
    requires l0 >= 0.0 && l1 >= 0.0 && l2 >= 0.0 && l0 + l1 + l2 == 1.0
    requires lo <= a0 <= hi && lo <= a1 <= hi && lo <= a2 <= hi
    requires s == a0 * l0 + a1 * l1 + a2 * l2
    ensures lo <= s <= hi
  {
    assert s - lo == (a0 - lo) * l0 + (a1 - lo) * l1 + (a2 - lo) * l2;
    assert hi - s == (hi - a0) * l0 + (hi - a1) * l1 + (hi - a2) * l2;
    NonNegProduct(a0 - lo, l0);
    NonNegProduct(a1 - lo, l1);
    NonNegProduct(a2 - lo, l2);
    NonNegProduct(hi - a0, l0);
    NonNegProduct(hi - a1, l1);
    NonNegProduct(hi - a2, l2);
  }

  lemma NonNegProduct(a: real, b: real)
    requires a >= 0.0 && b >= 0.0
    ensures a * b >= 0.0
  {
  }

  /** The box as an object whose corners `clamp` updates in place. */
  class BoundingBox2D {
    var min: Vec2
    var max: Vec2

    /** `BoundingBox2D::new`. */
    constructor (min: Vec2, max: Vec2)
      ensures this.min == min && this.max == max
    {
      this.min := min;
      this.max := max;
    }

    /** `get_bounds_from_triangle`, building the box of three points. */
    constructor FromTriangle(positions: seq<Vec2>)
      requires |positions| == 3
      ensures Box(min, max) == TriangleBounds(positions[0], positions[1], positions[2])
    {
      min := Vec2(Min(positions[0].x, Min(positions[1].x, positions[2].x)),
                  Min(positions[0].y, Min(positions[1].y, positions[2].y)));
      max := Vec2(Max(positions[0].x, Max(positions[1].x, positions[2].x)),
                  Max(positions[0].y, Max(positions[1].y, positions[2].y)));
    }

    /** `clamp(lo, hi)`, one field at a time. */
    method Clamp(lo: Vec2, hi: Vec2)
      modifies this
      ensures Box(min, max) == ClampBox(old(Box(min, max)), lo, hi)
    {
      if min.x < lo.x {
        min := min.(x := lo.x);
      }
      if min.y < lo.y {
        min := min.(y := lo.y);
      }
      if max.x > hi.x {
        max := max.(x := hi.x);
      }
      if max.y > hi.y {
        max := max.(y := hi.y);
      }
    }
  }
}
