/** The helpers of the stand-alone program: its frame size, the index
    split into (row, column) and the inclusive inside test. */
module Standalone {
  import opened Ints
  import opened LinAlg
  import opened Options
  import opened Colors
  import Utils

  /** `WIDTH` and `HEIGHT` of the stand-alone program. */
  const Width: nat := 640
  const Height: nat := 640

  /** `DEBUG_COLOR`, opaque magenta. */
  const DebugColor: Color := Color(255, 255, 0, 255)

  /** `DEBUG_COLOR` packs to 0xFFFF00FF. */
  lemma DebugColorWord()
    ensures DebugColor.ToArgb8() == 0xFFFF_00FF
  {
    assert DebugColor.ToArgb8() == ((255 * 256 + 255) * 256 + 0) * 256 + 255;
  }

  /** `index_to_coords(p, height)`: integer quotient and remainder, which
      rebuild the index and keep the second part below the height. */
  function IndexToCoords(p: nat, height: nat): (c: (nat, nat))
    requires height > 0
    ensures c.0 * height + c.1 == p && c.1 < height
  {
    (p / height, p % height)
  }

  /** `barycentric_coordinates` of the stand-alone program: a point on an
      edge or a corner counts as inside (all three sub-areas at least 0). */
  function BarycentricInclusive(point: Vec2, v0: Vec2, v1: Vec2, v2: Vec2, area: real): (r: Option<Vec3>)
    requires area != 0.0
    ensures r.Some? <==> Utils.SubAreas(point, v0, v1, v2).x >= 0.0 && Utils.SubAreas(point, v0, v1, v2).y >= 0.0
                         && Utils.SubAreas(point, v0, v1, v2).z >= 0.0
    ensures r.Some? ==> r.value == Utils.SubAreas(point, v0, v1, v2).Scale(1.0 / area)
  {
    var m0 := Utils.EdgeFunctionCw(point, v1, v2);
    var m1 := Utils.EdgeFunctionCw(point, v2, v0);
    var m2 := Utils.EdgeFunctionCw(point, v0, v1);
    var a := 1.0 / area;
    if m0 >= 0.0 && m1 >= 0.0 && m2 >= 0.0 then Some(Vec3(m0 * a, m1 * a, m2 * a)) else None
  }

  /** The inclusive test accepts every point the strict one accepts, with
      the same weights, and also the corners, which the strict one rejects. */
  lemma InclusiveWidensStrict(p: Vec2, v0: Vec2, v1: Vec2, v2: Vec2)
    requires Utils.EdgeFunctionCw(v0, v1, v2) > 0.0
    ensures var area := Utils.EdgeFunctionCw(v0, v1, v2);
            Utils.Barycentric(p, v0, v1, v2, area).Some? ==>
              BarycentricInclusive(p, v0, v1, v2, area) == Utils.Barycentric(p, v0, v1, v2, area)
    ensures var area := Utils.EdgeFunctionCw(v0, v1, v2);
            BarycentricInclusive(v0, v0, v1, v2, area).Some? && Utils.Barycentric(v0, v0, v1, v2, area).None?
  {
    assert Utils.SubAreas(v0, v0, v1, v2).x == Utils.EdgeFunctionCw(v0, v1, v2);
  }
}
