/** `draw_triangle` of the stand-alone program: every index of the colour
    buffer is checked against the triangle (inclusive test at the integer
    point the index splits into) and against the depth buffer, which is
    read but never written. */
module OldRaster {
  import opened Ints
  import opened LinAlg
  import opened Options
  import opened Standalone
  import Bounds
  import Utils

  /** The stand-alone program's vertex: a position with depth, a colour and
      a texture coordinate. */
  datatype OldVertex = OldVertex(position: Vec3, color: Vec3, uv: Vec2)

  /** The texture lookup `argb_at_uv`, kept abstract. */
  type Sampler = (real, real) -> u32

  /** Twice the signed screen area of the triangle. */
  function Area(v0: OldVertex, v1: OldVertex, v2: OldVertex): real {
    Utils.EdgeFunctionCw(v0.position.Xy(), v1.position.Xy(), v2.position.Xy())
  }

  /** The point examined for buffer index i: `index_to_coords(i, WIDTH)`. */
  function PointOf(i: nat): Vec2 {
    var c := IndexToCoords(i, Width);
    Vec2(c.0 as real, c.1 as real)
  }

  /** The depth as written: the third weight is added to the third depth
      instead of multiplying it, so it exceeds the weighted average by
      `b.z + z2 - b.z * z2`. */
  function DepthAsWritten(b: Vec3, z0: real, z1: real, z2: real): (d: real)
    ensures d == DepthIntended(b, z0, z1, z2) + b.z + z2 - b.z * z2
  {
    b.x * z0 + b.y * z1 + b.z + z2
  }

  function Min3(a: real, b: real, c: real): real {
    if a <= b && a <= c then a else if b <= c then b else c
  }

  function Max3(a: real, b: real, c: real): real {
    if a >= b && a >= c then a else if b >= c then b else c
  }

  /** The depth as evidently intended: the weighted average of the three
      depths, which lies between the nearest and the farthest of them. */
  function DepthIntended(b: Vec3, z0: real, z1: real, z2: real): (d: real)
    ensures b.x >= 0.0 && b.y >= 0.0 && b.z >= 0.0 && b.x + b.y + b.z == 1.0
            ==> Min3(z0, z1, z2) <= d <= Max3(z0, z1, z2)
  {
    var d := b.x * z0 + b.y * z1 + b.z * z2;
    if b.x >= 0.0 && b.y >= 0.0 && b.z >= 0.0 && b.x + b.y + b.z == 1.0 then
      Bounds.BlendBetween(b.x, b.y, b.z, z0, z1, z2, Min3(z0, z1, z2), Max3(z0, z1, z2), d);
      d
    else
      d
  }

  /** As written, a pixel in the middle of a triangle whose corners all lie
      at depth 0 gets depth 1/3, outside the corners' range; the intended
      formula gives 0. */
  lemma DepthAsWrittenLeavesRange()
    ensures var b := Vec3(1.0 / 3.0, 1.0 / 3.0, 1.0 / 3.0);
            DepthAsWritten(b, 0.0, 0.0, 0.0) == 1.0 / 3.0 > Max3(0.0, 0.0, 0.0)
            && DepthIntended(b, 0.0, 0.0, 0.0) == 0.0
  {
  }

  /** With the triangle's own area, the inclusive weights of an accepted
      point are non-negative and add up to one. */
  lemma InclusiveWeights(p: Vec2, v0: Vec2, v1: Vec2, v2: Vec2)
    requires Utils.EdgeFunctionCw(v0, v1, v2) != 0.0
    ensures var r := BarycentricInclusive(p, v0, v1, v2, Utils.EdgeFunctionCw(v0, v1, v2));
            r.Some? ==> r.value.x >= 0.0 && r.value.y >= 0.0 && r.value.z >= 0.0
                        && r.value.x + r.value.y + r.value.z == 1.0
  {
    var area := Utils.EdgeFunctionCw(v0, v1, v2);
    var m := Utils.SubAreas(p, v0, v1, v2);
    Utils.SubAreasSum(p, v0, v1, v2);
    if m.x >= 0.0 && m.y >= 0.0 && m.z >= 0.0 {
      assert area > 0.0;
      var a := 1.0 / area;
      assert m.x * a >= 0.0 && m.y * a >= 0.0 && m.z * a >= 0.0;
      assert m.x * a + m.y * a + m.z * a == (m.x + m.y + m.z) * a;
    }
  }

  /** The blend of the three texture coordinates with the weights. */
  function TexCoords(b: Vec3, v0: OldVertex, v1: OldVertex, v2: OldVertex): Vec2 {
    v0.uv.Scale(b.x).Add(v1.uv.Scale(b.y)).Add(v2.uv.Scale(b.z))
  }

  /** The word at index i after the call: the sampled texel when the point
      is accepted and its depth is at most the stored one, the old word
      otherwise. A word changes only where the point is accepted with convex
      weights and passes the depth test, and it then becomes the texel
      sampled at the blended texture coordinate. */
  function PixelAfter(v0: OldVertex, v1: OldVertex, v2: OldVertex, sample: Sampler,
                      zbuff: seq<real>, previous: u32, i: nat): (w: u32)
    requires Area(v0, v1, v2) != 0.0 && i < |zbuff|
    ensures var r := BarycentricInclusive(PointOf(i), v0.position.Xy(), v1.position.Xy(), v2.position.Xy(), Area(v0, v1, v2));
            w != previous ==>
              r.Some? && r.value.x >= 0.0 && r.value.y >= 0.0 && r.value.z >= 0.0
              && r.value.x + r.value.y + r.value.z == 1.0
              && DepthAsWritten(r.value, v0.position.z, v1.position.z, v2.position.z) <= zbuff[i]
              && w == sample(TexCoords(r.value, v0, v1, v2).x, TexCoords(r.value, v0, v1, v2).y)
    ensures var r := BarycentricInclusive(PointOf(i), v0.position.Xy(), v1.position.Xy(), v2.position.Xy(), Area(v0, v1, v2));
            r.Some? && DepthAsWritten(r.value, v0.position.z, v1.position.z, v2.position.z) <= zbuff[i] ==>
              w == sample(TexCoords(r.value, v0, v1, v2).x, TexCoords(r.value, v0, v1, v2).y)
  {
    InclusiveWeights(PointOf(i), v0.position.Xy(), v1.position.Xy(), v2.position.Xy());
    match BarycentricInclusive(PointOf(i), v0.position.Xy(), v1.position.Xy(), v2.position.Xy(), Area(v0, v1, v2))
    case None => previous
    case Some(b) =>
      if DepthAsWritten(b, v0.position.z, v1.position.z, v2.position.z) <= zbuff[i] then
        var tc := TexCoords(b, v0, v1, v2);
        sample(tc.x, tc.y)
      else previous
  }

  /** `draw_triangle`: one pass over the colour buffer, writing in place;
      the depth buffer is only read. */
  method DrawTriangle(v0: OldVertex, v1: OldVertex, v2: OldVertex, sample: Sampler,
                      buff: array<u32>, zbuff: array<real>)
    requires Area(v0, v1, v2) != 0.0 && zbuff.Length >= buff.Length
    modifies buff
    ensures forall i :: 0 <= i < buff.Length ==> buff[i] == PixelAfter(v0, v1, v2, sample, zbuff[..], old(buff[i]), i)
  {
    for i := 0 to buff.Length
      invariant forall k :: 0 <= k < i ==> buff[k] == PixelAfter(v0, v1, v2, sample, zbuff[..], old(buff[k]), k)
      invariant forall k :: i <= k < buff.Length ==> buff[k] == old(buff[k])
    {
      ghost var goal := PixelAfter(v0, v1, v2, sample, zbuff[..], buff[i], i);
      var coords := IndexToCoords(i, Width);
      var point := Vec2(coords.0 as real, coords.1 as real);
      var area := Utils.EdgeFunctionCw(v0.position.Xy(), v1.position.Xy(), v2.position.Xy());
      var bary := BarycentricInclusive(point, v0.position.Xy(), v1.position.Xy(), v2.position.Xy(), area);
      assert point == PointOf(i) && area == Area(v0, v1, v2);
      if bary.Some? {
        var b := bary.value;
        var depth := b.x * v0.position.z + b.y * v1.position.z + b.z + v2.position.z;
        assert depth == DepthAsWritten(b, v0.position.z, v1.position.z, v2.position.z);
        if depth <= zbuff[i] {
          var texCoords := v0.uv.Scale(b.x).Add(v1.uv.Scale(b.y)).Add(v2.uv.Scale(b.z));
          var color := sample(texCoords.x, texCoords.y);
          assert color == goal;
          buff[i] := color;
        }
      }
      assert buff[i] == goal;
    }
  }
}
