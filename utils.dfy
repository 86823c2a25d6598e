/** The rasterizer's geometric helpers: the edge function, the strict
    barycentric test, linear interpolation and range mapping. */
module Utils {
  import opened LinAlg
  import opened Vertices
  import opened Options

  /** `edge_function_cw(v0, v1, p)`: twice the signed area spanned by the
      edge v0 -> v1 and the point p, positive on the inner side of a
      clockwise edge. It vanishes at both ends of the edge. */
  function EdgeFunctionCw(v0: Vec2, v1: Vec2, p: Vec2): (e: real)
    ensures p == v0 || p == v1 ==> e == 0.0
  {
    (p.x - v0.x) * (v1.y - v0.y) - (p.y - v0.y) * (v1.x - v0.x)
  }

  /** The three sub-areas of `point` against the edges opposite v0, v1, v2. */
  function SubAreas(point: Vec2, v0: Vec2, v1: Vec2, v2: Vec2): Vec3 {
    Vec3(EdgeFunctionCw(point, v1, v2), EdgeFunctionCw(point, v2, v0), EdgeFunctionCw(point, v0, v1))
  }

  /** `barycentric_coordinates` (strict): the point counts as inside only when
      all three sub-areas are strictly positive, so points on an edge are
      rejected; the weights are the sub-areas divided by `area`. */
  function Barycentric(point: Vec2, v0: Vec2, v1: Vec2, v2: Vec2, area: real): (r: Option<Vec3>)
    requires area != 0.0
    ensures r.Some? <==> SubAreas(point, v0, v1, v2).x > 0.0 && SubAreas(point, v0, v1, v2).y > 0.0
                         && SubAreas(point, v0, v1, v2).z > 0.0
    ensures r.Some? ==> r.value == SubAreas(point, v0, v1, v2).Scale(1.0 / area)
  {
    var m0 := EdgeFunctionCw(point, v1, v2);
    var m1 := EdgeFunctionCw(point, v2, v0);
    var m2 := EdgeFunctionCw(point, v0, v1);
    var a := 1.0 / area;
    if m0 > 0.0 && m1 > 0.0 && m2 > 0.0 then Some(Vec3(m0 * a, m1 * a, m2 * a)) else None
  }

  /** The three sub-areas of any point add up to the area of the triangle. */
  lemma SubAreasSum(p: Vec2, v0: Vec2, v1: Vec2, v2: Vec2)
    ensures SubAreas(p, v0, v1, v2).x + SubAreas(p, v0, v1, v2).y + SubAreas(p, v0, v1, v2).z
            == EdgeFunctionCw(v0, v1, v2)
  {
  }

  /** With the triangle's own area, the weights of an inside point are
      positive and add up to one. A degenerate triangle has no inside point. */
  lemma BarycentricWeights(p: Vec2, v0: Vec2, v1: Vec2, v2: Vec2)
    requires EdgeFunctionCw(v0, v1, v2) != 0.0
    ensures var r := Barycentric(p, v0, v1, v2, EdgeFunctionCw(v0, v1, v2));
            r.Some? ==> r.value.x > 0.0 && r.value.y > 0.0 && r.value.z > 0.0
                        && r.value.x + r.value.y + r.value.z == 1.0
  {
    var area := EdgeFunctionCw(v0, v1, v2);
    var m := SubAreas(p, v0, v1, v2);
    SubAreasSum(p, v0, v1, v2);
    if m.x > 0.0 && m.y > 0.0 && m.z > 0.0 {
      assert area > 0.0;
      var a := 1.0 / area;
      assert m.x * a + m.y * a + m.z * a == (m.x + m.y + m.z) * a;
    }
  }

  /** The weights of an inside point reproduce the point as a blend of the
      three corners. */
  lemma BarycentricBlend(p: Vec2, v0: Vec2, v1: Vec2, v2: Vec2)
    requires EdgeFunctionCw(v0, v1, v2) != 0.0
    ensures var r := Barycentric(p, v0, v1, v2, EdgeFunctionCw(v0, v1, v2));
            r.Some? ==> v0.Scale(r.value.x).Add(v1.Scale(r.value.y)).Add(v2.Scale(r.value.z)) == p
  {
    var area := EdgeFunctionCw(v0, v1, v2);
    var m := SubAreas(p, v0, v1, v2);
    var r := Barycentric(p, v0, v1, v2, area);
    if r.Some? {
      SubAreasMoment(p, v0, v1, v2);
      BlendOfMoment(m, area, p, v0, v1, v2);
    }
  }

  /** Weights proportional to `m`, where `m` weights the corners into the
      point scaled by `area`, blend the corners into the point itself. */
  lemma BlendOfMoment(m: Vec3, area: real, p: Vec2, v0: Vec2, v1: Vec2, v2: Vec2)
    requires area != 0.0
    requires m.x * v0.x + m.y * v1.x + m.z * v2.x == area * p.x
    requires m.x * v0.y + m.y * v1.y + m.z * v2.y == area * p.y
    ensures var b := m.Scale(1.0 / area);
            v0.Scale(b.x).Add(v1.Scale(b.y)).Add(v2.Scale(b.z)) == p
  {
    var a := 1.0 / area;
    ScaledBlend(m, v0.x, v1.x, v2.x, area, p.x);
    ScaledBlend(m, v0.y, v1.y, v2.y, area, p.y);
    assert v0.Scale(m.x * a).Add(v1.Scale(m.y * a)).Add(v2.Scale(m.z * a)) == p;
  }

  /** Weighting the corners with the sub-areas gives the point scaled by
      the area. */
  lemma SubAreasMoment(p: Vec2, v0: Vec2, v1: Vec2, v2: Vec2)
    ensures var m := SubAreas(p, v0, v1, v2);
            m.x * v0.x + m.y * v1.x + m.z * v2.x == EdgeFunctionCw(v0, v1, v2) * p.x
            && m.x * v0.y + m.y * v1.y + m.z * v2.y == EdgeFunctionCw(v0, v1, v2) * p.y
  {
  }

  /** A quotient times its divisor is the dividend. */
  lemma DivThenMul(n: real, d: real, q: real)
    requires d != 0.0 && q == n / d
    ensures q * d == n
  {
  }

  /** A product divided by one factor is the other. */
  lemma MulThenDiv(n: real, d: real, p: real)
    requires d != 0.0 && p == n * d
    ensures p / d == n
  {
  }

  /** Dividing a blend by the area divides each weight by it. */
  lemma ScaledBlend(m: Vec3, c0: real, c1: real, c2: real, area: real, c: real)
    requires area != 0.0 && m.x * c0 + m.y * c1 + m.z * c2 == area * c
    ensures c0 * (m.x * (1.0 / area)) + c1 * (m.y * (1.0 / area)) + c2 * (m.z * (1.0 / area)) == c
  {
    var a := 1.0 / area;
    assert c0 * (m.x * a) + c1 * (m.y * a) + c2 * (m.z * a) == (m.x * c0 + m.y * c1 + m.z * c2) * a;
    assert (area * c) * a == c * (area * a);
  }

  /** `lerp(min, max, t) = min + (max - min) * t`, on whole vertices. */
  function Lerp(min: Vertex, max: Vertex, t: real): (r: Vertex)
    ensures t == 0.0 ==> r == min
    ensures t == 1.0 ==> r == max
  {
    min.Add(max.Sub(min).Mul(t))
  }

  /** Interpolating towards a vertex on the other side of z = 0 by the
      fraction `-z0 / (z1 - z0)` lands exactly on the plane z = 0, at a
      fraction between 0 and 1 when z0 <= 0 < z1 or z1 <= 0 < z0. */
  lemma LerpOntoPlane(min: Vertex, max: Vertex)
    requires max.position.z != min.position.z
    ensures Lerp(min, max, -min.position.z / (max.position.z - min.position.z)).position.z == 0.0
    ensures (min.position.z <= 0.0 < max.position.z) || (max.position.z <= 0.0 < min.position.z)
            ==> 0.0 <= -min.position.z / (max.position.z - min.position.z) <= 1.0
  {
    var z0, z1 := min.position.z, max.position.z;
    var t := -z0 / (z1 - z0);
    assert (z1 - z0) * t == -z0;
  }

  /** `map_to_range(v, a1, a2, b1, b2)`: the affine map taking a1 to b1 and
      a2 to b2. */
  function MapToRange(v: real, a1: real, a2: real, b1: real, b2: real): (r: real)
    requires a1 != a2
    ensures v == a1 ==> r == b1
    ensures v == a2 ==> r == b2
  {
    var n := (v - a1) * (b2 - b1);
    assert v == a1 ==> n == 0.0;
    assert v == a2 ==> n == (a2 - a1) * (b2 - b1);
    b1 + n / (a2 - a1)
  }

  /** Mapping back with the ranges exchanged gives the value back. */
  lemma MapToRangeInverse(v: real, a1: real, a2: real, b1: real, b2: real)
    requires a1 != a2 && b1 != b2
    ensures MapToRange(MapToRange(v, a1, a2, b1, b2), b1, b2, a1, a2) == v
  {
    var u := MapToRange(v, a1, a2, b1, b2);
    var n := (v - a1) * (b2 - b1);
    assert u - b1 == n / (a2 - a1);
    DivThenMul(n, a2 - a1, u - b1);
    MulThenDiv(v - a1, b2 - b1, (u - b1) * (a2 - a1));
    assert MapToRange(u, b1, b2, a1, a2) == a1 + ((u - b1) * (a2 - a1)) / (b2 - b1);
  }
}

/** An optional value. */
module Options {
  datatype Option<T> = None | Some(value: T)
}
