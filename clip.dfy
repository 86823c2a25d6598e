/** Culling and near-plane clipping of a clip-space triangle. A vertex is
    behind the near plane when its z is at most 0. */
module Clip {
  import opened Ints
  import opened LinAlg
  import opened Vertices
  import opened Triangles
  import Utils

  /** `ClipResult`: no triangle, one, or two. */
  datatype ClipResult = Culled | One(tri: Triangle) | Two(first: Triangle, second: Triangle)

  // ---------------------------------------------------------------- culling

  /** The six half-spaces outside the clip volume, one per plane. */
  datatype Plane = RightOf | LeftOf | Above | Below | Beyond | Before

  /** Each plane bounds one coordinate by w: p lies strictly outside the
      plane when Low(p, plane) < High(p, plane). */
  function Low(p: Vec4, plane: Plane): real {
    match plane
    case RightOf => p.w
    case LeftOf => p.x
    case Above => p.w
    case Below => p.y
    case Beyond => p.w
    case Before => p.z
  }

  function High(p: Vec4, plane: Plane): real {
    match plane
    case RightOf => p.x
    case LeftOf => -p.w
    case Above => p.y
    case Below => -p.w
    case Beyond => p.z
    case Before => -p.w
  }

  /** Position p lies strictly outside the given plane: x > w, x < -w,
      y > w, y < -w, z > w or z < -w. */
  predicate Outside(p: Vec4, plane: Plane) {
    Low(p, plane) < High(p, plane)
  }

  predicate AllOutside(t: Triangle, plane: Plane) {
    Outside(t.v0.position, plane) && Outside(t.v1.position, plane) && Outside(t.v2.position, plane)
  }

  predicate AllNegativeZ(t: Triangle) {
    t.v0.position.z < 0.0 && t.v1.position.z < 0.0 && t.v2.position.z < 0.0
  }

  /** `cull_triangle_view_frustum`: a conservative trivial reject. The
      triangle is dropped only when all three vertices are strictly outside
      one and the same plane, or all three have negative z. */
  function CullTriangleViewFrustum(t: Triangle): (culled: bool)
    ensures culled ==> (exists plane :: AllOutside(t, plane)) || AllNegativeZ(t)
    ensures !culled ==> (forall plane :: !AllOutside(t, plane)) && !AllNegativeZ(t)
  {
    var p0, p1, p2 := t.v0.position, t.v1.position, t.v2.position;
    if p0.x > p0.w && p1.x > p1.w && p2.x > p2.w then
      assert AllOutside(t, RightOf); true
    else if p0.x < -p0.w && p1.x < -p1.w && p2.x < -p2.w then
      assert AllOutside(t, LeftOf); true
    else if p0.y > p0.w && p1.y > p1.w && p2.y > p2.w then
      assert AllOutside(t, Above); true
    else if p0.y < -p0.w && p1.y < -p1.w && p2.y < -p2.w then
      assert AllOutside(t, Below); true
    else if p0.z > p0.w && p1.z > p1.w && p2.z > p2.w then
      assert AllOutside(t, Beyond); true
    else if p0.z < -p0.w && p1.z < -p1.w && p2.z < -p2.w then
      assert AllOutside(t, Before); true
    else if p0.z < 0.0 && p1.z < 0.0 && p2.z < 0.0 then
      true
    else
      NoPlaneHasAll(t);
      false
  }

  /** When no plane's test holds for all three vertices, no plane has all
      three outside it. */
  lemma NoPlaneHasAll(t: Triangle)
    requires !AllOutside(t, RightOf) && !AllOutside(t, LeftOf) && !AllOutside(t, Above)
    requires !AllOutside(t, Below) && !AllOutside(t, Beyond) && !AllOutside(t, Before)
    ensures forall plane :: !AllOutside(t, plane)
  {
  }

  /** A position counts as visible when it is outside none of the six planes
      and not behind the camera. */
  predicate Visible(p: Vec4) {
    (forall plane :: !Outside(p, plane)) && p.z >= 0.0
  }

  /** The blend of the three positions with weights l0, l1, l2. */
  function Blend(t: Triangle, l0: real, l1: real, l2: real): Vec4 {
    t.v0.position.Scale(l0).Add(t.v1.position.Scale(l1)).Add(t.v2.position.Scale(l2))
  }

  /** Frustum culling is sound: when it drops a triangle, no point of the
      triangle (no convex blend of its corners) is visible. */
  lemma FrustumCullIsSound(t: Triangle, l0: real, l1: real, l2: real)
    requires l0 >= 0.0 && l1 >= 0.0 && l2 >= 0.0 && l0 + l1 + l2 == 1.0
    requires CullTriangleViewFrustum(t)
    ensures !Visible(Blend(t, l0, l1, l2))
  {
    if plane :| AllOutside(t, plane) {
      BlendOutside(t, l0, l1, l2, plane);
    } else {
      var p0, p1, p2 := t.v0.position, t.v1.position, t.v2.position;
      PositiveBlend(l0, l1, l2, -p0.z, -p1.z, -p2.z);
      assert -Blend(t, l0, l1, l2).z == l0 * -p0.z + l1 * -p1.z + l2 * -p2.z;
    }
  }

  /** A convex blend of three positions outside one plane is outside it. */
  lemma BlendOutside(t: Triangle, l0: real, l1: real, l2: real, plane: Plane)
    requires l0 >= 0.0 && l1 >= 0.0 && l2 >= 0.0 && l0 + l1 + l2 == 1.0
    requires AllOutside(t, plane)
    ensures Outside(Blend(t, l0, l1, l2), plane)
  {
    var p0, p1, p2 := t.v0.position, t.v1.position, t.v2.position;
    BoundsOfBlend(t, l0, l1, l2, plane);
    BlendKeepsOrder(l0, l1, l2, Low(p0, plane), Low(p1, plane), Low(p2, plane),
                    High(p0, plane), High(p1, plane), High(p2, plane));
  }

  /** The weighted sum of three numbers. */
  function Mix(l0: real, l1: real, l2: real, a0: real, a1: real, a2: real): real {
    a0 * l0 + a1 * l1 + a2 * l2
  }

  /** Each coordinate of a blend is the weighted sum of the corners'
      coordinates, and a weighted sum of negated numbers is the negated sum. */
  lemma BlendComponents(t: Triangle, l0: real, l1: real, l2: real)
    ensures var p0, p1, p2, p := t.v0.position, t.v1.position, t.v2.position, Blend(t, l0, l1, l2);
            p.x == Mix(l0, l1, l2, p0.x, p1.x, p2.x) && p.y == Mix(l0, l1, l2, p0.y, p1.y, p2.y)
            && p.z == Mix(l0, l1, l2, p0.z, p1.z, p2.z)
            && -p.w == Mix(l0, l1, l2, -p0.w, -p1.w, -p2.w) && p.w == Mix(l0, l1, l2, p0.w, p1.w, p2.w)
  {
  }

  /** Both sides of a plane's test are linear in the position, so they
      commute with blending. */
  lemma BoundsOfBlend(t: Triangle, l0: real, l1: real, l2: real, plane: Plane)
    ensures Low(Blend(t, l0, l1, l2), plane)
            == Mix(l0, l1, l2, Low(t.v0.position, plane), Low(t.v1.position, plane), Low(t.v2.position, plane))
    ensures High(Blend(t, l0, l1, l2), plane)
            == Mix(l0, l1, l2, High(t.v0.position, plane), High(t.v1.position, plane), High(t.v2.position, plane))
  {
    BlendComponents(t, l0, l1, l2);
  }

  /** Blending with convex weights keeps a strict order between two triples
      of numbers. */
  lemma BlendKeepsOrder(l0: real, l1: real, l2: real, a0: real, a1: real, a2: real, b0: real, b1: real, b2: real)
    requires l0 >= 0.0 && l1 >= 0.0 && l2 >= 0.0 && l0 + l1 + l2 == 1.0
    requires a0 < b0 && a1 < b1 && a2 < b2
    ensures Mix(l0, l1, l2, a0, a1, a2) < Mix(l0, l1, l2, b0, b1, b2)
  {
    PositiveBlend(l0, l1, l2, b0 - a0, b1 - a1, b2 - a2);
    assert (b0 * l0 + b1 * l1 + b2 * l2) - (a0 * l0 + a1 * l1 + a2 * l2)
        == l0 * (b0 - a0) + l1 * (b1 - a1) + l2 * (b2 - a2);
  }

  /** A convex blend of positive numbers is positive. */
  lemma PositiveBlend(l0: real, l1: real, l2: real, d0: real, d1: real, d2: real)
    requires l0 >= 0.0 && l1 >= 0.0 && l2 >= 0.0 && l0 + l1 + l2 == 1.0
    requires d0 > 0.0 && d1 > 0.0 && d2 > 0.0
    ensures l0 * d0 + l1 * d1 + l2 * d2 > 0.0
  {
    assert l0 * d0 >= 0.0 && l1 * d1 >= 0.0 && l2 * d2 >= 0.0;
    if l0 > 0.0 {
      assert l0 * d0 > 0.0;
    } else if l1 > 0.0 {
      assert l1 * d1 > 0.0;
    } else {
      assert l2 * d2 > 0.0;
    }
  }

  /** `cull_triangle_backface`: the normal (v1 - v0) x (v2 - v0) of the
      positions' xyz parts is compared with the fixed view direction -z; the
      triangle is dropped when the dot product is not negative. That is
      exactly when the xy projection does not wind negatively, so triangles
      that are degenerate in xy are dropped too. */
  function CullTriangleBackface(t: Triangle): (culled: bool)
    ensures culled <==> SignedArea(t) >= 0.0
  {
    var normal := t.v1.position.Xyz().Sub(t.v0.position.Xyz()).Cross(t.v2.position.Xyz().Sub(t.v0.position.Xyz()));
    normal.Dot(Vec3(0.0, 0.0, -1.0)) >= 0.0
  }

  /** A rotation of a triangle faces the same way as the triangle. */
  lemma BackfaceIgnoresRotation(t: Triangle, u: Triangle)
    requires IsRotationOf(u, t)
    ensures CullTriangleBackface(u) == CullTriangleBackface(t)
  {
    ReorderEffect(t);
    if u == Triangle(t.v1, t.v2, t.v0) {
      ReorderSignedArea(t, BAC);
    } else if u == Triangle(t.v2, t.v0, t.v1) {
      ReorderSignedArea(t, CBA);
    }
  }

  /** A rotation of a triangle is dropped by the frustum test exactly when
      the triangle is. */
  lemma FrustumIgnoresRotation(t: Triangle, u: Triangle)
    requires IsRotationOf(u, t)
    ensures CullTriangleViewFrustum(u) == CullTriangleViewFrustum(t)
  {
    assert AllNegativeZ(u) == AllNegativeZ(t);
    forall plane ensures AllOutside(u, plane) == AllOutside(t, plane) { }
  }

  // --------------------------------------------------------- classification

  /** `ClipEvaluation`: how many vertices are behind, and which. */
  datatype ClipEvaluation = AllPositive | OneNegative(i: u32) | TwoNegative(i: u32, j: u32) | AllNegative

  /** Vertex k of the triangle (k < 3). */
  function At(t: Triangle, k: nat): Vertex
    requires k < 3
  {
    if k == 0 then t.v0 else if k == 1 then t.v1 else t.v2
  }

  /** Vertex k is behind the near plane: its z is not positive. */
  predicate Behind(t: Triangle, k: nat)
    requires k < 3
  {
    At(t, k).position.z <= 0.0
  }

  /** The classification by a table over the three "behind" flags; the
      indices of `TwoNegative` come in increasing order. */
  function ClipEvaluationOf(t: Triangle): (e: ClipEvaluation)
    ensures e.AllPositive? <==> !Behind(t, 0) && !Behind(t, 1) && !Behind(t, 2)
    ensures e.AllNegative? <==> Behind(t, 0) && Behind(t, 1) && Behind(t, 2)
    ensures e.OneNegative? ==> e.i < 3 && forall k :: 0 <= k < 3 ==> (Behind(t, k) <==> k == e.i as nat)
    ensures e.TwoNegative? ==> e.i < e.j < 3
                               && forall k :: 0 <= k < 3 ==> (Behind(t, k) <==> k == e.i as nat || k == e.j as nat)
  {
    match (Behind(t, 0), Behind(t, 1), Behind(t, 2))
    case (false, false, false) => AllPositive
    case (true, false, false) => OneNegative(0)
    case (false, true, false) => OneNegative(1)
    case (false, false, true) => OneNegative(2)
    case (true, true, false) => TwoNegative(0, 1)
    case (true, false, true) => TwoNegative(0, 2)
    case (false, true, true) => TwoNegative(1, 2)
    case (true, true, true) => AllNegative
  }

  /** 1 for a raised flag, 0 otherwise. */
  function Flag(b: bool): nat {
    if b then 1 else 0
  }

  /** `evaluate_clip_vertices`: starts from "all three behind", clears the
      flag and decrements the counter of every vertex with positive z, then
      reads the result off the counter and the flags. It agrees with the
      table, and its final fall-back return is never reached. */
  method EvaluateClipVertices(t: Triangle) returns (e: ClipEvaluation)
    ensures e == ClipEvaluationOf(t)
  {
    var negativeCount: u32 := 3;
    var negativeIndices := new bool[3](_ => true);
    if t.v0.position.z > 0.0 {
      negativeIndices[0] := false;
      negativeCount := negativeCount - 1;
    }
    if t.v1.position.z > 0.0 {
      negativeIndices[1] := false;
      negativeCount := negativeCount - 1;
    }
    if t.v2.position.z > 0.0 {
      negativeIndices[2] := false;
      negativeCount := negativeCount - 1;
    }
    ghost var flags := negativeIndices[..];
    assert forall k :: 0 <= k < 3 ==> (flags[k] <==> Behind(t, k));
    assert negativeCount as int == Flag(flags[0]) + Flag(flags[1]) + Flag(flags[2]);

    if negativeCount == 3 {
      return AllNegative;
    }
    if negativeCount == 0 {
      return AllPositive;
    }
    if negativeCount == 1 {
      for i := 0 to negativeIndices.Length
        invariant negativeIndices[..] == flags
        invariant forall k :: 0 <= k < i ==> !negativeIndices[k]
      {
        if negativeIndices[i] == true {
          return OneNegative(i);
        }
      }
    }
    if negativeCount == 2 {
      if negativeIndices[0] == false {
        return TwoNegative(1, 2);
      }
      if negativeIndices[1] == false {
        return TwoNegative(0, 2);
      }
      if negativeIndices[2] == false {
        return TwoNegative(0, 1);
      }
    }
    assert false;
    return AllNegative;
  }

  // --------------------------------------------------------------- clipping

  /** `clip_triangle_one_negative`, for a triangle whose v0 is the only
      vertex behind: v0 is moved along each of its two edges onto the plane
      z = 0, giving the triangles (a, v1, v2) and (a, b, v2). */
  function ClipTriangleOneNegative(t: Triangle): (r: (Triangle, Triangle))
    requires t.v1.position.z != t.v0.position.z && t.v2.position.z != t.v0.position.z
    ensures r.0.v0 == r.1.v0 && r.0.v1 == t.v1 && r.0.v2 == t.v2 && r.1.v2 == t.v2
    ensures r.0.v0.position.z == 0.0 && r.1.v1.position.z == 0.0
  {
    var alphaA := -t.v0.position.z / (t.v1.position.z - t.v0.position.z);
    var alphaB := -t.v0.position.z / (t.v2.position.z - t.v0.position.z);
    var v0A := Utils.Lerp(t.v0, t.v1, alphaA);
    var v0B := Utils.Lerp(t.v0, t.v2, alphaB);
    Utils.LerpOntoPlane(t.v0, t.v1);
    Utils.LerpOntoPlane(t.v0, t.v2);
    var resultA := t.(v0 := v0A);
    var resultB := t.(v0 := v0A, v1 := v0B);
    (resultA, resultB)
  }

  /** `clip_triangle_two_negatives`, for a triangle whose v2 is the only
      vertex in front: v0 and v1 are moved towards v2 onto the plane z = 0. */
  function ClipTriangleTwoNegatives(t: Triangle): (r: Triangle)
    requires t.v2.position.z != t.v0.position.z && t.v2.position.z != t.v1.position.z
    ensures r.v2 == t.v2 && r.v0.position.z == 0.0 && r.v1.position.z == 0.0
  {
    var alphaA := -t.v0.position.z / (t.v2.position.z - t.v0.position.z);
    var alphaB := -t.v1.position.z / (t.v2.position.z - t.v1.position.z);
    Utils.LerpOntoPlane(t.v0, t.v2);
    Utils.LerpOntoPlane(t.v1, t.v2);
    Triangle(Utils.Lerp(t.v0, t.v2, alphaA), Utils.Lerp(t.v1, t.v2, alphaB), t.v2)
  }

  /** One of the two culling tests fires. */
  predicate IsCulled(t: Triangle) {
    CullTriangleBackface(t) || CullTriangleViewFrustum(t)
  }

  /** The interpolation fractions `clip_cull_triangle` computes are defined:
      of the cases the classification can produce, only two divide by the
      difference of two behind vertices' z, which may be zero. */
  predicate ClipDefined(t: Triangle) {
    IsCulled(t)
    || ((ClipEvaluationOf(t) == TwoNegative(0, 2) ==> t.v0.position.z != t.v2.position.z)
        && (ClipEvaluationOf(t) == TwoNegative(1, 2) ==> t.v1.position.z != t.v2.position.z))
  }

  /** `clip_cull_triangle` as written: backface, then frustum culling, then
      dispatch on the classification with the re-orderings the source uses. */
  function ClipCullTriangle(t: Triangle): (r: ClipResult)
    requires ClipDefined(t)
    ensures r.Culled? <==> IsCulled(t)
    ensures !IsCulled(t) && ClipEvaluationOf(t).OneNegative? ==> r.Two?
    ensures !IsCulled(t) && ClipEvaluationOf(t).TwoNegative? ==> r.One?
    ensures !IsCulled(t) && (ClipEvaluationOf(t).AllPositive? || ClipEvaluationOf(t).AllNegative?) ==> r == One(t)
  {
    if CullTriangleBackface(t) then Culled
    else if CullTriangleViewFrustum(t) then Culled
    else
      ReorderEffect(t);
      match ClipEvaluationOf(t)
      case OneNegative(first) =>
        if first == 0 then Two(ClipTriangleOneNegative(Reorder(t, ACB)).0, ClipTriangleOneNegative(Reorder(t, ACB)).1)
        else if first == 1 then Two(ClipTriangleOneNegative(Reorder(t, BAC)).0, ClipTriangleOneNegative(Reorder(t, BAC)).1)
        else if first == 2 then Two(ClipTriangleOneNegative(Reorder(t, CBA)).0, ClipTriangleOneNegative(Reorder(t, CBA)).1)
        else One(t)
      case TwoNegative(first, second) =>
        if first == 0 && second == 1 then One(ClipTriangleTwoNegatives(t))
        else if first == 0 && second == 2 then One(ClipTriangleTwoNegatives(Reorder(t, ACB)))
        else if first == 1 && second == 2 then One(ClipTriangleTwoNegatives(Reorder(t, BCA)))
        else One(t)
      case AllPositive => One(t)
      case AllNegative => One(t)
  }

  /** No vertex of the triangle is behind the near plane (z < 0). */
  predicate InFront(tri: Triangle) {
    tri.v0.position.z >= 0.0 && tri.v1.position.z >= 0.0 && tri.v2.position.z >= 0.0
  }

  /** Every triangle of a clip result is in front of the near plane. */
  predicate ResultInFront(r: ClipResult) {
    match r
    case Culled => true
    case One(a) => InFront(a)
    case Two(a, b) => InFront(a) && InFront(b)
  }

  /** With one vertex behind, the dispatch hands `ClipTriangleOneNegative` a
      rotation of the triangle (so its winding is kept) whose v0 is the
      vertex behind. */
  lemma OneNegativeDispatch(t: Triangle)
    requires !IsCulled(t) && ClipEvaluationOf(t).OneNegative?
    ensures exists u :: IsRotationOf(u, t) && Behind(u, 0) && !Behind(u, 1) && !Behind(u, 2)
                        && ClipCullTriangle(t) == Two(ClipTriangleOneNegative(u).0, ClipTriangleOneNegative(u).1)
  {
    ReorderEffect(t);
    var i := ClipEvaluationOf(t).i;
    var u := if i == 0 then Reorder(t, ACB) else if i == 1 then Reorder(t, BAC) else Reorder(t, CBA);
    assert Behind(u, 0) && !Behind(u, 1) && !Behind(u, 2);
    assert ClipCullTriangle(t) == Two(ClipTriangleOneNegative(u).0, ClipTriangleOneNegative(u).1);
  }

  /** With one vertex behind, or with v0 and v1 behind, everything the
      clipper returns lies in front of the near plane. */
  lemma ClipCullTriangleInFront(t: Triangle)
    requires !IsCulled(t)
    requires ClipEvaluationOf(t).OneNegative? || ClipEvaluationOf(t) == TwoNegative(0, 1)
    ensures ResultInFront(ClipCullTriangle(t))
  {
    if ClipEvaluationOf(t).OneNegative? {
      OneNegativeDispatch(t);
    }
  }

  /** As written, the cases "v0 and v2 behind" and "v1 and v2 behind" pass
      the clipper a triangle whose v2 is behind: ACB leaves the triangle as
      it is and BCA only exchanges v0 and v1. The result keeps that vertex
      and moves the other two onto z = 0, so the returned triangle lies
      entirely on or behind the near plane and the visible part is lost. */
  lemma TwoNegativeKeepsBehindVertex(t: Triangle)
    requires !IsCulled(t) && ClipDefined(t)
    requires ClipEvaluationOf(t) == TwoNegative(0, 2) || ClipEvaluationOf(t) == TwoNegative(1, 2)
    ensures ClipCullTriangle(t).One?
    ensures ClipCullTriangle(t).tri.v2 == t.v2
    ensures ClipCullTriangle(t).tri.v0.position.z == 0.0 && ClipCullTriangle(t).tri.v1.position.z == 0.0
    ensures t.v2.position.z <= 0.0
  {
    ReorderEffect(t);
  }

  /** Inputs that show it: corners at x, y = (0, 0), (1, 0), (0, 1) with
      w = 1, winding negatively and inside the clip volume except for z,
      with v1 in front and v0, v2 behind (say z = -1, 1, -0.5). Such a
      triangle is not culled, yet its clipped version keeps a vertex
      strictly behind the near plane. */
  lemma TwoNegativeCounterexample(t: Triangle)
    requires t.v0.position.x == 0.0 && t.v0.position.y == 0.0 && t.v0.position.w == 1.0
    requires t.v1.position.x == 1.0 && t.v1.position.y == 0.0 && t.v1.position.w == 1.0
    requires t.v2.position.x == 0.0 && t.v2.position.y == 1.0 && t.v2.position.w == 1.0
    requires -1.0 <= t.v0.position.z < 0.0 && 0.0 < t.v1.position.z <= 1.0 && -1.0 <= t.v2.position.z < 0.0
    requires t.v0.position.z != t.v2.position.z
    ensures !IsCulled(t) && ClipDefined(t) && ClipEvaluationOf(t) == TwoNegative(0, 2)
    ensures !ResultInFront(ClipCullTriangle(t))
  {
    assert !IsCulled(t) by {
      assert SignedArea(t) == -1.0;
      forall plane ensures !AllOutside(t, plane) { }
    }
    assert Behind(t, 0) && !Behind(t, 1) && Behind(t, 2);
    TwoNegativeKeepsBehindVertex(t);
  }

  /** `clip_cull_triangle` with the re-orderings the two-behind cases need:
      CBA and BAC rotate the vertex in front into v2. No division by zero
      can occur, and unless all three vertices are behind, everything
      returned lies in front of the near plane. */
  function ClipCullTriangleIntended(t: Triangle): (r: ClipResult)
    ensures r.Culled? <==> IsCulled(t)
    ensures !IsCulled(t) && ClipEvaluationOf(t).OneNegative? ==> r.Two?
    ensures !IsCulled(t) && ClipEvaluationOf(t).TwoNegative? ==> r.One?
    ensures !ClipEvaluationOf(t).AllNegative? ==> ResultInFront(r)
  {
    if CullTriangleBackface(t) then Culled
    else if CullTriangleViewFrustum(t) then Culled
    else
      ReorderEffect(t);
      match ClipEvaluationOf(t)
      case OneNegative(first) =>
        if first == 0 then Two(ClipTriangleOneNegative(Reorder(t, ACB)).0, ClipTriangleOneNegative(Reorder(t, ACB)).1)
        else if first == 1 then Two(ClipTriangleOneNegative(Reorder(t, BAC)).0, ClipTriangleOneNegative(Reorder(t, BAC)).1)
        else if first == 2 then Two(ClipTriangleOneNegative(Reorder(t, CBA)).0, ClipTriangleOneNegative(Reorder(t, CBA)).1)
        else One(t)
      case TwoNegative(first, second) =>
        if first == 0 && second == 1 then One(ClipTriangleTwoNegatives(t))
        else if first == 0 && second == 2 then One(ClipTriangleTwoNegatives(Reorder(t, CBA)))
        else if first == 1 && second == 2 then One(ClipTriangleTwoNegatives(Reorder(t, BAC)))
        else One(t)
      case AllPositive => One(t)
      case AllNegative => One(t)
  }

  /** The corrected clipper differs from the one as written only in the two
      faulty cases. */
  lemma IntendedAgreesElsewhere(t: Triangle)
    requires ClipDefined(t)
    requires ClipEvaluationOf(t) != TwoNegative(0, 2) && ClipEvaluationOf(t) != TwoNegative(1, 2)
    ensures ClipCullTriangleIntended(t) == ClipCullTriangle(t)
  {
  }

  /** Left over from the all-behind case: a triangle that is not culled but
      classified as all behind has every z at most 0 and some z equal to 0;
      it is returned unclipped. */
  lemma AllNegativeReturnedUnclipped(t: Triangle)
    requires !IsCulled(t) && ClipEvaluationOf(t).AllNegative?
    ensures ClipCullTriangle(t) == One(t)
    ensures t.v0.position.z == 0.0 || t.v1.position.z == 0.0 || t.v2.position.z == 0.0
  {
    assert !AllNegativeZ(t);
  }
}
