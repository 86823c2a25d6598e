/** `Triangle`, an ordered triple of vertices, and the ways the renderer
    builds, transforms and re-orders it. */
module Triangles {
  import opened LinAlg
  import opened Vertices
  import Utils

  datatype Triangle = Triangle(v0: Vertex, v1: Vertex, v2: Vertex)

  /** The six re-orderings `reorder` accepts, named by the order in which
      the input vertices are passed on. */
  datatype VerticesOrder = ABC | ACB | BAC | BCA | CAB | CBA

  /** `Triangle::new`: its parameters are declared in the order (v0, v2, v1),
      so its second argument becomes v2 and its third becomes v1. */
  function New(v0: Vertex, v2: Vertex, v1: Vertex): (t: Triangle)
    ensures t.v0 == v0 && t.v1 == v1 && t.v2 == v2
  {
    Triangle(v0, v1, v2)
  }

  /** `Triangle::from_vertices`: the three vertices in the given order. */
  function FromVertices(vertices: seq<Vertex>): (t: Triangle)
    requires |vertices| == 3
    ensures [t.v0, t.v1, t.v2] == vertices
  {
    Triangle(vertices[0], vertices[1], vertices[2])
  }

  /** The three vertices of a triangle, as a multiset. */
  function Corners(t: Triangle): multiset<Vertex> {
    multiset{t.v0} + multiset{t.v1} + multiset{t.v2}
  }

  /** `reorder`: every order yields a permutation of the same three vertices. */
  function Reorder(t: Triangle, order: VerticesOrder): (r: Triangle)
    ensures Corners(r) == Corners(t)
  {
    match order
    case ABC => t
    case ACB => New(t.v0, t.v2, t.v1)
    case BAC => New(t.v1, t.v0, t.v2)
    case BCA => New(t.v1, t.v2, t.v0)
    case CAB => New(t.v2, t.v0, t.v1)
    case CBA => New(t.v2, t.v1, t.v0)
  }

  /** The cyclic rotations of a triangle: the re-orderings that keep its
      winding. */
  predicate IsRotationOf(r: Triangle, t: Triangle) {
    r == t || r == Triangle(t.v1, t.v2, t.v0) || r == Triangle(t.v2, t.v0, t.v1)
  }

  /** Because of the swapped parameters of `New`, ACB returns the triangle
      unchanged, BAC and CBA rotate it (keeping its winding), and only BCA and
      CAB exchange two vertices. */
  lemma ReorderEffect(t: Triangle)
    ensures Reorder(t, ACB) == t
    ensures Reorder(t, BAC) == Triangle(t.v1, t.v2, t.v0) && IsRotationOf(Reorder(t, BAC), t)
    ensures Reorder(t, CBA) == Triangle(t.v2, t.v0, t.v1) && IsRotationOf(Reorder(t, CBA), t)
    ensures Reorder(t, BCA) == Triangle(t.v1, t.v0, t.v2)
    ensures Reorder(t, CAB) == Triangle(t.v2, t.v1, t.v0)
  {
  }

  /** Twice the signed area of the triangle's projection onto the xy plane. */
  function SignedArea(t: Triangle): real {
    Utils.EdgeFunctionCw(t.v0.position.Xy(), t.v1.position.Xy(), t.v2.position.Xy())
  }

  /** A rotation keeps the signed area; exchanging two vertices negates it.
      So ABC, ACB, BAC and CBA keep the facing of a triangle, BCA and CAB
      flip it. */
  lemma ReorderSignedArea(t: Triangle, order: VerticesOrder)
    ensures order in {ABC, ACB, BAC, CBA} ==> SignedArea(Reorder(t, order)) == SignedArea(t)
    ensures order in {BCA, CAB} ==> SignedArea(Reorder(t, order)) == -SignedArea(t)
  {
    var a, b, c := t.v0.position, t.v1.position, t.v2.position;
    match order
    case ABC =>
    case ACB =>
    case BAC =>
      assert SignedArea(Reorder(t, order)) == Utils.EdgeFunctionCw(b.Xy(), c.Xy(), a.Xy());
    case CBA =>
      assert SignedArea(Reorder(t, order)) == Utils.EdgeFunctionCw(c.Xy(), a.Xy(), b.Xy());
    case BCA =>
      assert SignedArea(Reorder(t, order)) == Utils.EdgeFunctionCw(b.Xy(), a.Xy(), c.Xy());
    case CAB =>
      assert SignedArea(Reorder(t, order)) == Utils.EdgeFunctionCw(c.Xy(), b.Xy(), a.Xy());
  }

  /** The triangle with every position mapped by `matrix`; colours and
      texture coordinates are left as they are. */
  function Transformed(t: Triangle, matrix: Vec4 -> Vec4): Triangle {
    Triangle(
      t.v0.(position := matrix(t.v0.position)),
      t.v1.(position := matrix(t.v1.position)),
      t.v2.(position := matrix(t.v2.position)))
  }

  /** `transform`: replaces the three positions one after the other by their
      image under `matrix` (the matrix product is kept abstract). */
  method Transform(t: Triangle, matrix: Vec4 -> Vec4) returns (r: Triangle)
    ensures r == Transformed(t, matrix)
  {
    r := t;
    r := r.(v0 := r.v0.(position := matrix(r.v0.position)));
    r := r.(v1 := r.v1.(position := matrix(r.v1.position)));
    r := r.(v2 := r.v2.(position := matrix(r.v2.position)));
  }

  /** Transforming acts on each vertex alone, so it commutes with every
      re-ordering. */
  lemma TransformCommutesWithReorder(t: Triangle, matrix: Vec4 -> Vec4, order: VerticesOrder)
    ensures Transformed(Reorder(t, order), matrix) == Reorder(Transformed(t, matrix), order)
  {
  }
}
