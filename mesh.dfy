/** `Mesh`: an index buffer of triangles over a pool of vertices, with a
    transform, grown in place by `add_vertices`. */
module Meshes {
  import opened Ints
  import opened Vertices

  /** `UVec3`: the three vertex indices of one triangle. */
  datatype UVec3 = UVec3(x: u32, y: u32, z: u32)

  /** The mesh's local transform, carried as its 4x4 matrix in row order. */
  datatype Transform = Transform(matrix: seq<real>)

  /** `Transform::IDENTITY`. */
  const IdentityTransform: Transform :=
    Transform([1.0, 0.0, 0.0, 0.0, 0.0, 1.0, 0.0, 0.0, 0.0, 0.0, 1.0, 0.0, 0.0, 0.0, 0.0, 1.0])

  /** Every index of the triangle is inside a pool of n vertices. */
  predicate InPool(t: UVec3, n: nat) {
    t.x < n && t.y < n && t.z < n
  }

  /** Every triangle's indices are inside the pool: the condition under
      which drawing the mesh does not panic. */
  predicate WellFormed(triangles: seq<UVec3>, vertices: seq<Vertex>) {
    forall t :: t in triangles ==> InPool(t, |vertices|)
  }

  /** The three vertices a triangle names, in index order. */
  function Lookup(vertices: seq<Vertex>, t: UVec3): (vs: seq<Vertex>)
    requires InPool(t, |vertices|)
    ensures |vs| == 3 && vs[0] == vertices[t.x] && vs[1] == vertices[t.y] && vs[2] == vertices[t.z]
  {
    [vertices[t.x], vertices[t.y], vertices[t.z]]
  }

  /** A growable `Vec` handed to `add_vertices`, which drains it. */
  class Vec<T> {
    var items: seq<T>

    constructor (items: seq<T>)
      ensures this.items == items
    {
      this.items := items;
    }
  }

  class Mesh {
    var triangles: seq<UVec3>
    var vertices: seq<Vertex>
    var transform: Transform

    /** `Mesh::new`: no triangles, no vertices, the identity transform. */
    constructor ()
      ensures triangles == [] && vertices == [] && transform == IdentityTransform
      ensures WellFormed(triangles, vertices)
    {
      triangles := [];
      vertices := [];
      transform := IdentityTransform;
    }

    /** `get_triangle_vertices`: the vertices at the triangle's three indices;
        an index outside the pool panics. */
    function GetTriangleVertices(triangle: UVec3): (vs: seq<Vertex>)
      reads this
      requires InPool(triangle, |vertices|)
      ensures vs == Lookup(vertices, triangle)
    {
      [vertices[triangle.x], vertices[triangle.y], vertices[triangle.z]]
    }

    /** `add_vertices`: moves the given triangles and vertices to the end of
        the mesh's own, leaving the two vectors empty; the indices of the
        moved triangles are kept as they are. */
    method AddVertices(newTriangles: Vec<UVec3>, newVertices: Vec<Vertex>)
      modifies this, newTriangles, newVertices
      ensures triangles == old(triangles) + old(newTriangles.items)
      ensures vertices == old(vertices) + old(newVertices.items)
      ensures newTriangles.items == [] && newVertices.items == []
      ensures transform == old(transform)
    {
      triangles := triangles + newTriangles.items;
      newTriangles.items := [];
      vertices := vertices + newVertices.items;
      newVertices.items := [];
    }
  }

  /** Appending keeps every existing triangle looking up the same vertices,
      and the mesh stays well formed exactly when every appended index is
      inside the combined pool. */
  lemma AppendKeepsLookups(ts: seq<UVec3>, vs: seq<Vertex>, moreTs: seq<UVec3>, moreVs: seq<Vertex>)
    requires WellFormed(ts, vs)
    ensures forall t :: t in ts ==> Lookup(vs + moreVs, t) == Lookup(vs, t)
    ensures WellFormed(ts + moreTs, vs + moreVs)
            <==> forall t :: t in moreTs ==> InPool(t, |vs| + |moreVs|)
  {
    forall t | t in ts
      ensures Lookup(vs + moreVs, t) == Lookup(vs, t)
    {
      assert InPool(t, |vs|);
    }
    forall t | t in moreTs
      ensures t in ts + moreTs
    {
    }
  }

  /** A triangle with every index moved up by n. */
  function Shift(t: UVec3, n: nat): UVec3
    requires t.x + n < U32Limit && t.y + n < U32Limit && t.z + n < U32Limit
  {
    UVec3(t.x + n, t.y + n, t.z + n)
  }

  /** Appended triangles are not re-based: a triangle of the appended batch
      names the vertex at its index in the combined pool, which is an old
      vertex; the appended vertex it meant is at the index moved up by the
      old pool size. */
  lemma AppendDoesNotRebase(vs: seq<Vertex>, moreVs: seq<Vertex>, t: UVec3)
    requires InPool(t, |vs|) && InPool(t, |moreVs|)
    requires t.x + |vs| < U32Limit && t.y + |vs| < U32Limit && t.z + |vs| < U32Limit
    ensures Lookup(vs + moreVs, t) == Lookup(vs, t)
    ensures InPool(Shift(t, |vs|), |vs + moreVs|) && Lookup(vs + moreVs, Shift(t, |vs|)) == Lookup(moreVs, t)
  {
  }
}
