/** The renderer's `Vertex` (a homogeneous position, a colour and a texture
    coordinate) and its component-wise operators. */
module Vertices {
  import opened LinAlg

  datatype Vertex = Vertex(position: Vec4, color: Vec3, uv: Vec2) {

    /** `self + rhs`: every attribute added component-wise; subtracting
        `rhs` again gives `self` back. */
    function Add(rhs: Vertex): (r: Vertex)
      ensures r.Sub(rhs) == this
    {
      Vertex(position.Add(rhs.position), color.Add(rhs.color), uv.Add(rhs.uv))
    }

    /** `self - rhs`: every attribute subtracted component-wise; adding each
        attribute of `rhs` back gives the attribute of `self`. */
    function Sub(rhs: Vertex): (r: Vertex)
      ensures r.position.Add(rhs.position) == position
      ensures r.color.Add(rhs.color) == color
      ensures r.uv.Add(rhs.uv) == uv
    {
      Vertex(position.Sub(rhs.position), color.Sub(rhs.color), uv.Sub(rhs.uv))
    }

    /** `self * rhs`: every attribute scaled by the same factor; scaling by
        one changes nothing and scaling by zero clears every attribute. */
    function Mul(rhs: real): (r: Vertex)
      ensures rhs == 1.0 ==> r == this
      ensures rhs == 0.0 ==> r == Vertex(Vec4(0.0, 0.0, 0.0, 0.0), Vec3(0.0, 0.0, 0.0), Vec2(0.0, 0.0))
    {
      Vertex(position.Scale(rhs), color.Scale(rhs), uv.Scale(rhs))
    }
  }

  /** `*=`: scales the position, then the colour, then the texture
      coordinate of the vertex in place; the vertex is a copyable value, so
      the updated vertex is returned. */
  method MulAssign(v: Vertex, rhs: real) returns (r: Vertex)
    ensures r == v.Mul(rhs)
  {
    r := v;
    r := r.(position := r.position.Scale(rhs));
    r := r.(color := r.color.Scale(rhs));
    r := r.(uv := r.uv.Scale(rhs));
  }

  /** Addition undoes subtraction. */
  lemma SubThenAdd(v: Vertex, w: Vertex)
    ensures v.Sub(w).Add(w) == v
  {
  }
}
