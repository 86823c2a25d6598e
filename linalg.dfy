/** The small vectors the renderer takes from its linear-algebra library,
    over exact reals, with the component-wise operators it uses. */
module LinAlg {

  datatype Vec2 = Vec2(x: real, y: real) {
    function Add(o: Vec2): Vec2 { Vec2(x + o.x, y + o.y) }
    function Sub(o: Vec2): Vec2 { Vec2(x - o.x, y - o.y) }
    function Scale(s: real): Vec2 { Vec2(x * s, y * s) }
  }

  datatype Vec3 = Vec3(x: real, y: real, z: real) {
    function Add(o: Vec3): Vec3 { Vec3(x + o.x, y + o.y, z + o.z) }
    function Sub(o: Vec3): Vec3 { Vec3(x - o.x, y - o.y, z - o.z) }
    function Scale(s: real): Vec3 { Vec3(x * s, y * s, z * s) }
    /** Cross product. */
    function Cross(o: Vec3): Vec3 {
      Vec3(y * o.z - z * o.y, z * o.x - x * o.z, x * o.y - y * o.x)
    }
    function Dot(o: Vec3): real { x * o.x + y * o.y + z * o.z }
    /** The `xy` swizzle. */
    function Xy(): Vec2 { Vec2(x, y) }
  }

  datatype Vec4 = Vec4(x: real, y: real, z: real, w: real) {
    function Add(o: Vec4): Vec4 { Vec4(x + o.x, y + o.y, z + o.z, w + o.w) }
    function Sub(o: Vec4): Vec4 { Vec4(x - o.x, y - o.y, z - o.z, w - o.w) }
    function Scale(s: real): Vec4 { Vec4(x * s, y * s, z * s, w * s) }
    /** The `xyz` swizzle. */
    function Xyz(): Vec3 { Vec3(x, y, z) }
    /** The `xy` swizzle. */
    function Xy(): Vec2 { Vec2(x, y) }
  }
}
