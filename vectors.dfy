/** Exact real-valued stand-ins for the glm vector types the generators use
    (glm::dvec2, glm::dvec3, glm::vec3) and the vector operations they apply
    to them. Rounding of double and float arithmetic is not modelled. */
module Vectors {

  /** A point of a 2D profile curve (glm::dvec2). */
  datatype Vec2 = Vec2(x: real, y: real)

  /** A 3D point or direction (glm::dvec3 / glm::vec3). */
  datatype Vec3 = Vec3(x: real, y: real, z: real)

  function Add(a: Vec3, b: Vec3): Vec3 {
    Vec3(a.x + b.x, a.y + b.y, a.z + b.z)
  }

  function Sub(a: Vec3, b: Vec3): Vec3 {
    Vec3(a.x - b.x, a.y - b.y, a.z - b.z)
  }

  /** Multiplication by a scalar, as in `p *= s * 0.5`. */
  function Scale(a: Vec3, k: real): Vec3 {
    Vec3(a.x * k, a.y * k, a.z * k)
  }

  /** Componentwise division by a scalar, as in `(a + b) / 2.` */
  function Div(a: Vec3, k: real): Vec3
    requires k != 0.0
  {
    Vec3(a.x / k, a.y / k, a.z / k)
  }

  function Dot(a: Vec3, b: Vec3): real {
    a.x * b.x + a.y * b.y + a.z * b.z
  }

  /** The cross product (glm::cross). Its result is perpendicular to both
      operands, and swapping the operands flips it. */
  function Cross(a: Vec3, b: Vec3): (c: Vec3)
    ensures Dot(c, a) == 0.0 && Dot(c, b) == 0.0
  {
    Vec3(a.y * b.z - a.z * b.y, a.z * b.x - a.x * b.z, a.x * b.y - a.y * b.x)
  }

  function Neg(a: Vec3): Vec3 {
    Vec3(-a.x, -a.y, -a.z)
  }

  /** Operand order matters: reversing the operands of Cross flips the
      result, which is why the generators' `cross(tangent_r, tangent_v)`
      fixes the orientation of every normal. */
  lemma CrossAntiCommutes(a: Vec3, b: Vec3)
    ensures Cross(b, a) == Neg(Cross(a, b))
  {
  }
}
