/** Three-component vectors. Translations, scales, pivots and colours are
    `Vec3` over `real`; rotations are whole degrees per axis, `Angles`. */
module Vectors {

  datatype Vec3 = Vec3(x: real, y: real, z: real)

  datatype Angles = Angles(x: int, y: int, z: int)

  const Zero: Vec3 := Vec3(0.0, 0.0, 0.0)
  const One: Vec3 := Vec3(1.0, 1.0, 1.0)
  const NoRotation: Angles := Angles(0, 0, 0)

  function Add(a: Vec3, b: Vec3): Vec3 {
    Vec3(a.x + b.x, a.y + b.y, a.z + b.z)
  }

  function Neg(a: Vec3): Vec3 {
    Vec3(-a.x, -a.y, -a.z)
  }

  /** Component-wise product. */
  function Mul(a: Vec3, b: Vec3): Vec3 {
    Vec3(a.x * b.x, a.y * b.y, a.z * b.z)
  }

  function AddAngles(a: Angles, b: Angles): Angles {
    Angles(a.x + b.x, a.y + b.y, a.z + b.z)
  }
}
