/** Small value types shared by the mesh builder, the voxel generator and the
    chunk managers. Engine vectors hold single-precision floats; here every
    coordinate is an exact real, which is faithful for the half-unit offsets,
    thirds and integer multiples the core computes. */
module Geometry {

  datatype Option<+T> = None | Some(value: T)

  /** A point or direction in world space (Unity's Vector3). */
  datatype Vec3 = Vec3(x: real, y: real, z: real)
  {
    function Plus(o: Vec3): Vec3 { Vec3(x + o.x, y + o.y, z + o.z) }
    function Minus(o: Vec3): Vec3 { Vec3(x - o.x, y - o.y, z - o.z) }
    function Scale(k: real): Vec3 { Vec3(k * x, k * y, k * z) }
  }

  /** A texture coordinate (Unity's Vector2). */
  datatype Vec2 = Vec2(u: real, v: real)

  const Zero3 := Vec3(0.0, 0.0, 0.0)

  /** Vector3.down, the sentinel the stream manager enqueues to stop a worker. */
  const Down := Vec3(0.0, -1.0, 0.0)

  /** Right-handed cross product. */
  function Cross(a: Vec3, b: Vec3): Vec3 {
    Vec3(a.y * b.z - a.z * b.y, a.z * b.x - a.x * b.z, a.x * b.y - a.y * b.x)
  }

  function IntVec(x: int, y: int, z: int): Vec3 {
    Vec3(x as real, y as real, z as real)
  }
}
