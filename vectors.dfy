/** Unity's value types used by the core: integer and real vectors, the
    axis-aligned `Bounds` box and a 4x4 matrix given by its columns.
    Unity's single-precision floats are modelled as exact reals. */
module Vectors {

  datatype Vec2 = Vec2(x: real, y: real)

  datatype Vec3 = Vec3(x: real, y: real, z: real)

  datatype Vec4 = Vec4(x: real, y: real, z: real, w: real)

  datatype Vec3i = Vec3i(x: int, y: int, z: int)

  /** Component `k` (0 = x, 1 = y, 2 = z). */
  function Axis(v: Vec3, k: nat): real
    requires k < 3
  {
    if k == 0 then v.x else if k == 1 then v.y else v.z
  }

  /** `new Bounds(center, size)`: the box of the given centre and total size. */
  datatype Bounds = Bounds(center: Vec3, size: Vec3) {

    /** `Bounds.min`: the centre minus the extents (half the size). */
    function Min(): Vec3 {
      Vec3(center.x - size.x / 2.0, center.y - size.y / 2.0, center.z - size.z / 2.0)
    }

    /** `Bounds.max`: the centre plus the extents. */
    function Max(): Vec3 {
      Vec3(center.x + size.x / 2.0, center.y + size.y / 2.0, center.z + size.z / 2.0)
    }
  }

  /** `new Matrix4x4(column0, column1, column2, column3)`. */
  datatype Matrix4x4 = Matrix4x4(c0: Vec4, c1: Vec4, c2: Vec4, c3: Vec4)

  function Column(m: Matrix4x4, col: nat): Vec4
    requires col < 4
  {
    if col == 0 then m.c0 else if col == 1 then m.c1 else if col == 2 then m.c2 else m.c3
  }

  /** The entry in row `row` and column `col`, as `m[row, col]` reads it. */
  function Entry(m: Matrix4x4, row: nat, col: nat): real
    requires row < 4 && col < 4
  {
    var c := Column(m, col);
    if row == 0 then c.x else if row == 1 then c.y else if row == 2 then c.z else c.w
  }
}
