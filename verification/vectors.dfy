/** Engine vector values (Vector2 / Vector3) as plain records over exact reals. */
module Vectors {
  import Mathf

  datatype Vec2 = Vec2(x: real, y: real)
  datatype Vec3 = Vec3(x: real, y: real, z: real)

  /** A scale turned to face right or left: the x component keeps its magnitude and takes the
      sign of the facing (positive for right), the others are unchanged. */
  function Faced(s: Vec3, right: bool): (r: Vec3)
    ensures r.y == s.y && r.z == s.z
    ensures Mathf.Abs(r.x) == Mathf.Abs(s.x)
    ensures right ==> r.x >= 0.0
    ensures !right ==> r.x <= 0.0
  {
    s.(x := if right then Mathf.Abs(s.x) else -Mathf.Abs(s.x))
  }
}
