/** The enemy's bullet (Assets/Scripts/EnemyBullet.cs): a direction of exactly +1 or -1 and a
    sprite scale whose x sign matches it. */
module EnemyBullet {
  import Mathf
  import opened Vectors

  class EnemyBullet {
    const speed: real
    const lifeTime: real
    /** +1 travels right, -1 left. */
    var direction: real
    var scale: Vec3

    /** Instantiated from the prefab: the direction starts at +1. */
    constructor(speed: real, lifeTime: real, scale: Vec3)
      ensures direction == 1.0
      ensures this.speed == speed && this.lifeTime == lifeTime && this.scale == scale
    {
      this.speed := speed;
      this.lifeTime := lifeTime;
      direction := 1.0;
      this.scale := scale;
    }

    /** Normalises `dir` to its sign (zero counts as right) and faces the sprite that way,
        keeping the size of the scale and its y and z components. */
    method SetDirection(dir: real)
      modifies this`direction, this`scale
      ensures direction == 1.0 || direction == -1.0
      ensures direction == 1.0 <==> dir >= 0.0
      ensures scale == Faced(old(scale), dir >= 0.0)
      ensures scale.y == old(scale.y) && scale.z == old(scale.z) && Mathf.Abs(scale.x) == Mathf.Abs(old(scale.x))
      ensures scale.x != 0.0 ==> (scale.x > 0.0 <==> direction == 1.0)
    {
      direction := Mathf.Sign(dir);
      var s := scale;
      s := s.(x := if direction >= 0.0 then Mathf.Abs(s.x) else -Mathf.Abs(s.x));
      scale := s;
    }
  }
}
