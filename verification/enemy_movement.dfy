/** The simpler patrolling mover (Assets/Scripts/EnemyMovement.cs), along the x axis: the
    same edges and turn rule as the enemy controller, with a target at the current height,
    so the motion is horizontal, and an unconditional facing flip. */
module EnemyMovement {
  import Mathf
  import opened Vectors
  import Patrol

  class EnemyMovement {
    const speed: real
    const turnTolerance: real
    const startX: real
    const leftX: real
    const rightX: real
    var x: real
    var y: real
    var movingRight: bool
    var scale: Vec3

    ghost predicate Valid()
      reads this
    {
      leftX <= rightX
    }

    /** Start: the patrol edges are computed from the start position and the offsets. */
    constructor(speed: real, leftOffset: real, rightOffset: real, turnTolerance: real, startX: real, y: real, scale: Vec3)
      ensures Valid() && x == startX && this.y == y && movingRight
      ensures this.startX == startX
      ensures leftX == Patrol.LeftEdge(startX, leftOffset, rightOffset)
      ensures rightX == Patrol.RightEdge(startX, leftOffset, rightOffset)
      ensures this.speed == speed && this.turnTolerance == turnTolerance && this.scale == scale
    {
      this.speed := speed;
      this.turnTolerance := turnTolerance;
      this.startX := startX;
      leftX := startX + Mathf.MinReal(leftOffset, rightOffset);
      rightX := startX + Mathf.MaxReal(leftOffset, rightOffset);
      x := startX;
      this.y := y;
      movingRight := true;
      this.scale := scale;
    }

    /** One frame of `deltaTime` seconds: the height never changes. */
    method Update(deltaTime: real)
      requires Valid()
      modifies this
      ensures Valid() && y == old(y)
      ensures Patrol.Stride(x, movingRight) ==
                Patrol.Step(old(x), old(movingRight), leftX, rightX, speed * deltaTime, turnTolerance)
      ensures movingRight != old(movingRight) ==> scale == Faced(old(scale), movingRight)
      ensures movingRight == old(movingRight) ==> scale == old(scale)
    {
      var targetX := if movingRight then rightX else leftX;
      x := Mathf.MoveTowards(x, targetX, speed * deltaTime);
      if Mathf.Abs(x - targetX) <= turnTolerance {
        x := targetX;
        movingRight := !movingRight;
        scale := scale.(x := if movingRight then Mathf.Abs(scale.x) else -Mathf.Abs(scale.x));
      }
    }
  }
}
