/** The patrolling enemy (Assets/Scripts/EnemyController.cs), along the x axis: it walks
    between two edges computed at Start, turns at each edge, faces its direction of travel
    and is kept upright. Its height stays the start height, which Update targets; motion
    along y is not part of this model. */
module EnemyController {
  import Mathf
  import opened Vectors
  import Patrol

  /** A rotation, as the quaternion of the transform. */
  datatype Quaternion = Quaternion(x: real, y: real, z: real, w: real)

  const IDENTITY: Quaternion := Quaternion(0.0, 0.0, 0.0, 1.0)

  class EnemyController {
    const speed: real
    const turnTolerance: real
    /** Whether a SpriteRenderer was found at Awake; the sprite is flipped only then. */
    const hasSprite: bool
    const startX: real
    const startY: real
    const leftX: real
    const rightX: real
    var x: real
    var movingRight: bool
    var scale: Vec3
    var rotation: Quaternion

    ghost predicate Valid()
      reads this
    {
      leftX <= rightX
    }

    /** Awake and Start: the patrol edges are computed from the start position and the
        offsets, and the enemy first heads right. */
    constructor(speed: real, leftOffset: real, rightOffset: real, turnTolerance: real, hasSprite: bool,
                startX: real, startY: real, scale: Vec3, rotation: Quaternion)
      ensures Valid() && x == startX && movingRight
      ensures this.startX == startX && this.startY == startY
      ensures leftX == Patrol.LeftEdge(startX, leftOffset, rightOffset)
      ensures rightX == Patrol.RightEdge(startX, leftOffset, rightOffset)
      ensures leftX <= startX + leftOffset && leftX <= startX + rightOffset
      ensures this.speed == speed && this.turnTolerance == turnTolerance && this.hasSprite == hasSprite
      ensures this.scale == scale && this.rotation == rotation
    {
      this.speed := speed;
      this.turnTolerance := turnTolerance;
      this.hasSprite := hasSprite;
      this.startX := startX;
      this.startY := startY;
      leftX := startX + Mathf.MinReal(leftOffset, rightOffset);
      rightX := startX + Mathf.MaxReal(leftOffset, rightOffset);
      x := startX;
      movingRight := true;
      this.scale := scale;
      this.rotation := rotation;
    }

    /** One frame of `deltaTime` seconds: step towards the current edge; near it, snap onto
        it, turn around and, when there is a sprite, face the new direction. */
    method Update(deltaTime: real)
      requires Valid()
      modifies this
      ensures Valid()
      ensures Patrol.Stride(x, movingRight) ==
                Patrol.Step(old(x), old(movingRight), leftX, rightX, speed * deltaTime, turnTolerance)
      ensures movingRight != old(movingRight) && hasSprite ==> scale == Faced(old(scale), movingRight)
      ensures movingRight == old(movingRight) || !hasSprite ==> scale == old(scale)
      ensures rotation == old(rotation)
    {
      var targetX := if movingRight then rightX else leftX;
      x := Mathf.MoveTowards(x, targetX, speed * deltaTime);
      if Mathf.Abs(x - targetX) <= turnTolerance {
        x := targetX;
        movingRight := !movingRight;
        if hasSprite {
          scale := scale.(x := if movingRight then Mathf.Abs(scale.x) else -Mathf.Abs(scale.x));
        }
      }
    }

    /** Upright again after every frame. */
    method LateUpdate()
      modifies this`rotation
      ensures rotation == IDENTITY
    {
      rotation := IDENTITY;
    }
  }
}
