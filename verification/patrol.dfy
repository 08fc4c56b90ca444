/** The patrol rule shared by the two enemy movers (Assets/Scripts/EnemyController.cs and
    Assets/Scripts/EnemyMovement.cs), along the x axis: bounds computed once from two offsets,
    a non-overshooting step towards the current edge, and a snap and turn near it. */
module Patrol {
  import Mathf

  /** The patrol edges: the start plus the smaller and the larger offset, so they are ordered
      even when the offsets are swapped. */
  function LeftEdge(startX: real, leftOffset: real, rightOffset: real): (r: real)
    ensures r <= RightEdge(startX, leftOffset, rightOffset)
    ensures r == startX + leftOffset || r == startX + rightOffset
  {
    startX + Mathf.MinReal(leftOffset, rightOffset)
  }

  function RightEdge(startX: real, leftOffset: real, rightOffset: real): (r: real)
    ensures r >= startX + leftOffset && r >= startX + rightOffset
    ensures r == startX + leftOffset || r == startX + rightOffset
  {
    startX + Mathf.MaxReal(leftOffset, rightOffset)
  }

  /** The edge the enemy heads for. */
  function TargetX(movingRight: bool, leftX: real, rightX: real): real
  {
    if movingRight then rightX else leftX
  }

  /** Position and heading after one Update. */
  datatype Stride = Stride(x: real, movingRight: bool)

  /** One Update along x: a MoveTowards step of `maxDelta` towards the target edge; within
      `tolerance` of it, snap onto it and turn around. */
  function Step(x: real, movingRight: bool, leftX: real, rightX: real, maxDelta: real, tolerance: real): (r: Stride)
    // a turn happens only on the target edge
    ensures r.movingRight != movingRight ==> r.x == TargetX(movingRight, leftX, rightX)
    // a step that reaches the target edge ends on it, turned around
    ensures maxDelta >= 0.0 && tolerance >= 0.0 && Mathf.Abs(TargetX(movingRight, leftX, rightX) - x) <= maxDelta ==>
              r == Stride(TargetX(movingRight, leftX, rightX), !movingRight)
    // without a turn the enemy moves by at most the step
    ensures r.movingRight == movingRight && maxDelta >= 0.0 ==> Mathf.Abs(r.x - x) <= maxDelta
    // and that step takes it exactly `maxDelta` closer to the edge it heads for
    ensures maxDelta >= 0.0 && tolerance >= 0.0 && r.movingRight == movingRight ==>
              Mathf.Abs(TargetX(movingRight, leftX, rightX) - r.x) == Mathf.Abs(TargetX(movingRight, leftX, rightX) - x) - maxDelta
    ensures maxDelta >= 0.0 && leftX <= x <= rightX ==> leftX <= r.x <= rightX
  {
    var t := TargetX(movingRight, leftX, rightX);
    var moved := Mathf.MoveTowards(x, t, maxDelta);
    if Mathf.Abs(moved - t) <= tolerance then Stride(t, !movingRight) else Stride(moved, movingRight)
  }

  /** The position and heading after a run of Updates with step sizes `deltas`. */
  function Walk(s: Stride, leftX: real, rightX: real, deltas: seq<real>, tolerance: real): Stride
    decreases |deltas|
  {
    if deltas == [] then s
    else Walk(Step(s.x, s.movingRight, leftX, rightX, deltas[0], tolerance), leftX, rightX, deltas[1..], tolerance)
  }

  /** An enemy that starts within its edges stays within them for any run of non-negative
      steps. */
  lemma {:induction false} WalkStaysInBounds(s: Stride, leftX: real, rightX: real, deltas: seq<real>, tolerance: real)
    requires leftX <= s.x <= rightX
    requires forall i | 0 <= i < |deltas| :: deltas[i] >= 0.0
    ensures leftX <= Walk(s, leftX, rightX, deltas, tolerance).x <= rightX
    decreases |deltas|
  {
    if deltas != [] {
      var next := Step(s.x, s.movingRight, leftX, rightX, deltas[0], tolerance);
      assert forall i | 0 <= i < |deltas[1..]| :: deltas[1..][i] == deltas[i + 1];
      WalkStaysInBounds(next, leftX, rightX, deltas[1..], tolerance);
    }
  }
}
