/** The few engine math helpers the gameplay code relies on (Mathf and Vector2.MoveTowards),
    over unbounded integers and exact reals. */
module Mathf {
  /** Mathf.Clamp(int, int, int): tests the lower bound first, then the upper one. */
  function Clamp(value: int, min: int, max: int): (r: int)
    ensures min <= max ==> min <= r <= max
    ensures min <= value <= max ==> r == value
    ensures value < min ==> r == min
    ensures min <= value && max < value ==> r == max
  {
    if value < min then min else if value > max then max else value
  }

  function Min(a: int, b: int): int { if a <= b then a else b }

  function MinReal(a: real, b: real): real { if a <= b then a else b }

  function MaxReal(a: real, b: real): real { if a >= b then a else b }

  function Abs(x: real): real { if x >= 0.0 then x else -x }

  /** Mathf.Sign: 1 for zero and positive values, -1 for negative ones. */
  function Sign(x: real): real { if x >= 0.0 then 1.0 else -1.0 }

  /** Vector2.MoveTowards restricted to one axis: reach the target when it is within
      `maxDelta`, otherwise move `maxDelta` towards it (away from it when `maxDelta` < 0). */
  function MoveTowards(current: real, target: real, maxDelta: real): (r: real)
    ensures maxDelta >= 0.0 && current <= target ==> current <= r <= target
    ensures maxDelta >= 0.0 && target <= current ==> target <= r <= current
    ensures maxDelta >= 0.0 ==> Abs(r - current) <= maxDelta
    ensures maxDelta >= 0.0 && Abs(target - current) <= maxDelta ==> r == target
  {
    if current == target || (maxDelta >= 0.0 && Abs(target - current) <= maxDelta) then target
    else if target > current then current + maxDelta
    else current - maxDelta
  }

  /** Mathf.RoundToInt: round to the nearest integer, ties to the even one. */
  function RoundToInt(x: real): (r: int)
    ensures -0.5 <= r as real - x <= 0.5
    ensures x - x.Floor as real == 0.5 ==> r % 2 == 0
  {
    var f := x.Floor;
    var frac := x - f as real;
    if frac < 0.5 then f
    else if frac > 0.5 then f + 1
    else if f % 2 == 0 then f
    else f + 1
  }
}
