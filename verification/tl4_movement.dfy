/** The speed multiplier of the TL_4 player's movement controller
    (Assets/Scripts/TL_4_Player/PlayerMovementController.cs). */
module Tl4Movement {
  import Mathf

  class PlayerMovementController {
    const moveSpeed: real
    var speedMultiplier: real
    /** The component's `enabled` flag, cleared by the player controller on a win. */
    var enabled: bool

    /** The multiplier is never negative. */
    ghost predicate Valid()
      reads this
    {
      speedMultiplier >= 0.0
    }

    /** The multiplier starts at 1. */
    constructor(moveSpeed: real)
      ensures Valid() && this.moveSpeed == moveSpeed && speedMultiplier == 1.0 && enabled
    {
      this.moveSpeed := moveSpeed;
      speedMultiplier := 1.0;
      enabled := true;
    }

    /** The move speed scaled by the multiplier: never negative for a non-negative base speed,
        the base speed itself at multiplier 1 and 0 at multiplier 0. */
    function GetEffectiveMoveSpeed(): (r: real)
      reads this
      ensures Valid() && moveSpeed >= 0.0 ==> r >= 0.0
      ensures speedMultiplier == 1.0 ==> r == moveSpeed
      ensures speedMultiplier == 0.0 ==> r == 0.0
      ensures speedMultiplier >= 1.0 && moveSpeed >= 0.0 ==> r >= moveSpeed
    {
      moveSpeed * speedMultiplier
    }

    /** The multiplier the power-up scales: never negative, and the factor that turns the
        base speed into the effective speed. */
    function CurrentSpeedMultiplier(): (r: real)
      reads this
      ensures Valid() ==> r >= 0.0
      ensures moveSpeed * r == GetEffectiveMoveSpeed()
    {
      speedMultiplier
    }

    /** Stores the multiplier, negative values raised to 0; only the multiplier changes. */
    method SetSpeedMultiplier(multiplier: real)
      modifies this`speedMultiplier
      ensures Valid()
      ensures speedMultiplier == Mathf.MaxReal(0.0, multiplier)
      ensures multiplier >= 0.0 ==> speedMultiplier == multiplier
    {
      speedMultiplier := Mathf.MaxReal(0.0, multiplier);
    }

    /** Back to the default multiplier 1; only the multiplier changes. */
    method ResetSpeedMultiplier()
      modifies this`speedMultiplier
      ensures Valid() && speedMultiplier == 1.0
    {
      speedMultiplier := 1.0;
    }
  }
}
