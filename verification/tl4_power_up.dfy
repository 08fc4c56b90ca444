/** The timed power-up of the TL_4 player (Assets/Scripts/TL_4_Player/PlayerPowerUp.cs): an
    inactive/active state machine that raises the maximum health by a fixed bonus and scales
    the speed multiplier while active. The coroutine timer is a pending flag with its
    duration, and its expiry is an explicit call. */
module Tl4PowerUp {
  import opened Int32
  import opened Optional
  import Mathf
  import HealthLedger
  import Tl4PlayerHealth
  import Tl4Movement

  /** The two stat profiles, PowerStatsBase and its override PowerStatsEnhanced. */
  datatype PowerProfile = BaseProfile | EnhancedProfile
  {
    function BonusHealth(): int32
    {
      if BaseProfile? then 100 else 50
    }

    function SpeedMultiplier(): real
    {
      if BaseProfile? then 5.0 else 3.0
    }

    function Duration(): real
    {
      if BaseProfile? then 60.0 else 10.0
    }
  }

  /** What the power-up reads and writes: its own flags, the player's health ledger and the
      movement speed multiplier. */
  datatype PowerState = PowerState(active: bool, timerPending: bool, health: HealthLedger.Ledger, multiplier: real)
  {
    ghost predicate Valid()
    {
      health.Valid() && multiplier >= 0.0 && timerPending == active
    }
  }

  /** ActivatePower on values: no effect while active; otherwise the maximum rises by the
      profile's bonus (in 32-bit arithmetic) keeping the current value, the multiplier is
      scaled by the profile's factor and the timer is started. */
  function Activate(s: PowerState, p: PowerProfile): (r: PowerState)
    requires s.Valid()
    ensures r.Valid()
    ensures s.active ==> r == s
    ensures !s.active ==>
              r.active && r.timerPending &&
              r.health == HealthLedger.ResizePreserve(s.health, Wrap(s.health.max + p.BonusHealth())) &&
              r.multiplier == s.multiplier * p.SpeedMultiplier()
  {
    if s.active then s
    else
      PowerState(true, true,
                 HealthLedger.ResizePreserve(s.health, Wrap(s.health.max + p.BonusHealth())),
                 Mathf.MaxReal(0.0, s.multiplier * p.SpeedMultiplier()))
  }

  /** DeactivatePower on values: no effect while inactive; otherwise the maximum drops by the
      same bonus (ignored when that is not positive), the multiplier goes back to 1 and the
      timer is cancelled. */
  function Deactivate(s: PowerState, p: PowerProfile): (r: PowerState)
    requires s.Valid()
    ensures r.Valid()
    ensures !s.active ==> r == s
    ensures s.active ==>
              !r.active && !r.timerPending && r.multiplier == 1.0 &&
              r.health == HealthLedger.ResizePreserve(s.health, s.health.max - p.BonusHealth())
  {
    if !s.active then s
    else PowerState(false, false, HealthLedger.ResizePreserve(s.health, s.health.max - p.BonusHealth()), 1.0)
  }

  /** The timer coroutine running out: it deactivates the power when it is still pending. */
  function Expire(s: PowerState, p: PowerProfile): (r: PowerState)
    requires s.Valid()
    ensures r.Valid()
    ensures s.timerPending ==> r == Deactivate(s, p)
    ensures !s.timerPending ==> r == s
  {
    if s.timerPending then Deactivate(s, p) else s
  }

  /** A second activation does not stack: it leaves the state of the first one. */
  lemma NoStacking(s: PowerState, p: PowerProfile)
    requires s.Valid()
    ensures Activate(Activate(s, p), p) == Activate(s, p)
  {
  }

  /** Expiry after a manual deactivation changes nothing. */
  lemma ExpiryAfterDeactivation(s: PowerState, p: PowerProfile)
    requires s.Valid()
    ensures Expire(Deactivate(s, p), p) == Deactivate(s, p)
  {
  }

  /** An activate/deactivate round trip restores the health ledger when the maximum is
      positive and leaves room for the bonus, and always ends at multiplier 1. From a zero
      maximum it does not: the subtraction gives 0, which the resize ignores, so the bonus
      stays. */
  lemma RoundTrip(s: PowerState, p: PowerProfile)
    requires s.Valid() && !s.active
    ensures Deactivate(Activate(s, p), p).multiplier == 1.0
    ensures !Deactivate(Activate(s, p), p).active
    ensures 0 < s.health.max && s.health.max + p.BonusHealth() <= MAX ==>
              Deactivate(Activate(s, p), p).health == s.health
    ensures s.health.max == 0 ==> Deactivate(Activate(s, p), p).health.max == p.BonusHealth()
  {
    var a := Activate(s, p);
    if s.health.max + p.BonusHealth() <= MAX {
      assert a.health.max == s.health.max + p.BonusHealth();
      assert a.health.current == s.health.current;
    }
  }

  class PlayerPowerUp {
    /** The PlayerHealth and PlayerMovementController on the same object, found at Awake. */
    const health: Tl4PlayerHealth.PlayerHealth
    const movement: Tl4Movement.PlayerMovementController
    /** The profile chosen at Start. */
    const powerStats: PowerProfile
    var isActive: bool
    /** Whether a timer coroutine is running, and the duration it was started with. */
    var timerPending: bool
    var timerDuration: real

    ghost predicate Valid()
      reads this, health, movement
    {
      health.Valid() && movement.Valid() && timerPending == isActive
    }

    function State(): PowerState
      reads this, health, movement
    {
      PowerState(isActive, timerPending, health.Health(), movement.speedMultiplier)
    }

    /** Awake and Start: the components are found and the enhanced profile is selected. */
    constructor(health: Tl4PlayerHealth.PlayerHealth, movement: Tl4Movement.PlayerMovementController)
      requires health.Valid() && movement.Valid()
      ensures Valid() && !isActive && this.health == health && this.movement == movement
      ensures powerStats == EnhancedProfile
      ensures powerStats.BonusHealth() == 50 && powerStats.SpeedMultiplier() == 3.0 && powerStats.Duration() == 10.0
    {
      this.health := health;
      this.movement := movement;
      powerStats := EnhancedProfile;
      isActive := false;
      timerPending := false;
      timerDuration := 0.0;
    }

    /** ActivatePower(overrideDurationSeconds): the timer runs for the override when one is
        given, for the profile's duration otherwise. */
    method ActivatePower(overrideDurationSeconds: Option<real>)
      requires Valid()
      modifies this, health, movement`speedMultiplier
      ensures Valid()
      ensures State() == Activate(old(State()), powerStats)
      ensures health.deathSignals == old(health.deathSignals)
      ensures !old(isActive) ==> timerDuration == overrideDurationSeconds.GetOr(powerStats.Duration())
      ensures old(isActive) ==> timerDuration == old(timerDuration)
    {
      if isActive {
        return;
      }
      isActive := true;
      var bonusHealth := powerStats.BonusHealth();
      var speedMult := powerStats.SpeedMultiplier();
      var duration := overrideDurationSeconds.GetOr(powerStats.Duration());
      health.SetMaxHealthPreserveCurrent(Wrap(health.maxHealth + bonusHealth));
      movement.SetSpeedMultiplier(movement.CurrentSpeedMultiplier() * speedMult);
      timerPending := true;
      timerDuration := duration;
    }

    method DeactivatePower()
      requires Valid()
      modifies this, health, movement`speedMultiplier
      ensures Valid()
      ensures State() == Deactivate(old(State()), powerStats)
      ensures health.deathSignals == old(health.deathSignals) && timerDuration == old(timerDuration)
    {
      if !isActive {
        return;
      }
      isActive := false;
      var bonusHealth := powerStats.BonusHealth();
      health.SetMaxHealthPreserveCurrent(health.maxHealth - bonusHealth);
      movement.ResetSpeedMultiplier();
      timerPending := false;
    }

    /** The end of the Timer coroutine: it deactivates the power if it was not cancelled. */
    method TimerExpired()
      requires Valid()
      modifies this, health, movement`speedMultiplier
      ensures Valid()
      ensures State() == Expire(old(State()), powerStats)
      ensures health.deathSignals == old(health.deathSignals)
    {
      if timerPending {
        DeactivatePower();
      }
    }
  }
}
