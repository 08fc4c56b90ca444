/** The player's health component of the TL_1 player (Assets/Scripts/Player/PlayerHealth.cs):
    a bounded counter with heal, damage, a proportional or refilling resize and a
    health-changed notification. */
module Tl1PlayerHealth {
  import opened Int32
  import Mathf
  import HealthLedger

  /** The inspector defaults that Reset restores. */
  const DEFAULT_HEALTH: int32 := 100

  /** The current value after a resize to `newMax`: the old fraction current / max of the new
      maximum, rounded to the nearest integer, when `keepCurrentPercent`; the new maximum
      itself otherwise. A zero old maximum makes the fraction 0 / 0, which is not a number;
      its rounding is clamped to 0. */
  function Rescaled(current: int, max: int, newMax: int, keepCurrentPercent: bool): (r: int)
    requires 0 <= current <= max && newMax > 0
    ensures 0 <= r <= newMax
    ensures !keepCurrentPercent ==> r == newMax
    ensures keepCurrentPercent && max > 0 ==>
              -0.5 <= r as real - (newMax * current) as real / max as real <= 0.5
    ensures keepCurrentPercent && current == max && max > 0 ==> r == newMax
    ensures keepCurrentPercent && current == 0 ==> r == 0
  {
    if !keepCurrentPercent then newMax
    else if max == 0 then 0
    else
      var exact := (newMax * current) as real / max as real;
      FractionBounds(newMax, current, max);
      Mathf.Clamp(Mathf.RoundToInt(exact), 0, newMax)
  }

  /** newMax * current / max lies in [0, newMax], and is at an end of it when current is. */
  lemma FractionBounds(newMax: int, current: int, max: int)
    requires 0 <= current <= max && max > 0 && newMax > 0
    ensures 0.0 <= (newMax * current) as real / max as real <= newMax as real
    ensures current == max ==> (newMax * current) as real / max as real == newMax as real
    ensures current == 0 ==> (newMax * current) as real / max as real == 0.0
  {
    assert newMax * current <= newMax * max;
    assert (newMax * max) as real / max as real == newMax as real;
  }

  class PlayerHealth {
    var maxHealth: int32
    var currentHealth: int32
    /** The (current, max) payloads of the OnHealthChanged event, oldest first. */
    var notifications: seq<(int, int)>

    ghost predicate Valid()
      reads this
    {
      Health().Valid()
    }

    function Health(): HealthLedger.Ledger
      reads this
    {
      HealthLedger.Ledger(currentHealth, maxHealth)
    }

    /** Awake: the serialized current value is clamped into [0, max]. */
    constructor(maxHealth: int32, currentHealth: int32)
      requires maxHealth >= 0
      ensures Valid() && notifications == []
      ensures this.maxHealth == maxHealth
      ensures this.currentHealth == Mathf.Clamp(currentHealth, 0, maxHealth)
    {
      this.maxHealth := maxHealth;
      this.currentHealth := Mathf.Clamp(currentHealth, 0, maxHealth);
      notifications := [];
    }

    /** Reset: back to the inspector defaults, without a notification. */
    method Reset()
      modifies this
      ensures Valid() && maxHealth == DEFAULT_HEALTH && currentHealth == DEFAULT_HEALTH
      ensures notifications == old(notifications)
    {
      maxHealth := DEFAULT_HEALTH;
      currentHealth := maxHealth;
    }

    predicate IsDead()
      reads this
      ensures Valid() ==> (IsDead() <==> currentHealth == 0)
    {
      currentHealth <= 0
    }

    /** Heals and returns the amount actually healed; notifies only when it is positive. */
    method Heal(amount: int32) returns (healed: int32)
      requires Valid()
      modifies this
      ensures Valid()
      ensures Health() == HealthLedger.Heal(old(Health()), amount)
      ensures healed == currentHealth - old(currentHealth)
      ensures notifications == old(notifications) + if healed > 0 then [(currentHealth as int, maxHealth as int)] else []
    {
      if amount <= 0 || IsDead() {
        return 0;
      }
      var prev := currentHealth;
      currentHealth := Mathf.Clamp(Wrap(currentHealth + amount), 0, maxHealth);
      healed := currentHealth - prev;
      if healed > 0 {
        notifications := notifications + [(currentHealth as int, maxHealth as int)];
      }
    }

    /** Deals damage and returns the damage actually taken; notifies only when it is positive. */
    method TakeDamage(amount: int32) returns (damage: int32)
      requires Valid()
      modifies this
      ensures Valid()
      ensures Health() == HealthLedger.Damage(old(Health()), amount)
      ensures damage == old(currentHealth) - currentHealth
      ensures notifications == old(notifications) + if damage > 0 then [(currentHealth as int, maxHealth as int)] else []
    {
      if amount <= 0 || IsDead() {
        return 0;
      }
      var prev := currentHealth;
      currentHealth := Mathf.Clamp(currentHealth - amount, 0, maxHealth);
      damage := prev - currentHealth;
      if damage > 0 {
        notifications := notifications + [(currentHealth as int, maxHealth as int)];
      }
    }

    /** Changes the maximum, ignoring a non-positive one; the current value keeps its fraction
        of the maximum or is refilled, and a notification always follows. */
    method SetMaxHealth(newMax: int32, keepCurrentPercent: bool)
      requires Valid()
      modifies this
      ensures Valid()
      ensures newMax <= 0 ==> Health() == old(Health()) && notifications == old(notifications)
      ensures newMax > 0 ==>
                maxHealth == newMax &&
                currentHealth == Rescaled(old(currentHealth), old(maxHealth), newMax, keepCurrentPercent) &&
                notifications == old(notifications) + [(currentHealth as int, maxHealth as int)]
    {
      if newMax <= 0 {
        return;
      }
      var current := Rescaled(currentHealth, maxHealth, newMax, keepCurrentPercent);
      maxHealth := newMax;
      currentHealth := current;
      notifications := notifications + [(currentHealth as int, maxHealth as int)];
    }

    /** SetMaxHealth(newMax) with the default argument: the current value keeps its fraction. */
    method SetMaxHealthKeepingPercent(newMax: int32)
      requires Valid()
      modifies this
      ensures Valid()
      ensures newMax <= 0 ==> Health() == old(Health()) && notifications == old(notifications)
      ensures newMax > 0 ==>
                maxHealth == newMax &&
                currentHealth == Rescaled(old(currentHealth), old(maxHealth), newMax, true) &&
                notifications == old(notifications) + [(currentHealth as int, maxHealth as int)]
    {
      SetMaxHealth(newMax, true);
    }
  }
}
