/** The player's health component of the TL_4 player (Assets/Scripts/TL_4_Player/PlayerHealth.cs):
    a bounded counter with heal, damage, resize and a death handler. */
module Tl4PlayerHealth {
  import opened Int32
  import Mathf
  import HealthLedger

  class PlayerHealth {
    var maxHealth: int32
    var currentHealth: int32
    /** How many times the death handler has run (its onDeath event; the scene reload that
        follows it is not modelled). */
    var deathSignals: nat

    /** 0 <= current <= max, and the death handler has run at most once, never while alive. */
    ghost predicate Valid()
      reads this
    {
      Health().Valid() && deathSignals <= 1 && (currentHealth > 0 ==> deathSignals == 0)
    }

    function Health(): HealthLedger.Ledger
      reads this
    {
      HealthLedger.Ledger(currentHealth, maxHealth)
    }

    /** Awake: the serialized current value is clamped into [0, max]. */
    constructor(maxHealth: int32, currentHealth: int32)
      requires maxHealth >= 0
      ensures Valid() && deathSignals == 0
      ensures this.maxHealth == maxHealth
      ensures this.currentHealth == Mathf.Clamp(currentHealth, 0, maxHealth)
    {
      this.maxHealth := maxHealth;
      this.currentHealth := Mathf.Clamp(currentHealth, 0, maxHealth);
      deathSignals := 0;
    }

    /** Alive while health is positive; on a valid ledger, exactly while it is not 0. */
    predicate IsAlive()
      reads this
      ensures IsAlive() <==> Health().Alive()
      ensures Valid() ==> (IsAlive() <==> currentHealth != 0)
    {
      currentHealth > 0
    }

    /** Heals and returns the amount actually healed: zero for a non-positive amount, a dead
        player or full health. */
    method Heal(amount: int32) returns (healed: int32)
      requires Valid()
      modifies this
      ensures Valid() && deathSignals == old(deathSignals)
      ensures Health() == HealthLedger.Heal(old(Health()), amount)
      ensures healed == currentHealth - old(currentHealth)
    {
      if amount <= 0 || !IsAlive() {
        return 0;
      }
      var previous := currentHealth;
      currentHealth := Mathf.Clamp(Wrap(currentHealth + amount), 0, maxHealth);
      return currentHealth - previous;
    }

    /** Deals damage and returns the damage actually taken; runs the death handler on the call
        that takes the player from alive to dead. */
    method TakeDamage(amount: int32) returns (taken: int32)
      requires Valid()
      modifies this
      ensures Valid()
      ensures Health() == HealthLedger.Damage(old(Health()), amount)
      ensures taken == old(currentHealth) - currentHealth
      ensures deathSignals == old(deathSignals) + if old(IsAlive()) && !IsAlive() then 1 else 0
    {
      if amount <= 0 || !IsAlive() {
        return 0;
      }
      var previous := currentHealth;
      currentHealth := Mathf.Clamp(currentHealth - amount, 0, maxHealth);
      if !IsAlive() {
        HandleDeath();
      }
      return previous - currentHealth;
    }

    /** The IDamageable entry point: TakeDamage with its result discarded. */
    method ApplyDamage(amount: int32)
      requires Valid()
      modifies this
      ensures Valid()
      ensures Health() == HealthLedger.Damage(old(Health()), amount)
      ensures deathSignals == old(deathSignals) + if old(IsAlive()) && !IsAlive() then 1 else 0
    {
      var _ := TakeDamage(amount);
    }

    /** Sets a new maximum keeping the absolute current value (cut down to the new maximum);
        a non-positive maximum is ignored. */
    method SetMaxHealthPreserveCurrent(newMax: int32)
      requires Valid()
      modifies this
      ensures Valid() && deathSignals == old(deathSignals)
      ensures Health() == HealthLedger.ResizePreserve(old(Health()), newMax)
    {
      if newMax <= 0 {
        return;
      }
      var previous := currentHealth;
      maxHealth := newMax;
      currentHealth := Mathf.Clamp(previous, 0, maxHealth);
    }

    method HandleDeath()
      requires deathSignals == 0
      modifies this`deathSignals
      ensures deathSignals == 1
    {
      deathSignals := deathSignals + 1;
    }
  }
}
