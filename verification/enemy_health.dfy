/** The enemies' minimal health component (Assets/Scripts/EnemyHealthSimple.cs). */
module EnemyHealth {
  import opened Int32
  import Mathf
  import HealthLedger

  /** Inspector defaults of both fields. */
  const DEFAULT_HEALTH: int32 := 50

  class EnemyHealthSimple {
    /** Serialized and never written by the component. */
    const maxHealth: int32
    var currentHealth: int32

    ghost predicate Valid()
      reads this
    {
      Health().Valid()
    }

    function Health(): HealthLedger.Ledger
      reads this
    {
      HealthLedger.Ledger(currentHealth, maxHealth)
    }

    /** Awake: the serialized current value is clamped into [0, max]. */
    constructor(maxHealth: int32, currentHealth: int32)
      requires maxHealth >= 0
      ensures Valid()
      ensures this.maxHealth == maxHealth
      ensures this.currentHealth == Mathf.Clamp(currentHealth, 0, maxHealth)
    {
      this.maxHealth := maxHealth;
      this.currentHealth := Mathf.Clamp(currentHealth, 0, maxHealth);
    }

    /** A component left at its inspector defaults: Awake's clamp keeps both at the default. */
    constructor Default()
      ensures Valid()
      ensures maxHealth == DEFAULT_HEALTH && currentHealth == DEFAULT_HEALTH && IsAlive()
    {
      maxHealth := DEFAULT_HEALTH;
      currentHealth := Mathf.Clamp(DEFAULT_HEALTH, 0, DEFAULT_HEALTH);
    }

    /** Alive while health is positive; on a valid ledger, exactly while it is not 0. */
    predicate IsAlive()
      reads this
      ensures IsAlive() <==> Health().Alive()
      ensures Valid() ==> (IsAlive() <==> currentHealth != 0)
    {
      currentHealth > 0
    }

    /** No effect for a non-positive amount or a dead enemy; otherwise current drops by the
        amount and stops at 0. */
    method ApplyDamage(amount: int32)
      requires Valid()
      modifies this
      ensures Valid()
      ensures Health() == HealthLedger.Damage(old(Health()), amount)
    {
      if amount <= 0 || !IsAlive() {
        return;
      }
      currentHealth := Mathf.Clamp(currentHealth - amount, 0, maxHealth);
    }
  }
}
