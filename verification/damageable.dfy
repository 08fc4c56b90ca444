/** The IDamageable capability (Assets/Scripts/TL_4_Player/IDamageable.cs): current and
    maximum health, liveness and damage application. Its implementations form a closed set,
    so the capability is a tagged variant over the two components that implement it. */
module Damageable {
  import opened Int32
  import HealthLedger
  import EnemyHealth
  import Tl4PlayerHealth

  /** What an attack changes on a target: its health ledger and the number of times its
      death handler ran. */
  datatype Status = Status(health: HealthLedger.Ledger, deaths: nat)

  /** One application of the damage to a target's status; `signals` tells whether the target
      runs a death handler when its health reaches 0 (the player component does). */
  function Strike(s: Status, amount: int, signals: bool): (r: Status)
    ensures r.health == HealthLedger.Damage(s.health, amount)
    ensures r.deaths == s.deaths + 1 <==> signals && s.health.Alive() && !r.health.Alive()
    ensures r.deaths == s.deaths || r.deaths == s.deaths + 1
  {
    var h := HealthLedger.Damage(s.health, amount);
    Status(h, s.deaths + if signals && s.health.Alive() && !h.Alive() then 1 else 0)
  }

  /** `k` successive strikes with the same amount. */
  function RepeatStrike(s: Status, amount: int, signals: bool, k: nat): Status
  {
    if k == 0 then s else Strike(RepeatStrike(s, amount, signals, k - 1), amount, signals)
  }

  /** Repeated strikes change the health exactly as repeated damage does. */
  lemma {:induction false} RepeatStrikeHealth(s: Status, amount: int, signals: bool, k: nat)
    ensures RepeatStrike(s, amount, signals, k).health == HealthLedger.RepeatDamage(s.health, amount, k)
  {
    if k > 0 {
      RepeatStrikeHealth(s, amount, signals, k - 1);
    }
  }

  /** However many strikes land, the death handler runs at most once: exactly when the target
      signals deaths, was alive before the first strike and is dead after the last. */
  lemma {:induction false} RepeatStrikeDeaths(s: Status, amount: int, signals: bool, k: nat)
    ensures RepeatStrike(s, amount, signals, k).deaths ==
              s.deaths + if signals && s.health.Alive() && !HealthLedger.RepeatDamage(s.health, amount, k).Alive() then 1 else 0
  {
    if k > 0 {
      RepeatStrikeDeaths(s, amount, signals, k - 1);
      RepeatStrikeHealth(s, amount, signals, k - 1);
    }
  }

  datatype Damageable =
    | EnemyTarget(enemy: EnemyHealth.EnemyHealthSimple)
    | PlayerTarget(player: Tl4PlayerHealth.PlayerHealth)
  {
    /** The component object behind the capability. */
    function Ref(): object
    {
      match this
      case EnemyTarget(e) => e
      case PlayerTarget(p) => p
    }

    ghost predicate Valid()
      reads Ref()
      ensures Valid() ==> Health().Valid()
    {
      match this
      case EnemyTarget(e) => e.Valid()
      case PlayerTarget(p) => p.Valid()
    }

    function Health(): HealthLedger.Ledger
      reads Ref()
    {
      match this
      case EnemyTarget(e) => e.Health()
      case PlayerTarget(p) => p.Health()
    }

    /** IDamageable.CurrentHealth: the implementing component's value, within [0, max]. */
    function CurrentHealth(): (r: int)
      reads Ref()
      ensures r == match this case EnemyTarget(e) => e.currentHealth as int case PlayerTarget(p) => p.currentHealth as int
      ensures Valid() ==> 0 <= r <= Health().max
    {
      Health().current
    }

    /** IDamageable.MaxHealth: the implementing component's maximum, never negative. */
    function MaxHealth(): (r: int)
      reads Ref()
      ensures r == match this case EnemyTarget(e) => e.maxHealth as int case PlayerTarget(p) => p.maxHealth as int
      ensures Valid() ==> 0 <= r && Health().current <= r
    {
      Health().max
    }

    /** IDamageable.IsAlive: the implementing component's own test. */
    predicate IsAlive()
      reads Ref()
      ensures IsAlive() <==> match this case EnemyTarget(e) => e.IsAlive() case PlayerTarget(p) => p.IsAlive()
      ensures Valid() ==> (IsAlive() <==> Health().current != 0)
    {
      Health().Alive()
    }

    /** Death handler runs of a player component; enemies have none. */
    function DeathSignals(): nat
      reads Ref()
    {
      match this
      case EnemyTarget(_) => 0
      case PlayerTarget(p) => p.deathSignals
    }

    function State(): Status
      reads Ref()
    {
      Status(Health(), DeathSignals())
    }
  }

  /** Two capabilities share a component exactly when they are the same value. */
  lemma SameRefSameTarget(t: Damageable, u: Damageable)
    ensures t.Ref() == u.Ref() <==> t == u
  {
  }

  /** IDamageable.ApplyDamage, dispatched to the implementing component. */
  method ApplyDamage(t: Damageable, amount: int32)
    requires t.Valid()
    modifies t.Ref()
    ensures t.Valid()
    ensures t.State() == Strike(old(t.State()), amount, t.PlayerTarget?)
  {
    match t
    case EnemyTarget(e) => e.ApplyDamage(amount);
    case PlayerTarget(p) => p.ApplyDamage(amount);
  }
}
