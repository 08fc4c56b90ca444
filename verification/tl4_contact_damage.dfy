/** Contact damage of the TL_4 player (Assets/Scripts/TL_4_Player/PlayerContactDamage.cs):
    touching an enemy deals a fixed damage at most once per cooldown window. Collision and
    trigger callbacks share one gate, so both are a contact here; the engine clock is the
    `now` parameter. */
module Tl4ContactDamage {
  import opened Int32
  import HealthLedger
  import Tl4PlayerHealth

  /** A contact at `now` deals damage when the cooldown window has run out and the other
      collider belongs to an enemy; the cooldown is tested first. */
  predicate Fires(nextDamageTime: real, now: real, touchingEnemy: bool)
  {
    now >= nextDamageTime && touchingEnemy
  }

  /** The gate time after a contact: the next window starts `cooldown` after a damaging
      contact, and is unchanged otherwise. */
  function NextDamageTime(nextDamageTime: real, now: real, touchingEnemy: bool, cooldown: real): (r: real)
    ensures Fires(nextDamageTime, now, touchingEnemy) ==> r == now + cooldown
    ensures !Fires(nextDamageTime, now, touchingEnemy) ==> r == nextDamageTime
    ensures cooldown >= 0.0 && Fires(nextDamageTime, now, touchingEnemy) ==> r >= nextDamageTime
  {
    if Fires(nextDamageTime, now, touchingEnemy) then now + cooldown else nextDamageTime
  }

  /** One contact callback: its time and whether the other collider has an enemy ancestor. */
  datatype Contact = Contact(time: real, enemy: bool)

  /** How many contacts of `contacts`, in order, deal damage, starting from gate time `next`. */
  function Damaging(next: real, contacts: seq<Contact>, cooldown: real): nat
    decreases |contacts|
  {
    if contacts == [] then 0
    else
      var c := contacts[0];
      (if Fires(next, c.time, c.enemy) then 1 else 0) +
      Damaging(NextDamageTime(next, c.time, c.enemy, cooldown), contacts[1..], cooldown)
  }

  /** The gate time after the contacts `contacts`, starting from `next`. */
  function GateAfter(next: real, contacts: seq<Contact>, cooldown: real): real
    decreases |contacts|
  {
    if contacts == [] then next
    else GateAfter(NextDamageTime(next, contacts[0].time, contacts[0].enemy, cooldown), contacts[1..], cooldown)
  }

  /** Contacts that all come before the gate time deal no damage and leave the gate alone. */
  lemma {:induction false} CoolingDown(next: real, contacts: seq<Contact>, cooldown: real)
    requires forall i | 0 <= i < |contacts| :: contacts[i].time < next
    ensures Damaging(next, contacts, cooldown) == 0
    ensures GateAfter(next, contacts, cooldown) == next
    decreases |contacts|
  {
    if contacts != [] {
      CoolingDown(next, contacts[1..], cooldown);
    }
  }

  /** However many contacts arrive within one cooldown window opened by a damaging contact,
      exactly that first one deals damage, and the next window starts a cooldown after it. */
  lemma {:induction false} OncePerWindow(next: real, contacts: seq<Contact>, cooldown: real)
    requires cooldown > 0.0 && contacts != []
    requires Fires(next, contacts[0].time, contacts[0].enemy)
    requires forall i | 0 <= i < |contacts| :: contacts[0].time <= contacts[i].time < contacts[0].time + cooldown
    ensures Damaging(next, contacts, cooldown) == 1
    ensures GateAfter(next, contacts, cooldown) == contacts[0].time + cooldown
  {
    var rest := contacts[1..];
    forall i | 0 <= i < |rest|
      ensures rest[i].time < contacts[0].time + cooldown
    {
      assert rest[i] == contacts[i + 1];
    }
    CoolingDown(contacts[0].time + cooldown, rest, cooldown);
  }

  class PlayerContactDamage {
    const contactDamage: int32
    const damageCooldown: real
    /** The PlayerHealth on the same object, found at Awake. */
    const health: Tl4PlayerHealth.PlayerHealth
    var nextDamageTime: real

    /** The gate starts at time 0, so the first enemy contact at any time >= 0 deals damage. */
    constructor(contactDamage: int32, damageCooldown: real, health: Tl4PlayerHealth.PlayerHealth)
      ensures this.contactDamage == contactDamage && this.damageCooldown == damageCooldown
      ensures this.health == health && nextDamageTime == 0.0
      ensures forall now: real :: now >= 0.0 ==> Fires(nextDamageTime, now, true)
    {
      this.contactDamage := contactDamage;
      this.damageCooldown := damageCooldown;
      this.health := health;
      nextDamageTime := 0.0;
    }

    /** TryApplyDamage: within the window nothing happens; outside it, an enemy contact
        applies the contact damage once and opens the next window. */
    method TryApplyDamage(now: real, touchingEnemy: bool)
      requires health.Valid()
      modifies this, health
      ensures health.Valid()
      ensures nextDamageTime == NextDamageTime(old(nextDamageTime), now, touchingEnemy, damageCooldown)
      ensures Fires(old(nextDamageTime), now, touchingEnemy) ==>
                health.Health() == HealthLedger.Damage(old(health.Health()), contactDamage) &&
                health.deathSignals == old(health.deathSignals) + if old(health.IsAlive()) && !health.IsAlive() then 1 else 0
      ensures !Fires(old(nextDamageTime), now, touchingEnemy) ==>
                health.Health() == old(health.Health()) && health.deathSignals == old(health.deathSignals)
    {
      if now < nextDamageTime {
        return;
      }
      if !touchingEnemy {
        return;
      }
      health.ApplyDamage(contactDamage);
      nextDamageTime := now + damageCooldown;
    }
  }
}
