/** The plain player record of the TL_1 player (Assets/Scripts/Player/Player.cs): a health
    value capped at 100 by healing and floored at 0 by damage, and a position. */
module PlayerRecord {
  import opened Int32
  import Mathf
  import opened Vectors

  const MAX_HEALTH: int32 := 100

  /** Health after TakeDamage: a negative amount is ignored; otherwise the amount is subtracted
      (in 32-bit arithmetic) and a negative result becomes 0. */
  function Damaged(health: int32, amount: int32): (r: int32)
    ensures amount < 0 ==> r == health
    ensures amount >= 0 ==> r >= 0
    ensures amount >= 0 && health - amount >= MIN ==> r == if health - amount < 0 then 0 else health - amount
  {
    if amount < 0 then health
    else
      var h := Wrap(health - amount);
      if h < 0 then 0 else h
  }

  /** Health after Heal: the amount (of either sign) is added in 32-bit arithmetic and the
      result is capped at MAX_HEALTH. */
  function Healed(health: int32, amount: int32): (r: int32)
    ensures r <= MAX_HEALTH
    ensures MIN <= health + amount <= MAX ==> r == Mathf.Min(health + amount, MAX_HEALTH)
  {
    Mathf.Min(Wrap(health + amount), MAX_HEALTH)
  }

  /** On a non-negative health, two successive hits do what one hit of their sum does. */
  lemma DamageAdds(health: int32, a: int32, b: int32)
    requires health >= 0 && a >= 0 && b >= 0 && a + b <= MAX
    ensures Damaged(Damaged(health, a), b) == Damaged(health, a + b)
  {
  }

  class Player {
    var health: int32
    var position: Vec2

    /** Player(initialHealth): the health is taken as given, with no clamping. */
    constructor(initialHealth: int32)
      ensures health == initialHealth && position == Vec2(0.0, 0.0)
    {
      health := initialHealth;
      position := Vec2(0.0, 0.0);
    }

    /** Player(): the default argument MAX_HEALTH. */
    constructor Default()
      ensures health == MAX_HEALTH && position == Vec2(0.0, 0.0)
    {
      health := MAX_HEALTH;
      position := Vec2(0.0, 0.0);
    }

    method Move(newX: real, newY: real)
      modifies this
      ensures position == Vec2(newX, newY) && health == old(health)
    {
      position := Vec2(newX, newY);
    }

    method TakeDamage(amount: int32)
      modifies this
      ensures health == Damaged(old(health), amount) && position == old(position)
    {
      if amount < 0 {
        return;
      }
      health := Wrap(health - amount);
      if health < 0 {
        health := 0;
      }
    }

    method Heal(amount: int32)
      modifies this
      ensures health == Healed(old(health), amount) && position == old(position)
    {
      health := Mathf.Min(Wrap(health + amount), MAX_HEALTH);
    }

    /** Alive while health is positive: for a non-negative health, exactly while it is not 0. */
    predicate IsAlive()
      reads this
      ensures health >= 0 ==> (IsAlive() <==> health != 0)
      ensures health < 0 ==> !IsAlive()
    {
      health > 0
    }

    /** The stored health, as last set by the constructor, TakeDamage or Heal. */
    function GetHealth(): (r: int32)
      reads this
      ensures r == health
      ensures IsAlive() <==> r > 0
    {
      health
    }
  }
}
