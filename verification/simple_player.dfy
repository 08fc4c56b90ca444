/** The minimal player record (Assets/Scripts/Player.cs): a health value floored at 0 by
    damage, with no guard on the sign of the amount, and a position. */
module SimplePlayer {
  import opened Int32
  import opened Vectors
  import PlayerRecord

  /** Health after TakeDamage: the amount is subtracted in 32-bit arithmetic, whatever its
      sign, and a negative result becomes 0. */
  function Damaged(health: int32, amount: int32): (r: int32)
    ensures r >= 0
    ensures MIN <= health - amount <= MAX ==> r == if health - amount < 0 then 0 else health - amount
    ensures amount < 0 && health >= 0 && health - amount <= MAX ==> r > health
  {
    var h := Wrap(health - amount);
    if h < 0 then 0 else h
  }

  /** For non-negative amounts this record and the TL_1 player record take damage alike; a
      negative amount heals this one and is ignored by the other. */
  lemma AgreesWithPlayerRecord(health: int32, amount: int32)
    ensures amount >= 0 ==> Damaged(health, amount) == PlayerRecord.Damaged(health, amount)
    ensures amount < 0 && health >= 0 && health - amount <= MAX ==>
              Damaged(health, amount) != PlayerRecord.Damaged(health, amount)
  {
  }

  class Player {
    var health: int32
    var position: Vec2

    constructor(hp: int32)
      ensures health == hp && position == Vec2(0.0, 0.0)
    {
      health := hp;
      position := Vec2(0.0, 0.0);
    }

    method Move(newX: real, newY: real)
      modifies this
      ensures position == Vec2(newX, newY) && health == old(health)
    {
      position := Vec2(newX, newY);
    }

    method TakeDamage(amount: int32)
      modifies this
      ensures health == Damaged(old(health), amount) && position == old(position)
    {
      health := Wrap(health - amount);
      if health < 0 {
        health := 0;
      }
    }

    /** Alive while health is positive: for a non-negative health, exactly while it is not 0. */
    predicate IsAlive()
      reads this
      ensures health >= 0 ==> (IsAlive() <==> health != 0)
      ensures health < 0 ==> !IsAlive()
    {
      health > 0
    }
  }
}
