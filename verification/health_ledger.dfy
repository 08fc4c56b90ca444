/** The bounded health counter shared by the player and enemy health components: the
    clamp-based damage, heal and resize rules, as pure functions on a (current, max) pair.
    The component classes are proved against these rules. */
module HealthLedger {
  import opened Int32
  import Mathf

  datatype Ledger = Ledger(current: int, max: int) {
    /** The ledger invariant: 0 <= current <= max (max within C#'s int). */
    predicate Valid() { 0 <= current <= max <= MAX }

    predicate Alive() { current > 0 }
  }

  /** Damage rule: no change for a non-positive amount or a dead ledger; otherwise the
      current value drops by the amount and stops at 0. */
  function Damage(l: Ledger, amount: int): (r: Ledger)
    ensures l.Valid() ==> r.Valid()
    ensures r.max == l.max && r.current <= l.current
    ensures amount <= 0 || !l.Alive() ==> r == l
    ensures amount > 0 && l.Alive() && l.Valid() ==>
              r.current == if amount < l.current then l.current - amount else 0
  {
    if amount <= 0 || !l.Alive() then l
    else Ledger(Mathf.Clamp(l.current - amount, 0, l.max), l.max)
  }

  /** Heal rule, with the 32-bit addition `current + amount` of the source: no change for a
      non-positive amount or a dead ledger; otherwise the current value rises by the amount and
      stops at max, unless the sum overflows, which wraps negative and clamps to 0. */
  function Heal(l: Ledger, amount: int32): (r: Ledger)
    requires l.Valid()
    ensures r.Valid() && r.max == l.max
    ensures amount <= 0 || !l.Alive() ==> r == l
    ensures amount > 0 && l.Alive() && l.current + amount <= MAX ==>
              r.current == Mathf.Min(l.current + amount, l.max) && r.current >= l.current
    ensures amount > 0 && l.Alive() && l.current + amount > MAX ==> r.current == 0
  {
    if amount <= 0 || !l.Alive() then l
    else Ledger(Mathf.Clamp(Wrap(l.current + amount), 0, l.max), l.max)
  }

  /** Resize keeping the absolute current value: a non-positive new maximum is ignored;
      otherwise max becomes newMax and current is cut down to it if needed. */
  function ResizePreserve(l: Ledger, newMax: int32): (r: Ledger)
    requires l.Valid()
    ensures r.Valid()
    ensures newMax <= 0 ==> r == l
    ensures newMax > 0 ==> r.max == newMax && r.current == Mathf.Min(l.current, newMax)
  {
    if newMax <= 0 then l
    else Ledger(Mathf.Clamp(l.current, 0, newMax), newMax)
  }

  /** `k` successive applications of the same damage amount. */
  function RepeatDamage(l: Ledger, amount: int, k: nat): (r: Ledger)
    ensures l.Valid() ==> r.Valid()
    ensures r.max == l.max && r.current <= l.current
  {
    if k == 0 then l else Damage(RepeatDamage(l, amount, k - 1), amount)
  }

  /** Closed form: a positive amount applied `k` times removes k * amount, stopping at 0. */
  lemma {:induction false} RepeatDamageClosedForm(l: Ledger, amount: int, k: nat)
    requires l.Valid()
    ensures RepeatDamage(l, amount, k).current ==
              if amount <= 0 then l.current
              else if k * amount < l.current then l.current - k * amount
              else 0
  {
    if k > 0 {
      RepeatDamageClosedForm(l, amount, k - 1);
      if amount > 0 {
        assert (k - 1) * amount + amount == k * amount;
      }
    }
  }

  /** Once dead, further damage keeps the ledger dead. */
  lemma {:induction false} RepeatDamageStaysDead(l: Ledger, amount: int, j: nat, k: nat)
    requires l.Valid() && j <= k
    requires !RepeatDamage(l, amount, j).Alive()
    ensures !RepeatDamage(l, amount, k).Alive()
  {
    if j < k {
      RepeatDamageStaysDead(l, amount, j, k - 1);
    }
  }

  /** The ledger after a sequence of damage calls. */
  function DamageAll(l: Ledger, amounts: seq<int>): (r: Ledger)
    requires l.Valid()
    ensures r.Valid() && r.max == l.max
    decreases |amounts|
  {
    if amounts == [] then l else DamageAll(Damage(l, amounts[0]), amounts[1..])
  }

  /** Number of calls in the sequence that take the ledger from alive to dead: the calls on
      which the death handler runs. */
  function DeathSignals(l: Ledger, amounts: seq<int>): nat
    requires l.Valid()
    decreases |amounts|
  {
    if amounts == [] then 0
    else
      var next := Damage(l, amounts[0]);
      (if l.Alive() && !next.Alive() then 1 else 0) + DeathSignals(next, amounts[1..])
  }

  /** Health never increases over any sequence of damage calls. */
  lemma {:induction false} DamageAllNonIncreasing(l: Ledger, amounts: seq<int>)
    requires l.Valid()
    ensures DamageAll(l, amounts).current <= l.current
    decreases |amounts|
  {
    if amounts != [] {
      DamageAllNonIncreasing(Damage(l, amounts[0]), amounts[1..]);
    }
  }

  /** Over any sequence of damage calls the death signal is raised at most once, and exactly
      once when the ledger starts alive and ends dead. */
  lemma {:induction false} DeathSignalledAtMostOnce(l: Ledger, amounts: seq<int>)
    requires l.Valid()
    ensures DeathSignals(l, amounts) == if l.Alive() && !DamageAll(l, amounts).Alive() then 1 else 0
    decreases |amounts|
  {
    if amounts != [] {
      var next := Damage(l, amounts[0]);
      DeathSignalledAtMostOnce(next, amounts[1..]);
      if !next.Alive() {
        DeadStaysDead(next, amounts[1..]);
      }
    }
  }

  lemma {:induction false} DeadStaysDead(l: Ledger, amounts: seq<int>)
    requires l.Valid() && !l.Alive()
    ensures DamageAll(l, amounts) == l && DeathSignals(l, amounts) == 0
    decreases |amounts|
  {
    if amounts != [] {
      DeadStaysDead(Damage(l, amounts[0]), amounts[1..]);
    }
  }
}
