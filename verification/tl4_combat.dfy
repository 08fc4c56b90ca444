/** Melee combat of the TL_4 player (Assets/Scripts/TL_4_Player/PlayerCombatController.cs):
    every alive target returned by the range query is damaged once per record, and a defeat
    event is raised for the record that takes a target from alive to dead. */
module Tl4Combat {
  import opened Int32
  import opened Optional
  import HealthLedger
  import D = Damageable

  /** Identity of the EnemyController found on a hit collider or its ancestors: the payload of
      the defeat event. */
  type EnemyId = nat

  /** One collider returned by the range query (Physics2D.OverlapCircleAll), with the
      EnemyController and the IDamageable found on it or its ancestors, when there are any.
      Several records may refer to the same component. */
  datatype Hit = Hit(enemy: Option<EnemyId>, target: Option<D.Damageable>)

  /** A record is considered only when it carries both an enemy and a damageable component. */
  predicate Qualifies(h: Hit)
  {
    h.enemy.Some? && h.target.Some?
  }

  /** The number of qualifying records in `hits` that refer to target `t`. */
  function HitsOn(hits: seq<Hit>, t: D.Damageable): nat
  {
    if hits == [] then 0
    else
      var last := hits[|hits| - 1];
      HitsOn(hits[..|hits| - 1], t) + if Qualifies(last) && last.target.value == t then 1 else 0
  }

  /** The components that the records refer to: all that an attack may change. */
  function Targets(hits: seq<Hit>): set<object>
  {
    set i | 0 <= i < |hits| && hits[i].target.Some? :: hits[i].target.value.Ref()
  }

  /** The status of the target of every record, in record order (records without a target
      get a placeholder). */
  function Statuses(hits: seq<Hit>): (r: seq<D.Status>)
    reads Targets(hits)
    ensures |r| == |hits|
    ensures forall k | 0 <= k < |hits| && hits[k].target.Some? :: r[k] == hits[k].target.value.State()
  {
    seq(|hits|, k requires 0 <= k < |hits| reads Targets(hits) =>
      if hits[k].target.Some? then hits[k].target.value.State() else D.Status(HealthLedger.Ledger(0, 0), 0))
  }

  /** A target whose ledger was `l` before the attack is defeated by its (k+1)-th qualifying
      record: alive after k applications of the damage, dead after k + 1. */
  predicate DefeatedBy(l: HealthLedger.Ledger, damage: int, k: nat)
  {
    HealthLedger.RepeatDamage(l, damage, k).Alive() && !HealthLedger.RepeatDamage(l, damage, k + 1).Alive()
  }

  /** The effect of one attack on its targets, between the state before it and now: each
      target lost the damage once for every qualifying record that refers to it, and a player
      component brought from alive to dead ran its death handler once. */
  twostate predicate Struck(hits: seq<Hit>, damage: int)
    reads Targets(hits)
  {
    forall i | 0 <= i < |hits| && hits[i].target.Some? ::
      var t := hits[i].target.value;
      t.Health() == HealthLedger.RepeatDamage(old(t.Health()), damage, HitsOn(hits, t)) &&
      t.DeathSignals() == old(t.DeathSignals()) + if t.PlayerTarget? && old(t.IsAlive()) && !t.IsAlive() then 1 else 0
  }

  /** Record i defeats its target: it qualifies, and its target, whose status was `before[i]`
      when the attack began, is alive before this record's strike and dead after it. */
  predicate DefeatsAt(hits: seq<Hit>, damage: int, before: seq<D.Status>, i: nat)
    requires i < |hits| == |before|
  {
    Qualifies(hits[i]) && DefeatedBy(before[i].health, damage, HitsOn(hits[..i], hits[i].target.value))
  }

  /** The number of records among the first n that defeat their target. */
  function DefeatCount(hits: seq<Hit>, damage: int, before: seq<D.Status>, n: nat): nat
    requires n <= |hits| == |before|
  {
    if n == 0 then 0
    else DefeatCount(hits, damage, before, n - 1) + if DefeatsAt(hits, damage, before, n - 1) then 1 else 0
  }

  /** Records lo..n-1 that defeat nothing leave the count as it was at lo. */
  lemma {:induction false} DefeatCountGap(hits: seq<Hit>, damage: int, before: seq<D.Status>, lo: nat, n: nat)
    requires lo <= n <= |hits| == |before|
    requires forall i | lo <= i < n :: !DefeatsAt(hits, damage, before, i)
    ensures DefeatCount(hits, damage, before, n) == DefeatCount(hits, damage, before, lo)
  {
    if lo < n {
      DefeatCountGap(hits, damage, before, lo, n - 1);
    }
  }

  /** A strictly increasing list of record indices below n that holds exactly the defeating
      records has one entry per defeating record: no defeat is reported twice or missed. */
  lemma {:induction false} EventsMatchDefeatCount(hits: seq<Hit>, damage: int, before: seq<D.Status>, at: seq<nat>, n: nat)
    requires n <= |hits| == |before|
    requires forall j | 0 <= j < |at| :: at[j] < n
    requires forall j, k | 0 <= j < k < |at| :: at[j] < at[k]
    requires forall i | 0 <= i < n :: i in at <==> DefeatsAt(hits, damage, before, i)
    ensures |at| == DefeatCount(hits, damage, before, n)
    decreases |at|
  {
    if at == [] {
      DefeatCountGap(hits, damage, before, 0, n);
    } else {
      var m := |at| - 1;
      var last := at[m];
      assert forall j | 0 <= j < m :: at[j] < last;
      DefeatCountGap(hits, damage, before, last + 1, n);
      assert at == at[..m] + [last];
      EventsMatchDefeatCount(hits, damage, before, at[..m], last);
    }
  }

  lemma HitsOnStep(hits: seq<Hit>, t: D.Damageable, i: nat)
    requires i < |hits|
    ensures HitsOn(hits[..i + 1], t) ==
              HitsOn(hits[..i], t) + if Qualifies(hits[i]) && hits[i].target.value == t then 1 else 0
  {
    assert hits[..i + 1][..i] == hits[..i];
  }

  /** Counting qualifying records over a longer prefix never gives fewer. */
  lemma {:induction false} HitsOnMonotone(hits: seq<Hit>, t: D.Damageable, i: nat, j: nat)
    requires i <= j <= |hits|
    ensures HitsOn(hits[..i], t) <= HitsOn(hits[..j], t)
    decreases j - i
  {
    if i < j {
      HitsOnStep(hits, t, i);
      HitsOnMonotone(hits, t, i + 1, j);
    }
  }

  /** A target is reported defeated by at most one record of an attack: a later record that
      aliases an already defeated target finds it dead. */
  lemma {:induction false} DefeatedAtMostOnce(hits: seq<Hit>, damage: int, l: HealthLedger.Ledger, i: nat, j: nat)
    requires l.Valid() && i < j < |hits|
    requires Qualifies(hits[i]) && hits[j].target == hits[i].target
    requires DefeatedBy(l, damage, HitsOn(hits[..i], hits[i].target.value))
    ensures !HealthLedger.RepeatDamage(l, damage, HitsOn(hits[..j], hits[j].target.value)).Alive()
    ensures !DefeatedBy(l, damage, HitsOn(hits[..j], hits[j].target.value))
  {
    var t := hits[i].target.value;
    HitsOnStep(hits, t, i);
    HitsOnMonotone(hits, t, i + 1, j);
    HealthLedger.RepeatDamageStaysDead(l, damage, HitsOn(hits[..i], t) + 1, HitsOn(hits[..j], t));
  }

  /** With a non-positive attack damage no record ever defeats a target. */
  lemma ZeroDamageDefeatsNothing(l: HealthLedger.Ledger, damage: int, k: nat)
    requires l.Valid() && damage <= 0
    ensures HealthLedger.RepeatDamage(l, damage, k) == l
    ensures !DefeatedBy(l, damage, k)
  {
    HealthLedger.RepeatDamageClosedForm(l, damage, k);
    HealthLedger.RepeatDamageClosedForm(l, damage, k + 1);
  }

  class PlayerCombatController {
    const attackRange: real
    const attackDamage: int32
    /** The component's `enabled` flag, cleared by the player controller on a win. */
    var enabled: bool

    constructor(attackRange: real, attackDamage: int32)
      ensures this.attackRange == attackRange && this.attackDamage == attackDamage && enabled
    {
      this.attackRange := attackRange;
      this.attackDamage := attackDamage;
      enabled := true;
    }

    /** HandleAttackInput: attacks when the attack key went down this frame. */
    method HandleAttackInput(attackPressed: bool, hits: seq<Hit>) returns (defeated: seq<EnemyId>, ghost defeatedAt: seq<nat>)
      requires forall i | 0 <= i < |hits| && hits[i].target.Some? :: hits[i].target.value.Valid()
      modifies Targets(hits)
      ensures forall i | 0 <= i < |hits| && hits[i].target.Some? :: hits[i].target.value.Valid()
      // without the key: no target changes and no event is raised
      ensures !attackPressed ==> defeated == [] && defeatedAt == []
      ensures !attackPressed ==> forall i | 0 <= i < |hits| && hits[i].target.Some? ::
                hits[i].target.value.State() == old(hits[i].target.value.State())
      // with it: PerformAttack's effect on the targets and its defeat events
      ensures attackPressed ==> Struck(hits, attackDamage)
      ensures |defeated| == |defeatedAt|
      ensures forall j | 0 <= j < |defeatedAt| ::
                defeatedAt[j] < |hits| && Qualifies(hits[defeatedAt[j]]) && defeated[j] == hits[defeatedAt[j]].enemy.value
      ensures forall j, k | 0 <= j < k < |defeatedAt| :: defeatedAt[j] < defeatedAt[k]
      ensures attackPressed ==> forall i | 0 <= i < |hits| ::
                i in defeatedAt <==>
                  Qualifies(hits[i]) &&
                  DefeatedBy(old(hits[i].target.value.Health()), attackDamage, HitsOn(hits[..i], hits[i].target.value))
      ensures |defeated| == if attackPressed then DefeatCount(hits, attackDamage, old(Statuses(hits)), |hits|) else 0
    {
      defeated, defeatedAt := [], [];
      if attackPressed {
        defeated, defeatedAt := PerformAttack(hits);
      }
    }

    /** One record of PerformAttack's loop: a qualifying record whose target is alive damages
        it; the result tells whether this record took the target from alive to dead. Given that
        every target has taken one strike per qualifying record before `i` (counted from the
        statuses `start` at the beginning of the attack), the same holds after record `i`. */
    method StrikeRecord(hits: seq<Hit>, i: nat, ghost start: seq<D.Status>) returns (defeatedNow: bool)
      requires i < |hits| == |start|
      requires forall k | 0 <= k < |hits| && hits[k].target.Some? ::
                 hits[k].target.value.Valid() &&
                 hits[k].target.value.State() ==
                   D.RepeatStrike(start[k], attackDamage, hits[k].target.value.PlayerTarget?, HitsOn(hits[..i], hits[k].target.value))
      modifies if hits[i].target.Some? then {hits[i].target.value.Ref()} else {}
      ensures forall k | 0 <= k < |hits| && hits[k].target.Some? ::
                hits[k].target.value.Valid() &&
                hits[k].target.value.State() ==
                  D.RepeatStrike(start[k], attackDamage, hits[k].target.value.PlayerTarget?, HitsOn(hits[..i + 1], hits[k].target.value))
      ensures defeatedNow <==>
                Qualifies(hits[i]) && DefeatedBy(start[i].health, attackDamage, HitsOn(hits[..i], hits[i].target.value))
    {
      var hit := hits[i];
      defeatedNow := false;
      if hit.enemy.Some? && hit.target.Some? && hit.target.value.IsAlive() {
        var health := hit.target.value;
        D.ApplyDamage(health, attackDamage);
        defeatedNow := !health.IsAlive();
      }
      if Qualifies(hit) {
        var t := hit.target.value;
        var c := HitsOn(hits[..i], t);
        D.RepeatStrikeHealth(start[i], attackDamage, t.PlayerTarget?, c);
        D.RepeatStrikeHealth(start[i], attackDamage, t.PlayerTarget?, c + 1);
      }
      forall k | 0 <= k < |hits| && hits[k].target.Some?
        ensures hits[k].target.value.Valid()
        ensures hits[k].target.value.State() ==
                  D.RepeatStrike(start[k], attackDamage, hits[k].target.value.PlayerTarget?, HitsOn(hits[..i + 1], hits[k].target.value))
      {
        var t := hits[k].target.value;
        HitsOnStep(hits, t, i);
        if hit.target.Some? {
          D.SameRefSameTarget(t, hit.target.value);
        }
      }
    }

    /** Damages every alive qualifying target once per record, in query order, without early
        exit, and returns the payloads of the defeat events raised, in order. */
    method PerformAttack(hits: seq<Hit>) returns (defeated: seq<EnemyId>, ghost defeatedAt: seq<nat>)
      requires forall i | 0 <= i < |hits| && hits[i].target.Some? :: hits[i].target.value.Valid()
      modifies Targets(hits)
      ensures forall i | 0 <= i < |hits| && hits[i].target.Some? :: hits[i].target.value.Valid()
      // each target lost the damage once per qualifying record and signalled its death once
      ensures Struck(hits, attackDamage)
      // the events are raised in record order, one per defeating record
      ensures |defeated| == |defeatedAt|
      ensures forall j | 0 <= j < |defeatedAt| ::
                defeatedAt[j] < |hits| && Qualifies(hits[defeatedAt[j]]) && defeated[j] == hits[defeatedAt[j]].enemy.value
      ensures forall j, k | 0 <= j < k < |defeatedAt| :: defeatedAt[j] < defeatedAt[k]
      ensures forall i | 0 <= i < |hits| ::
                i in defeatedAt <==>
                  Qualifies(hits[i]) &&
                  DefeatedBy(old(hits[i].target.value.Health()), attackDamage, HitsOn(hits[..i], hits[i].target.value))
      // so there is one event per defeating record
      ensures |defeated| == DefeatCount(hits, attackDamage, old(Statuses(hits)), |hits|)
    {
      defeated, defeatedAt := [], [];
      ghost var start := Statuses(hits);
      var i := 0;
      while i < |hits|
        invariant 0 <= i <= |hits|
        invariant start == old(Statuses(hits))
        invariant forall k | 0 <= k < |hits| && hits[k].target.Some? ::
                    hits[k].target.value.Valid() &&
                    hits[k].target.value.State() ==
                      D.RepeatStrike(start[k], attackDamage, hits[k].target.value.PlayerTarget?, HitsOn(hits[..i], hits[k].target.value))
        invariant |defeated| == |defeatedAt|
        invariant forall j | 0 <= j < |defeatedAt| ::
                    defeatedAt[j] < i && Qualifies(hits[defeatedAt[j]]) && defeated[j] == hits[defeatedAt[j]].enemy.value
        invariant forall j, k | 0 <= j < k < |defeatedAt| :: defeatedAt[j] < defeatedAt[k]
        invariant forall k | 0 <= k < i ::
                    k in defeatedAt <==>
                      Qualifies(hits[k]) && DefeatedBy(start[k].health, attackDamage, HitsOn(hits[..k], hits[k].target.value))
      {
        ghost var before := defeatedAt;
        var defeatedNow := StrikeRecord(hits, i, start);
        if defeatedNow {
          defeated := defeated + [hits[i].enemy.value];
          defeatedAt := defeatedAt + [i];
        }
        forall k | 0 <= k < i + 1
          ensures k in defeatedAt <==>
                    Qualifies(hits[k]) && DefeatedBy(start[k].health, attackDamage, HitsOn(hits[..k], hits[k].target.value))
        {
          assert k in defeatedAt <==> k in before || (defeatedNow && k == i);
        }
        i := i + 1;
      }
      assert hits[..|hits|] == hits;
      EventsMatchDefeatCount(hits, attackDamage, start, defeatedAt, |hits|);
      forall k | 0 <= k < |hits| && hits[k].target.Some?
        ensures var t := hits[k].target.value;
                t.Health() == HealthLedger.RepeatDamage(old(t.Health()), attackDamage, HitsOn(hits, t)) &&
                t.DeathSignals() == old(t.DeathSignals()) + if t.PlayerTarget? && old(t.IsAlive()) && !t.IsAlive() then 1 else 0
      {
        var t := hits[k].target.value;
        D.RepeatStrikeHealth(start[k], attackDamage, t.PlayerTarget?, HitsOn(hits, t));
        D.RepeatStrikeDeaths(start[k], attackDamage, t.PlayerTarget?, HitsOn(hits, t));
      }
    }
  }
}
