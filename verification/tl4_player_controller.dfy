/** Win coordination of the TL_4 player (Assets/Scripts/TL_4_Player/PlayerController.cs): a
    counter of defeat events against the number of enemies counted at Awake, and a write-once
    win flag that disables movement and combat. The optional win location is reduced to two
    booleans: whether one is assigned, and whether the player is within its radius. */
module Tl4PlayerController {
  import Tl4PlayerHealth
  import Tl4Movement
  import Tl4Combat

  /** CheckWinCondition's test: every enemy defeated and, when a location is required, one
      assigned and the player within its radius. */
  predicate WinConditionMet(defeated: nat, total: nat, requireWinLocation: bool, winLocationAssigned: bool, withinWinRadius: bool)
  {
    defeated >= total && (!requireWinLocation || (winLocationAssigned && withinWinRadius))
  }

  /** The controller's progress: defeat events counted and whether the game is won. */
  datatype WinProgress = WinProgress(defeated: nat, hasWon: bool)

  /** n defeat events in a row, each counted (there is no deduplication) and each followed by
      a win check. */
  function NotifyTimes(p: WinProgress, n: nat, total: nat, requireWinLocation: bool, winLocationAssigned: bool, withinWinRadius: bool): WinProgress
  {
    if n == 0 then p
    else
      var q := NotifyTimes(p, n - 1, total, requireWinLocation, winLocationAssigned, withinWinRadius);
      WinProgress(q.defeated + 1, q.hasWon || WinConditionMet(q.defeated + 1, total, requireWinLocation, winLocationAssigned, withinWinRadius))
  }

  /** After n events the counter has risen by exactly n, and the game is won exactly when it
      already was or the final count meets the condition: the counter only grows, so a count
      that met it earlier still meets it. */
  lemma {:induction false} NotifyTimesClosedForm(p: WinProgress, n: nat, total: nat, requireWinLocation: bool, winLocationAssigned: bool, withinWinRadius: bool)
    ensures NotifyTimes(p, n, total, requireWinLocation, winLocationAssigned, withinWinRadius).defeated == p.defeated + n
    ensures NotifyTimes(p, n, total, requireWinLocation, winLocationAssigned, withinWinRadius).hasWon ==
              (p.hasWon || (n > 0 && WinConditionMet(p.defeated + n, total, requireWinLocation, winLocationAssigned, withinWinRadius)))
  {
    if n > 0 {
      NotifyTimesClosedForm(p, n - 1, total, requireWinLocation, winLocationAssigned, withinWinRadius);
    }
  }

  /** While fewer enemies were defeated than counted, no number of events short of the total
      wins the game. */
  lemma NoEarlyWin(p: WinProgress, n: nat, total: nat, requireWinLocation: bool, winLocationAssigned: bool, withinWinRadius: bool)
    requires !p.hasWon && p.defeated + n < total
    ensures !NotifyTimes(p, n, total, requireWinLocation, winLocationAssigned, withinWinRadius).hasWon
  {
    NotifyTimesClosedForm(p, n, total, requireWinLocation, winLocationAssigned, withinWinRadius);
  }

  class PlayerController {
    const movement: Tl4Movement.PlayerMovementController
    const combat: Tl4Combat.PlayerCombatController
    const health: Tl4PlayerHealth.PlayerHealth
    const requireWinLocation: bool
    const winLocationAssigned: bool
    /** The number of EnemyControllers in the scene at Awake; never changed afterwards. */
    const totalEnemies: nat
    var defeatedEnemies: nat
    var hasWon: bool

    function Progress(): WinProgress
      reads this
    {
      WinProgress(defeatedEnemies, hasWon)
    }

    predicate Met(defeated: nat, withinWinRadius: bool)
    {
      WinConditionMet(defeated, totalEnemies, requireWinLocation, winLocationAssigned, withinWinRadius)
    }

    /** Awake: the components are found and the enemies in the scene are counted. */
    constructor(movement: Tl4Movement.PlayerMovementController, combat: Tl4Combat.PlayerCombatController,
                health: Tl4PlayerHealth.PlayerHealth, requireWinLocation: bool, winLocationAssigned: bool,
                enemiesInScene: nat)
      ensures this.movement == movement && this.combat == combat && this.health == health
      ensures this.requireWinLocation == requireWinLocation && this.winLocationAssigned == winLocationAssigned
      ensures totalEnemies == enemiesInScene && defeatedEnemies == 0 && !hasWon
    {
      this.movement := movement;
      this.combat := combat;
      this.health := health;
      this.requireWinLocation := requireWinLocation;
      this.winLocationAssigned := winLocationAssigned;
      totalEnemies := enemiesInScene;
      defeatedEnemies := 0;
      hasWon := false;
    }

    /** Sets the win flag once; only the first call disables movement and combat. */
    method TriggerWin()
      modifies this`hasWon, movement`enabled, combat`enabled
      ensures hasWon
      ensures old(hasWon) ==> movement.enabled == old(movement.enabled) && combat.enabled == old(combat.enabled)
      ensures !old(hasWon) ==> !movement.enabled && !combat.enabled
    {
      if hasWon {
        return;
      }
      hasWon := true;
      movement.enabled := false;
      combat.enabled := false;
    }

    method CheckWinCondition(withinWinRadius: bool)
      modifies this`hasWon, movement`enabled, combat`enabled
      ensures hasWon == (old(hasWon) || Met(defeatedEnemies, withinWinRadius))
      ensures hasWon && !old(hasWon) ==> !movement.enabled && !combat.enabled
      ensures !(hasWon && !old(hasWon)) ==> movement.enabled == old(movement.enabled) && combat.enabled == old(combat.enabled)
    {
      if defeatedEnemies < totalEnemies {
        return;
      }
      if requireWinLocation {
        if !winLocationAssigned {
          return;
        }
        if !withinWinRadius {
          return;
        }
        TriggerWin();
      } else {
        TriggerWin();
      }
    }

    /** The OnEnemyDefeated handler: counts the event and checks for a win. */
    method HandleEnemyDefeated(withinWinRadius: bool)
      modifies this`defeatedEnemies, this`hasWon, movement`enabled, combat`enabled
      ensures Progress() == NotifyTimes(old(Progress()), 1, totalEnemies, requireWinLocation, winLocationAssigned, withinWinRadius)
      ensures hasWon && !old(hasWon) ==> !movement.enabled && !combat.enabled
      ensures !(hasWon && !old(hasWon)) ==> movement.enabled == old(movement.enabled) && combat.enabled == old(combat.enabled)
    {
      defeatedEnemies := defeatedEnemies + 1;
      CheckWinCondition(withinWinRadius);
    }

    /** The defeat events of one attack, handled one after another. */
    method NotifyDefeats(n: nat, withinWinRadius: bool)
      modifies this`defeatedEnemies, this`hasWon, movement`enabled, combat`enabled
      ensures Progress() == NotifyTimes(old(Progress()), n, totalEnemies, requireWinLocation, winLocationAssigned, withinWinRadius)
      ensures hasWon && !old(hasWon) ==> !movement.enabled && !combat.enabled
      ensures !(hasWon && !old(hasWon)) ==> movement.enabled == old(movement.enabled) && combat.enabled == old(combat.enabled)
    {
      var j := 0;
      while j < n
        invariant 0 <= j <= n
        invariant Progress() == NotifyTimes(old(Progress()), j, totalEnemies, requireWinLocation, winLocationAssigned, withinWinRadius)
        invariant old(hasWon) ==> hasWon
        invariant hasWon && !old(hasWon) ==> !movement.enabled && !combat.enabled
        invariant !(hasWon && !old(hasWon)) ==> movement.enabled == old(movement.enabled) && combat.enabled == old(combat.enabled)
      {
        HandleEnemyDefeated(withinWinRadius);
        j := j + 1;
      }
    }

    /** One frame: nothing once the player is dead or has won; otherwise the attack input is
        handled, every defeat event it raised is counted, and the win condition is checked. */
    method Update(attackPressed: bool, hits: seq<Tl4Combat.Hit>, withinWinRadius: bool)
      returns (defeated: seq<Tl4Combat.EnemyId>, ghost defeatedAt: seq<nat>)
      requires forall i | 0 <= i < |hits| && hits[i].target.Some? :: hits[i].target.value.Valid()
      modifies this`defeatedEnemies, this`hasWon, movement`enabled, combat`enabled, Tl4Combat.Targets(hits)
      ensures forall i | 0 <= i < |hits| && hits[i].target.Some? :: hits[i].target.value.Valid()
      ensures !old(health.IsAlive()) || old(hasWon) ==>
                defeated == [] && Progress() == old(Progress()) &&
                movement.enabled == old(movement.enabled) && combat.enabled == old(combat.enabled)
      // a frame without an attack leaves every target as it was
      ensures !old(health.IsAlive()) || old(hasWon) || !attackPressed ==>
                defeated == [] && defeatedAt == [] &&
                forall i | 0 <= i < |hits| && hits[i].target.Some? :: hits[i].target.value.State() == old(hits[i].target.value.State())
      ensures old(health.IsAlive()) && !old(hasWon) ==>
                defeatedEnemies == old(defeatedEnemies) + |defeated| &&
                hasWon == Met(defeatedEnemies, withinWinRadius) &&
                (hasWon ==> !movement.enabled && !combat.enabled) &&
                (!hasWon ==> movement.enabled == old(movement.enabled) && combat.enabled == old(combat.enabled))
      // an attack this frame: each target takes the damage once per qualifying record ...
      ensures old(health.IsAlive()) && !old(hasWon) && attackPressed ==> Tl4Combat.Struck(hits, combat.attackDamage)
      // ... and every record that defeats its target is counted in this same frame, once
      ensures |defeated| == |defeatedAt|
      ensures forall j | 0 <= j < |defeatedAt| ::
                defeatedAt[j] < |hits| && Tl4Combat.Qualifies(hits[defeatedAt[j]]) && defeated[j] == hits[defeatedAt[j]].enemy.value
      ensures forall j, k | 0 <= j < k < |defeatedAt| :: defeatedAt[j] < defeatedAt[k]
      ensures old(health.IsAlive()) && !old(hasWon) && attackPressed ==>
                (forall i | 0 <= i < |hits| ::
                   i in defeatedAt <==>
                     Tl4Combat.Qualifies(hits[i]) &&
                     Tl4Combat.DefeatedBy(old(hits[i].target.value.Health()), combat.attackDamage, Tl4Combat.HitsOn(hits[..i], hits[i].target.value))) &&
                defeatedEnemies == old(defeatedEnemies) + Tl4Combat.DefeatCount(hits, combat.attackDamage, old(Tl4Combat.Statuses(hits)), |hits|)
    {
      if !health.IsAlive() || hasWon {
        return [], [];
      }
      defeated, defeatedAt := combat.HandleAttackInput(attackPressed, hits);
      ghost var start := Progress();
      NotifyDefeats(|defeated|, withinWinRadius);
      NotifyTimesClosedForm(start, |defeated|, totalEnemies, requireWinLocation, winLocationAssigned, withinWinRadius);
      CheckWinCondition(withinWinRadius);
    }
  }
}
