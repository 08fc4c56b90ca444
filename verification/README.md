# Scroogly gameplay core in Dafny

This project models the gameplay state logic of the Orange Games Unity platformer and proves
properties of it. It covers these parts:

- **Health.** The two player health components (TL_1 and TL_4), the enemies' `EnemyHealthSimple`
  and the two plain `Player` records. They share one pure rule set in `HealthLedger`: clamped
  damage, clamped heal and a resize that keeps the current value. The component classes are
  proved against that rule set.
- **Damage capability.** `IDamageable` is a closed tagged variant over its two implementations
  (`Damageable`).
- **Melee combat.** A range query becomes a sequence of hit records. Several records may refer
  to the same component. Each alive qualifying target takes the attack damage once per record.
  A defeat event is raised exactly for the record that takes a target from alive to dead.
- **Contact damage.** A cooldown gate with the clock as a parameter.
- **Movement multiplier.** The speed multiplier and effective speed of the TL_4 movement controller.
- **Power-up.** An inactive/active state machine with a base and an enhanced stat profile. The
  coroutine timer is a pending flag plus an explicit expiry call.
- **Win coordination.** A defeat counter (with no deduplication) against the enemy count from
  Awake, and a write-once win flag.
- **Per-frame state machines.** The health pickup, the threshold-triggered pickup spawner, the
  enemy patrol movers (along x), the enemy shooter's fire timer, the bullet's direction and the
  idle-timeout attract demo.
- **Sound library.** The first-match clip lookup.

C# `int` arithmetic that callers can overflow is written out as 32-bit two's-complement
wrap-around (`Int32.Wrap`). Times, speeds and positions are exact `real`s. The engine's inputs
are method parameters:

- `Time.time` and `Time.unscaledTime`;
- `Time.deltaTime`;
- the input check;
- the physics query;
- component lookups.

The reusable pure rules live in:

- `HealthLedger`, the health rules;
- `Patrol`, the patrol step;
- `Mathf`: `Clamp`, `MoveTowards`, `RoundToInt` and `Sign` as Unity defines them;
- `Vectors`, the facing flip.

## Model

| member | source | states |
|---|---|---|
| HealthLedger.Damage | Assets/Scripts/TL_4_Player/PlayerHealth.cs:57-63 | a non-positive amount or a dead ledger is unchanged; otherwise current drops by the amount, floored at 0; max is unchanged and validity is kept |
| HealthLedger.Heal | Assets/Scripts/TL_4_Player/PlayerHealth.cs:37-43 | a non-positive amount or a dead ledger is unchanged; otherwise current rises to min(current + amount, max); an overflowing 32-bit sum wraps negative and clamps to 0 |
| HealthLedger.ResizePreserve | Assets/Scripts/TL_4_Player/PlayerHealth.cs:85-92 | a non-positive new max is ignored; otherwise max becomes newMax and current becomes min(current, newMax) |
| HealthLedger.RepeatDamage | Assets/Scripts/EnemyHealthSimple.cs:24-28 | repeated damage keeps the ledger valid and its max, and never raises current |
| HealthLedger.RepeatDamageClosedForm | Assets/Scripts/EnemyHealthSimple.cs:24-28 | k hits of a positive amount remove k * amount, stopping at 0; a non-positive amount removes nothing |
| HealthLedger.RepeatDamageStaysDead | Assets/Scripts/EnemyHealthSimple.cs:26 | once repeated damage has killed the ledger, more damage keeps it dead |
| HealthLedger.DamageAll | Assets/Scripts/TL_4_Player/PlayerHealth.cs:55-75 | any sequence of damage calls keeps 0 <= current <= max and the max |
| HealthLedger.DamageAllNonIncreasing | Assets/Scripts/TL_4_Player/PlayerHealth.cs:55-75 | health never increases over a sequence of damage calls |
| HealthLedger.DeathSignalledAtMostOnce | Assets/Scripts/TL_4_Player/PlayerHealth.cs:57-72 | over any sequence of damage calls the death handler runs exactly once if the ledger goes from alive to dead, and never otherwise |
| HealthLedger.DeadStaysDead | Assets/Scripts/TL_4_Player/PlayerHealth.cs:57-60 | damage calls on a dead ledger change nothing and signal no death |
| Tl4PlayerHealth.PlayerHealth.constructor | Assets/Scripts/TL_4_Player/PlayerHealth.cs:25-28 | Awake clamps the serialized current value into [0, max] |
| Tl4PlayerHealth.PlayerHealth.IsAlive | Assets/Scripts/TL_4_Player/PlayerHealth.cs:32 | alive iff health is positive; on a valid ledger, iff it is not 0 |
| Tl4PlayerHealth.PlayerHealth.Heal | Assets/Scripts/TL_4_Player/PlayerHealth.cs:35-52 | the new ledger follows the heal rule; the result is the amount actually healed; the death count is unchanged |
| Tl4PlayerHealth.PlayerHealth.TakeDamage | Assets/Scripts/TL_4_Player/PlayerHealth.cs:55-75 | the new ledger follows the damage rule; the result is the damage actually taken; the death handler runs exactly on the alive-to-dead call |
| Tl4PlayerHealth.PlayerHealth.ApplyDamage | Assets/Scripts/TL_4_Player/PlayerHealth.cs:77-80 | the same state change as TakeDamage |
| Tl4PlayerHealth.PlayerHealth.SetMaxHealthPreserveCurrent | Assets/Scripts/TL_4_Player/PlayerHealth.cs:83-96 | the ledger follows the resize rule; a non-positive max changes nothing |
| Tl4PlayerHealth.PlayerHealth.HandleDeath | Assets/Scripts/TL_4_Player/PlayerHealth.cs:99-104 | the death signal is raised once |
| EnemyHealth.EnemyHealthSimple.constructor | Assets/Scripts/EnemyHealthSimple.cs:19-22 | Awake clamps the current value into [0, max] |
| EnemyHealth.EnemyHealthSimple.Default | Assets/Scripts/EnemyHealthSimple.cs:12-22 | a component left at its inspector defaults has 50 of 50 after Awake and is alive |
| EnemyHealth.EnemyHealthSimple.IsAlive | Assets/Scripts/EnemyHealthSimple.cs:17 | alive iff health is positive; on a valid ledger, iff it is not 0 |
| EnemyHealth.EnemyHealthSimple.ApplyDamage | Assets/Scripts/EnemyHealthSimple.cs:24-28 | the new ledger follows the damage rule, keeping 0 <= current <= max |
| Damageable.Damageable.CurrentHealth | Assets/Scripts/TL_4_Player/IDamageable.cs:11 | the implementing component's current value, within [0, max] |
| Damageable.Damageable.MaxHealth | Assets/Scripts/TL_4_Player/IDamageable.cs:14 | the implementing component's maximum, never negative and at least the current value |
| Damageable.Damageable.IsAlive | Assets/Scripts/TL_4_Player/IDamageable.cs:17 | the implementing component's own liveness test; on a valid target, alive iff current is not 0 |
| Damageable.Strike | Assets/Scripts/TL_4_Player/IDamageable.cs:19-20 | one damage application: health follows the damage rule, and the death count rises by one exactly when a player target goes from alive to dead |
| Damageable.RepeatStrikeHealth | Assets/Scripts/TL_4_Player/PlayerCombatController.cs:35-45 | repeated strikes change health exactly as repeated damage does |
| Damageable.RepeatStrikeDeaths | Assets/Scripts/TL_4_Player/PlayerCombatController.cs:35-53 | however many strikes land on one target, its death handler runs at most once, exactly when it goes from alive to dead |
| Damageable.SameRefSameTarget | Assets/Scripts/TL_4_Player/IDamageable.cs:8-21 | two capability values share a component exactly when they are equal |
| Damageable.ApplyDamage | Assets/Scripts/TL_4_Player/IDamageable.cs:20 | dispatch to the implementing component: the target's status follows Strike and it stays valid |
| Tl4Combat.HitsOnMonotone | Assets/Scripts/TL_4_Player/PlayerCombatController.cs:35-45 | the number of qualifying records for a target never decreases along the record sequence |
| Tl4Combat.DefeatedAtMostOnce | Assets/Scripts/TL_4_Player/PlayerCombatController.cs:40-53 | a later record aliasing an already defeated target finds it dead and cannot defeat it again |
| Tl4Combat.ZeroDamageDefeatsNothing | Assets/Scripts/TL_4_Player/PlayerCombatController.cs:45-50 | with non-positive attack damage no target changes and no record defeats anything |
| Tl4Combat.EventsMatchDefeatCount | Assets/Scripts/TL_4_Player/PlayerCombatController.cs:40-52 | a strictly increasing list of record indices that holds exactly the defeating records has one entry per defeating record: no defeat event is duplicated or missed |
| Tl4Combat.PlayerCombatController.constructor | Assets/Scripts/TL_4_Player/PlayerCombatController.cs:15-16 | the range and damage as configured; enabled |
| Tl4Combat.PlayerCombatController.HandleAttackInput | Assets/Scripts/TL_4_Player/PlayerCombatController.cs:22-28 | without the key no target changes and no event is raised; with it, PerformAttack's whole effect: every target loses the damage once per qualifying record referring to it, a player target's death handler runs once if it dies, and the defeat events come in record order, exactly for the records that take their target from alive to dead, one per such record |
| Tl4Combat.PlayerCombatController.StrikeRecord | Assets/Scripts/TL_4_Player/PlayerCombatController.cs:37-53 | one loop iteration: only this record's target changes, by one strike when the record qualifies; it reports a defeat exactly when this record takes the target from alive to dead |
| Tl4Combat.PlayerCombatController.PerformAttack | Assets/Scripts/TL_4_Player/PlayerCombatController.cs:31-55 | every target loses the damage once per qualifying record referring to it; a player target's death handler runs once if it dies; defeat events are raised in record order, exactly for the records that take their target from alive to dead, carrying that record's enemy, so their number is the number of defeating records |
| Tl4ContactDamage.NextDamageTime | Assets/Scripts/TL_4_Player/PlayerContactDamage.cs:39-51 | a damaging contact opens the next window a cooldown after it; any other contact leaves the gate unchanged |
| Tl4ContactDamage.CoolingDown | Assets/Scripts/TL_4_Player/PlayerContactDamage.cs:39-42 | contacts before the gate time deal no damage and leave the gate unchanged |
| Tl4ContactDamage.OncePerWindow | Assets/Scripts/TL_4_Player/PlayerContactDamage.cs:39-51 | of any contacts within one cooldown window opened by a damaging contact, exactly that first one deals damage |
| Tl4ContactDamage.PlayerContactDamage.constructor | Assets/Scripts/TL_4_Player/PlayerContactDamage.cs:14-24 | the gate starts at 0, so the first enemy contact at any time >= 0 deals damage |
| Tl4ContactDamage.PlayerContactDamage.TryApplyDamage | Assets/Scripts/TL_4_Player/PlayerContactDamage.cs:37-54 | inside the window or without an enemy nothing changes; otherwise the contact damage is applied once through the damage rule and the gate moves to now + cooldown |
| Tl4Movement.PlayerMovementController.constructor | Assets/Scripts/TL_4_Player/PlayerMovementController.cs:14-16 | the multiplier starts at 1 |
| Tl4Movement.PlayerMovementController.GetEffectiveMoveSpeed | Assets/Scripts/TL_4_Player/PlayerMovementController.cs:40-43 | never negative for a non-negative base speed; equals the base speed at multiplier 1 and 0 at multiplier 0; at least the base speed for a multiplier >= 1 |
| Tl4Movement.PlayerMovementController.CurrentSpeedMultiplier | Assets/Scripts/TL_4_Player/PlayerMovementController.cs:46 | never negative; the factor that turns the base speed into the effective speed |
| Tl4Movement.PlayerMovementController.SetSpeedMultiplier | Assets/Scripts/TL_4_Player/PlayerMovementController.cs:49-52 | stores max(0, multiplier), so the multiplier is never negative |
| Tl4Movement.PlayerMovementController.ResetSpeedMultiplier | Assets/Scripts/TL_4_Player/PlayerMovementController.cs:55-58 | the multiplier is back to 1 |
| Tl4PowerUp.Activate | Assets/Scripts/TL_4_Player/PlayerPowerUp.cs:58-80 | no effect while active; otherwise active with a pending timer, max raised by the profile bonus (32-bit) keeping current, multiplier scaled by the profile factor |
| Tl4PowerUp.Deactivate | Assets/Scripts/TL_4_Player/PlayerPowerUp.cs:83-103 | no effect while inactive; otherwise inactive, timer cancelled, max lowered by the bonus through the resize rule, multiplier reset to 1 |
| Tl4PowerUp.Expire | Assets/Scripts/TL_4_Player/PlayerPowerUp.cs:106-110 | a pending timer deactivates; a cancelled one does nothing |
| Tl4PowerUp.NoStacking | Assets/Scripts/TL_4_Player/PlayerPowerUp.cs:60-62 | a second activation leaves the state of the first |
| Tl4PowerUp.ExpiryAfterDeactivation | Assets/Scripts/TL_4_Player/PlayerPowerUp.cs:100-110 | the timer's expiry after a manual deactivation changes nothing |
| Tl4PowerUp.RoundTrip | Assets/Scripts/TL_4_Player/PlayerPowerUp.cs:74-96 | activate then deactivate restores the health ledger when max is positive and leaves room for the bonus; it always ends inactive at multiplier 1; from max 0 the bonus stays |
| Tl4PowerUp.PlayerPowerUp.constructor | Assets/Scripts/TL_4_Player/PlayerPowerUp.cs:32-46 | inactive, with the enhanced profile (50, 3, 10) |
| Tl4PowerUp.PlayerPowerUp.ActivatePower | Assets/Scripts/TL_4_Player/PlayerPowerUp.cs:58-80 | the health and multiplier state follows Activate; the timer runs for the override if given, otherwise for the profile duration |
| Tl4PowerUp.PlayerPowerUp.DeactivatePower | Assets/Scripts/TL_4_Player/PlayerPowerUp.cs:83-103 | the state follows Deactivate |
| Tl4PowerUp.PlayerPowerUp.TimerExpired | Assets/Scripts/TL_4_Player/PlayerPowerUp.cs:106-110 | the state follows Expire |
| Tl4PlayerController.NotifyTimesClosedForm | Assets/Scripts/TL_4_Player/PlayerController.cs:64-71 | n defeat events raise the counter by exactly n (no deduplication); the game is won iff it already was or the final count meets the condition |
| Tl4PlayerController.NoEarlyWin | Assets/Scripts/TL_4_Player/PlayerController.cs:77-79 | fewer defeats than the enemy count never win |
| Tl4PlayerController.PlayerController.constructor | Assets/Scripts/TL_4_Player/PlayerController.cs:32-49 | the enemy count is captured once; no defeats; not won |
| Tl4PlayerController.PlayerController.TriggerWin | Assets/Scripts/TL_4_Player/PlayerController.cs:102-114 | the win flag is set; only the first call disables movement and combat |
| Tl4PlayerController.PlayerController.CheckWinCondition | Assets/Scripts/TL_4_Player/PlayerController.cs:74-99 | won iff already won, or all enemies are defeated and, when a location is required, one is assigned and the player is within its radius |
| Tl4PlayerController.PlayerController.HandleEnemyDefeated | Assets/Scripts/TL_4_Player/PlayerController.cs:64-71 | one defeat event: the counter rises by one and the win is checked |
| Tl4PlayerController.PlayerController.NotifyDefeats | Assets/Scripts/TL_4_Player/PlayerController.cs:64-71 | n defeat events handled in a row: the progress is NotifyTimes of n, and only the event that wins disables movement and combat |
| Tl4PlayerController.PlayerController.Update | Assets/Scripts/TL_4_Player/PlayerController.cs:52-61 | a dead or winning player changes nothing, and neither does a frame without the attack key; otherwise the targets take the attack as in PerformAttack, the counter rises in this same frame by exactly the number of records that take their target from alive to dead, and the game is won iff the final count meets the condition |
| Tl1PlayerHealth.Rescaled | Assets/Scripts/Player/PlayerHealth.cs:66-69 | the new current value lies in [0, newMax]; it equals newMax without percent mode; with it, it is within 0.5 of newMax * current / max, full stays full and empty stays empty |
| Tl1PlayerHealth.FractionBounds | Assets/Scripts/Player/PlayerHealth.cs:67-69 | the rescaled fraction lies in [0, newMax] and is at an end when current is |
| Tl1PlayerHealth.PlayerHealth.constructor | Assets/Scripts/Player/PlayerHealth.cs:20-23 | Awake clamps the current value into [0, max]; no notifications |
| Tl1PlayerHealth.PlayerHealth.Reset | Assets/Scripts/Player/PlayerHealth.cs:14-18 | back to 100 / 100 |
| Tl1PlayerHealth.PlayerHealth.IsDead | Assets/Scripts/Player/PlayerHealth.cs:27 | on a valid ledger, dead iff current is 0 |
| Tl1PlayerHealth.PlayerHealth.Heal | Assets/Scripts/Player/PlayerHealth.cs:30-42 | the ledger follows the heal rule; the result is the amount healed; a notification is sent iff it is positive |
| Tl1PlayerHealth.PlayerHealth.TakeDamage | Assets/Scripts/Player/PlayerHealth.cs:45-62 | the ledger follows the damage rule; the result is the damage taken; a notification is sent iff it is positive |
| Tl1PlayerHealth.PlayerHealth.SetMaxHealth | Assets/Scripts/Player/PlayerHealth.cs:64-71 | a non-positive max changes nothing; otherwise max becomes newMax, current is Rescaled, and one notification is always sent |
| Tl1PlayerHealth.PlayerHealth.SetMaxHealthKeepingPercent | Assets/Scripts/Player/PlayerHealth.cs:64 | the call without the second argument: SetMaxHealth with the current value keeping its fraction |
| PlayerRecord.Damaged | Assets/Scripts/Player/Player.cs:26-31 | a negative amount is ignored; otherwise the result is never negative and is health - amount floored at 0 when no overflow occurs |
| PlayerRecord.Healed | Assets/Scripts/Player/Player.cs:33-36 | never above 100; equals min(health + amount, 100) without overflow |
| PlayerRecord.DamageAdds | Assets/Scripts/Player/Player.cs:26-31 | two hits on non-negative health do what one hit of their sum does |
| PlayerRecord.Player.constructor | Assets/Scripts/Player/Player.cs:13-17 | health is taken as given |
| PlayerRecord.Player.Default | Assets/Scripts/Player/Player.cs:13 | the default argument gives health 100 |
| PlayerRecord.Player.Move | Assets/Scripts/Player/Player.cs:20-23 | the position is replaced; health is unchanged |
| PlayerRecord.Player.TakeDamage | Assets/Scripts/Player/Player.cs:26-31 | health follows Damaged; the position is unchanged |
| PlayerRecord.Player.Heal | Assets/Scripts/Player/Player.cs:33-36 | health follows Healed; the position is unchanged |
| PlayerRecord.Player.IsAlive | Assets/Scripts/Player/Player.cs:39 | alive iff health is positive: for a non-negative health, iff it is not 0 |
| PlayerRecord.Player.GetHealth | Assets/Scripts/Player/Player.cs:41 | the stored health; positive exactly while the player is alive |
| SimplePlayer.Damaged | Assets/Scripts/Player.cs:22-26 | never negative; health - amount floored at 0 without overflow; a negative amount raises health |
| SimplePlayer.AgreesWithPlayerRecord | Assets/Scripts/Player.cs:22-26 | agrees with the TL_1 record for non-negative amounts and differs for negative ones |
| SimplePlayer.Player.constructor | Assets/Scripts/Player.cs:6-9 | health is taken as given |
| SimplePlayer.Player.Move | Assets/Scripts/Player.cs:11-14 | the position is replaced; health is unchanged |
| SimplePlayer.Player.TakeDamage | Assets/Scripts/Player.cs:22-26 | health follows Damaged; the position is unchanged |
| SimplePlayer.Player.IsAlive | Assets/Scripts/Player.cs:28-31 | alive iff health is positive: for a non-negative health, iff it is not 0 |
| HealthPickup.DestroyDelay | Assets/Scripts/HealthPickup.cs:52 | the clip length when there is a sound and an audio source, 0 otherwise |
| HealthPickup.DelayAfterAwake | Assets/Scripts/HealthPickup.cs:26-31 | after Awake the delay depends only on whether there is a sound |
| HealthPickup.FullHealthNotConsumed | Assets/Scripts/HealthPickup.cs:43-44 | a player at full health or dead gains nothing, so the pickup survives |
| HealthPickup.HealthPickup2D.constructor | Assets/Scripts/HealthPickup.cs:18-32 | an audio source exists after Awake iff one was found or there is a sound |
| HealthPickup.HealthPickup2D.OnTriggerEnter2D | Assets/Scripts/HealthPickup.cs:34-55 | without the tag, a PlayerHealth or the minimum health nothing changes; otherwise one heal by the heal rule, notifying the player iff something was healed; sound and destruction happen only then |
| PowerUpSpawner.FirstEligible | Assets/tst/team_lead_1/HealthPickupTest/Scripts/PowerUpSpawner.cs:23-31 | the lowest threshold index not yet fired and passed by the player, or none |
| PowerUpSpawner.PowerUpSpawner.constructor | Assets/tst/team_lead_1/HealthPickupTest/Scripts/PowerUpSpawner.cs:16-19 | one cleared flag per threshold; index 0 |
| PowerUpSpawner.PowerUpSpawner.SpawnHealthPickup | Assets/tst/team_lead_1/HealthPickupTest/Scripts/PowerUpSpawner.cs:34-42 | with a spawner and positions left, spawns at the next position and advances the index; otherwise nothing |
| PowerUpSpawner.PowerUpSpawner.Update | Assets/tst/team_lead_1/HealthPickupTest/Scripts/PowerUpSpawner.cs:21-32 | exactly the first eligible threshold is marked and one spawn is attempted; with none eligible nothing changes; flags never go back to false |
| Patrol.LeftEdge | Assets/Scripts/EnemyController.cs:52 | one of the two offset positions, never right of the right edge |
| Patrol.RightEdge | Assets/Scripts/EnemyController.cs:53 | the larger of the two offset positions |
| Patrol.Step | Assets/Scripts/EnemyController.cs:58-91 | the enemy heads for the right edge when moving right, the left one otherwise: a step without a turn brings it exactly maxDelta closer to that edge; a turn happens only on the target edge; a step that reaches the edge snaps onto it and turns; the position stays within the edges |
| Patrol.WalkStaysInBounds | Assets/Scripts/EnemyController.cs:58-91 | any run of non-negative steps keeps the enemy within its edges |
| Vectors.Faced | Assets/Scripts/EnemyBullet.cs:22-24 | only x changes; its size is kept and its sign follows the facing |
| EnemyController.EnemyController.constructor | Assets/Scripts/EnemyController.cs:32-54 | edges from the start position and the ordered offsets; heading right |
| EnemyController.EnemyController.Update | Assets/Scripts/EnemyController.cs:58-91 | position and heading follow Patrol.Step; on a turn with a sprite the scale faces the new heading, otherwise it is unchanged |
| EnemyController.EnemyController.LateUpdate | Assets/Scripts/EnemyController.cs:95-99 | the rotation is the identity |
| EnemyMovement.EnemyMovement.constructor | Assets/Scripts/EnemyMovement.cs:14-20 | edges from the start position and the ordered offsets; heading right |
| EnemyMovement.EnemyMovement.Update | Assets/Scripts/EnemyMovement.cs:22-40 | position and heading follow Patrol.Step at the current height; a turn always flips the scale |
| EnemyBullet.EnemyBullet.constructor | Assets/Scripts/EnemyBullet.cs:13 | the direction starts at +1 |
| EnemyBullet.EnemyBullet.SetDirection | Assets/Scripts/EnemyBullet.cs:16-25 | the direction is exactly +1 or -1, +1 iff dir >= 0; the scale faces that way, keeping its size and y, z |
| EnemyShooter.ShotDirection | Assets/Scripts/EnemyShooter.cs:43 | +1 iff the enemy's scale x is >= 0, -1 otherwise |
| EnemyShooter.SignKeepsShotDirection | Assets/Scripts/EnemyShooter.cs:43-58 | the bullet's sign normalisation keeps the shot direction |
| EnemyShooter.Tick | Assets/Scripts/EnemyShooter.cs:28-35 | fires iff timer + dt reaches the rate, then resets to 0; afterwards the timer is 0 or below the rate |
| EnemyShooter.AtMostOneShotPerFrame | Assets/Scripts/EnemyShooter.cs:21-36 | a run of frames fires at most one shot per frame |
| EnemyShooter.ShotsSpacedByRate | Assets/Scripts/EnemyShooter.cs:13-35 | shots are fireRate seconds apart: a run of frames from timer t lasting T seconds fires at most (t + T) / fireRate shots |
| EnemyShooter.EnemyShooter.constructor | Assets/Scripts/EnemyShooter.cs:14-17 | the timer starts at 0 |
| EnemyShooter.EnemyShooter.Shoot | Assets/Scripts/EnemyShooter.cs:39-60 | one bullet is instantiated; when it has an EnemyBullet, its direction is the shot direction and its scale faces that way |
| EnemyShooter.EnemyShooter.Update | Assets/Scripts/EnemyShooter.cs:21-36 | unarmed, nothing changes, not even the timer; armed, the timer follows Tick and a shot fires exactly when Tick says so |
| AttractDemo.Step | Assets/Scripts/AttractVideoDemo.cs:38-48 | input restarts the idle clock; afterwards in the demo iff it was in it without input or the idle time has elapsed |
| AttractDemo.InputEndsDemo | Assets/Scripts/AttractVideoDemo.cs:40-47 | with a positive idle time, a frame with input ends outside the demo |
| AttractDemo.NonPositiveIdleReenters | Assets/Scripts/AttractVideoDemo.cs:40-47 | with an idle time <= 0 the demo comes back in the frame that left it |
| AttractDemo.DemoPersistsWithoutInput | Assets/Scripts/AttractVideoDemo.cs:38-48 | without input the demo, once entered, is never left |
| AttractDemo.AttractVideoDemo.constructor | Assets/Scripts/AttractVideoDemo.cs:22-36 | idle clock started at now, outside the demo, canvas hidden, video looping |
| AttractDemo.AttractVideoDemo.EnterDemo | Assets/Scripts/AttractVideoDemo.cs:64-75 | in the demo; canvas shown and video playing when assigned; time stopped when pausing |
| AttractDemo.AttractVideoDemo.ExitDemo | Assets/Scripts/AttractVideoDemo.cs:77-86 | out of the demo; video stopped and canvas hidden when assigned; time scale 1 again only when pausing |
| AttractDemo.AttractVideoDemo.Update | Assets/Scripts/AttractVideoDemo.cs:38-48 | the idle state follows Step; canvas, video and pause stay consistent with it |
| SoundLibrary.Lookup | Assets/Scripts/audio/SoundLibrary.cs:36-40 | no matching entry gives no clip; a matching first slot answers with its clip |
| SoundLibrary.FirstMatch | Assets/Scripts/audio/SoundLibrary.cs:36-39 | the lowest index of a non-empty entry with the id, or none |
| SoundLibrary.LookupIsFirstMatch | Assets/Scripts/audio/SoundLibrary.cs:36-39 | the lookup answers with the clip of the first matching entry; empty slots never match |
| SoundLibrary.LookupIgnoresLaterSlots | Assets/Scripts/audio/SoundLibrary.cs:36-39 | entries after a match never change the answer |
| SoundLibrary.SoundLibrary.GetSFX | Assets/Scripts/audio/SoundLibrary.cs:34-41 | the clip of the first SFX entry with the id; nothing when none matches |
| SoundLibrary.SoundLibrary.GetBGM | Assets/Scripts/audio/SoundLibrary.cs:44-51 | the same first-match lookup over the BGM table |
| SoundLibrary.SoundLibrary.GetFallbackSFX | Assets/Scripts/audio/SoundLibrary.cs:54 | the configured fallback clip |

## Left out

- Scene reload in `HandleDeath`: the model keeps only the fact that the death handler ran (a counter).
- `OnHealthChanged` of the TL_4 PlayerHealth, `Debug.Log`, `Debug.Assert` and gizmos: presentation only.
- `IDamageable` is a closed variant of its two implementations rather than an open interface, because the model has no open extension point; other implementers are not modelled.
- `Destroy(enemy.gameObject)` in combat and the pickup's `Destroy`: engine-deferred. The pickup keeps a log of requested delays.
- Tints and tint caching of the power-up: visual only.
- `PlayerPowerUp.Update` key polling and `HandleMovementInput` (Rigidbody velocities): input and physics.
- The power-up's Awake/Start ordering: the constructor merges both. Before Start, the stats object is null in the source.
- Float rounding: times, speeds and positions are exact reals. `Tl1PlayerHealth.Rescaled` rounds the exact fraction, ties to even, rather than the float product.
- Tl1PlayerHealth.Rescaled: the source computes `maxHealth * percent` in single precision. Above 2^24 a new maximum is rounded to a float, so "full stays full" and "equals newMax without percent mode" hold only up to 2^24 in the source. At `int.MaxValue` the float is 2^31, `RoundToInt` overflows to a negative int and the clamp leaves current at 0. The model gives newMax.
- Tl1PlayerHealth.Rescaled: with an old maximum of 0 the source computes 0/0 (NaN), whose rounding is platform-defined. The model takes it as 0.
- Constructors of the three health components require a non-negative maximum. The inspector could store a negative one, for which Mathf.Clamp's result is not ordered.
- Tl4PlayerController.PlayerController: the defeat counter is an unbounded natural, not a wrapping 32-bit int. 2^31 defeat events are not reachable.
- Tl4PlayerController.PlayerController.Update: defeat events are counted after the attack loop rather than inside it. The handler writes the controller's counter and win flag and, on a win, the `enabled` flags of movement and combat. The attack loop reads none of these, so the end state is the same.
- The win location's `Vector3.Distance` test: it is a boolean input.
- Enemy movers along y: the EnemyController model assumes the enemy is already at its start height. From any other height, Vector2.MoveTowards splits the step between x and y. The z reset from the Vector2 assignment is not modelled either.
- The bullet's per-frame translation and its timed self-destruction: engine transform and scheduling.
- `Player.Attack` in Assets/Scripts/Player.cs only logs.
- Audio playback, the video URL built from StreamingAssets, and the spawned pickup object: engine objects. Clips are names; spawns are recorded positions.
- SoundLibrary: a null table (the source would throw) and a null id are not modelled. Ids are strings and tables are sequences.
- AttractVideoDemo: `ExitDemo` restores the time scale only when `pauseGameplay` is set, as the code does. The input check is a boolean parameter.
- AttractDemo.AttractVideoDemo.constructor: `Time.timeScale` is engine-global, and other components may write it. The model holds it as a field that only this component writes, starting at 1, so the pause invariant in `Valid` does not cover other writers.
