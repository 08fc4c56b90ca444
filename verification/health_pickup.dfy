/** The health pickup (Assets/Scripts/HealthPickup.cs): a trigger that heals the TL_1 player
    and is consumed only when the heal restored something. Sound playback and destruction
    are recorded as logs; the destroy delay is the clip length when there is a sound. */
module HealthPickup {
  import opened Int32
  import opened Optional
  import HealthLedger
  import Tl1PlayerHealth

  /** The guard chain before the heal: the collider carries the player tag, has a
      PlayerHealth, and that player's health is at least the minimum. */
  predicate AttemptsHeal(hasPlayerTag: bool, player: Option<HealthLedger.Ledger>, minPlayerHealth: int)
  {
    hasPlayerTag && player.Some? && player.value.current >= minPlayerHealth
  }

  /** The delay before destruction: the clip length when there is a sound and an audio
      source to play it, 0 otherwise. */
  function DestroyDelay(hasPickupSound: bool, hasAudioSource: bool, clipLength: real): (r: real)
    ensures hasPickupSound && hasAudioSource ==> r == clipLength
    ensures !(hasPickupSound && hasAudioSource) ==> r == 0.0
  {
    if hasPickupSound && hasAudioSource then clipLength else 0.0
  }

  /** Awake adds an audio source whenever there is a sound, so after it the delay depends on
      the sound alone. */
  lemma DelayAfterAwake(hadAudioSource: bool, hasPickupSound: bool, clipLength: real)
    ensures DestroyDelay(hasPickupSound, hadAudioSource || hasPickupSound, clipLength) ==
              if hasPickupSound then clipLength else 0.0
  {
  }

  /** A player at full health (or dead) gains nothing, so the pickup is not consumed. */
  lemma FullHealthNotConsumed(l: HealthLedger.Ledger, healAmount: int32)
    requires l.Valid() && (l.current == l.max || l.current == 0)
    ensures HealthLedger.Heal(l, healAmount).current - l.current <= 0
  {
  }

  class HealthPickup2D {
    const healAmount: int32
    const minPlayerHealth: int32
    const hasPickupSound: bool
    const clipLength: real
    /** Whether an AudioSource is present after Awake. */
    const hasAudioSource: bool
    /** The delays of the Destroy requests issued, oldest first. */
    var destroyRequests: seq<real>
    /** How many times the pickup sound was started. */
    var soundsPlayed: nat

    /** Awake: an AudioSource is added when there is a sound and none was found. */
    constructor(healAmount: int32, minPlayerHealth: int32, hasPickupSound: bool, clipLength: real, hadAudioSource: bool)
      ensures this.healAmount == healAmount && this.minPlayerHealth == minPlayerHealth
      ensures this.hasPickupSound == hasPickupSound && this.clipLength == clipLength
      ensures hasAudioSource == (hadAudioSource || hasPickupSound)
      ensures destroyRequests == [] && soundsPlayed == 0
    {
      this.healAmount := healAmount;
      this.minPlayerHealth := minPlayerHealth;
      this.hasPickupSound := hasPickupSound;
      this.clipLength := clipLength;
      hasAudioSource := hadAudioSource || hasPickupSound;
      destroyRequests := [];
      soundsPlayed := 0;
    }

    /** OnTriggerEnter2D for a collider with or without the player tag and a PlayerHealth:
        heals once when the guards pass, and plays the sound and requests destruction only
        when the heal restored something. */
    method OnTriggerEnter2D(hasPlayerTag: bool, player: Option<Tl1PlayerHealth.PlayerHealth>)
      requires player.Some? ==> player.value.Valid()
      modifies this, if player.Some? then {player.value} else {}
      ensures player.Some? ==> player.value.Valid()
      ensures !AttemptsHeal(hasPlayerTag, if player.Some? then Some(old(player.value.Health())) else None, minPlayerHealth) ==>
                destroyRequests == old(destroyRequests) && soundsPlayed == old(soundsPlayed) &&
                (player.Some? ==> player.value.Health() == old(player.value.Health()) &&
                                  player.value.notifications == old(player.value.notifications))
      ensures AttemptsHeal(hasPlayerTag, if player.Some? then Some(old(player.value.Health())) else None, minPlayerHealth) ==>
                var healed := player.value.currentHealth - old(player.value.currentHealth);
                player.value.Health() == HealthLedger.Heal(old(player.value.Health()), healAmount) &&
                player.value.notifications == old(player.value.notifications) +
                  (if healed > 0 then [(player.value.currentHealth as int, player.value.maxHealth as int)] else []) &&
                destroyRequests == old(destroyRequests) + (if healed > 0 then [DestroyDelay(hasPickupSound, hasAudioSource, clipLength)] else []) &&
                soundsPlayed == old(soundsPlayed) + (if healed > 0 && hasPickupSound && hasAudioSource then 1 else 0)
    {
      if !hasPlayerTag {
        return;
      }
      if player.None? {
        return;
      }
      var ph := player.value;
      if ph.currentHealth < minPlayerHealth {
        return;
      }
      var healed := ph.Heal(healAmount);
      if healed <= 0 {
        return;
      }
      if hasPickupSound && hasAudioSource {
        soundsPlayed := soundsPlayed + 1;
      }
      var delay := if hasPickupSound && hasAudioSource then clipLength else 0.0;
      destroyRequests := destroyRequests + [delay];
    }
  }
}
