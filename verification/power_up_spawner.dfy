/** The threshold-triggered health pickup spawner
    (Assets/tst/team_lead_1/HealthPickupTest/Scripts/PowerUpSpawner.cs): each x threshold the
    player passes fires once, at most one per frame, and each firing spawns at the next
    configured position while positions last. */
module PowerUpSpawner {
  import opened Optional
  import opened Vectors

  /** A threshold is eligible when it has not fired yet and the player is past it. */
  predicate Eligible(flags: seq<bool>, thresholds: seq<real>, playerX: real, k: nat)
    requires k < |flags| == |thresholds|
  {
    !flags[k] && playerX > thresholds[k]
  }

  /** The lowest eligible threshold at or after `from`, if any. */
  function FirstEligible(flags: seq<bool>, thresholds: seq<real>, playerX: real, from: nat): (r: Option<nat>)
    requires |flags| == |thresholds| && from <= |flags|
    ensures r.Some? ==>
              from <= r.value < |flags| && Eligible(flags, thresholds, playerX, r.value) &&
              forall k | from <= k < r.value :: !Eligible(flags, thresholds, playerX, k)
    ensures r.None? ==> forall k | from <= k < |flags| :: !Eligible(flags, thresholds, playerX, k)
    decreases |flags| - from
  {
    if from == |flags| then None
    else if !flags[from] && playerX > thresholds[from] then Some(from)
    else FirstEligible(flags, thresholds, playerX, from + 1)
  }

  class PowerUpSpawner {
    const spawnX: seq<real>
    const spawnPositions: seq<Vec3>
    /** Whether a GenericSpawner is assigned. */
    const hasSpawner: bool
    var indexSpawnpoint: nat
    var hasSpawned: array<bool>
    /** The positions spawned at, oldest first. */
    var spawned: seq<Vec3>

    /** One flag per threshold; the spawns so far are the first positions, in order. */
    ghost predicate Valid()
      reads this
    {
      hasSpawned.Length == |spawnX| &&
      indexSpawnpoint <= |spawnPositions| && spawned == spawnPositions[..indexSpawnpoint]
    }

    /** The inspector configuration followed by Start: one cleared flag per threshold. */
    constructor(spawnX: seq<real>, spawnPositions: seq<Vec3>, hasSpawner: bool)
      ensures Valid() && fresh(hasSpawned)
      ensures this.spawnX == spawnX && this.spawnPositions == spawnPositions && this.hasSpawner == hasSpawner
      ensures indexSpawnpoint == 0 && hasSpawned[..] == seq(|spawnX|, _ => false)
    {
      this.spawnX := spawnX;
      this.spawnPositions := spawnPositions;
      this.hasSpawner := hasSpawner;
      indexSpawnpoint := 0;
      spawned := [];
      hasSpawned := new bool[|spawnX|](_ => false);
    }

    /** Spawns at the next position and advances the index, unless there are no positions,
        no spawner, or the positions are used up. */
    method SpawnHealthPickup()
      requires Valid()
      modifies this`indexSpawnpoint, this`spawned
      ensures Valid()
      ensures hasSpawner && old(indexSpawnpoint) < |spawnPositions| ==>
                indexSpawnpoint == old(indexSpawnpoint) + 1 && spawned == old(spawned) + [spawnPositions[old(indexSpawnpoint)]]
      ensures !(hasSpawner && old(indexSpawnpoint) < |spawnPositions|) ==>
                indexSpawnpoint == old(indexSpawnpoint) && spawned == old(spawned)
    {
      if |spawnPositions| == 0 || !hasSpawner {
        return;
      }
      if indexSpawnpoint >= |spawnPositions| {
        return;
      }
      spawned := spawned + [spawnPositions[indexSpawnpoint]];
      indexSpawnpoint := indexSpawnpoint + 1;
    }

    /** Update with the player at `playerX`: the lowest eligible threshold is marked, even
        when the spawn itself bails out, and the scan stops there. */
    method Update(playerX: real)
      requires Valid()
      modifies this`indexSpawnpoint, this`spawned, hasSpawned
      ensures Valid()
      ensures var first := FirstEligible(old(hasSpawned[..]), spawnX, playerX, 0);
              (first.None? ==>
                 hasSpawned[..] == old(hasSpawned[..]) && indexSpawnpoint == old(indexSpawnpoint) && spawned == old(spawned)) &&
              (first.Some? ==>
                 hasSpawned[..] == old(hasSpawned[..])[first.value := true] &&
                 (hasSpawner && old(indexSpawnpoint) < |spawnPositions| ==>
                    spawned == old(spawned) + [spawnPositions[old(indexSpawnpoint)]]) &&
                 (!(hasSpawner && old(indexSpawnpoint) < |spawnPositions|) ==> spawned == old(spawned)))
      ensures forall k | 0 <= k < hasSpawned.Length :: old(hasSpawned[k]) ==> hasSpawned[k]
    {
      ghost var flags := hasSpawned[..];
      var i := 0;
      while i < |spawnX|
        invariant 0 <= i <= |spawnX|
        invariant hasSpawned[..] == flags && indexSpawnpoint == old(indexSpawnpoint) && spawned == old(spawned)
        invariant FirstEligible(flags, spawnX, playerX, 0) == FirstEligible(flags, spawnX, playerX, i)
      {
        if !hasSpawned[i] && playerX > spawnX[i] {
          SpawnHealthPickup();
          hasSpawned[i] := true;
          break;
        }
        i := i + 1;
      }
    }
  }
}
