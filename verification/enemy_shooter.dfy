/** The enemy's automatic gun (Assets/Scripts/EnemyShooter.cs): a timer counting up to the
    fire rate, one shot when it gets there, and each shot sent the way the enemy faces. The
    enemy's facing is its scale's x component, given to each call. */
module EnemyShooter {
  import opened Optional
  import Mathf
  import opened Vectors
  import EnemyBullet

  /** The direction of a shot: +1 when the enemy faces right (scale x at least 0), -1 otherwise. */
  function ShotDirection(scaleX: real): (r: real)
    ensures r == 1.0 || r == -1.0
    ensures r == 1.0 <==> scaleX >= 0.0
  {
    if scaleX >= 0.0 then 1.0 else -1.0
  }

  /** A direction that is already a sign is kept by the bullet's normalisation, so a bullet
      travels exactly the way the enemy faced. */
  lemma SignKeepsShotDirection(scaleX: real)
    ensures Mathf.Sign(ShotDirection(scaleX)) == ShotDirection(scaleX)
  {
  }

  /** The timer rule of Update on values: count up by `deltaTime`; at or past the rate fire
      once and reset to 0. The result is the new timer and whether a shot fired. */
  function Tick(fireTimer: real, deltaTime: real, fireRate: real): (r: (real, bool))
    ensures r.1 <==> fireTimer + deltaTime >= fireRate
    ensures r.1 ==> r.0 == 0.0
    ensures !r.1 ==> r.0 == fireTimer + deltaTime && r.0 < fireRate
    ensures r.0 == 0.0 || r.0 < fireRate
  {
    var t := fireTimer + deltaTime;
    if t >= fireRate then (0.0, true) else (t, false)
  }

  /** The number of shots a run of frames fires, from a given timer. */
  function Shots(fireTimer: real, deltaTimes: seq<real>, fireRate: real): nat
    decreases |deltaTimes|
  {
    if |deltaTimes| == 0 then 0
    else
      var r := Tick(fireTimer, deltaTimes[0], fireRate);
      (if r.1 then 1 else 0) + Shots(r.0, deltaTimes[1..], fireRate)
  }

  /** A run of frames fires at most one shot per frame. */
  lemma {:induction false} AtMostOneShotPerFrame(fireTimer: real, deltaTimes: seq<real>, fireRate: real)
    ensures Shots(fireTimer, deltaTimes, fireRate) <= |deltaTimes|
    decreases |deltaTimes|
  {
    if |deltaTimes| > 0 {
      var r := Tick(fireTimer, deltaTimes[0], fireRate);
      AtMostOneShotPerFrame(r.0, deltaTimes[1..], fireRate);
    }
  }

  /** The total time of a run of frames. */
  function Sum(deltaTimes: seq<real>): real
    decreases |deltaTimes|
  {
    if |deltaTimes| == 0 then 0.0 else deltaTimes[0] + Sum(deltaTimes[1..])
  }

  /** Shots are `fireRate` seconds apart: from a timer of `fireTimer` seconds, a run of frames
      lasting Sum(deltaTimes) seconds fires at most (fireTimer + Sum(deltaTimes)) / fireRate
      shots. */
  lemma {:induction false} ShotsSpacedByRate(fireTimer: real, deltaTimes: seq<real>, fireRate: real)
    requires fireTimer >= 0.0
    requires forall i | 0 <= i < |deltaTimes| :: deltaTimes[i] >= 0.0
    ensures Shots(fireTimer, deltaTimes, fireRate) as real * fireRate <= fireTimer + Sum(deltaTimes)
    decreases |deltaTimes|
  {
    if |deltaTimes| > 0 {
      var rest := deltaTimes[1..];
      assert forall i | 0 <= i < |rest| :: rest[i] == deltaTimes[i + 1];
      var r := Tick(fireTimer, deltaTimes[0], fireRate);
      ShotsSpacedByRate(r.0, rest, fireRate);
      var n := Shots(r.0, rest, fireRate);
      if r.1 {
        assert (1 + n) as real * fireRate == fireRate + n as real * fireRate;
      }
    }
  }

  class EnemyShooter {
    /** Whether the bullet prefab and the fire point are assigned. */
    const hasBulletPrefab: bool
    const hasFirePoint: bool
    const fireRate: real
    /** Whether the prefab carries an EnemyBullet component, and that component's settings. */
    const prefabHasBullet: bool
    const prefabSpeed: real
    const prefabLifeTime: real
    const prefabScale: Vec3
    var fireTimer: real
    /** How many bullets were instantiated. */
    var shotsFired: nat

    constructor(hasBulletPrefab: bool, hasFirePoint: bool, fireRate: real,
                prefabHasBullet: bool, prefabSpeed: real, prefabLifeTime: real, prefabScale: Vec3)
      ensures fireTimer == 0.0 && shotsFired == 0
      ensures this.hasBulletPrefab == hasBulletPrefab && this.hasFirePoint == hasFirePoint && this.fireRate == fireRate
      ensures this.prefabHasBullet == prefabHasBullet && this.prefabSpeed == prefabSpeed
      ensures this.prefabLifeTime == prefabLifeTime && this.prefabScale == prefabScale
    {
      this.hasBulletPrefab := hasBulletPrefab;
      this.hasFirePoint := hasFirePoint;
      this.fireRate := fireRate;
      this.prefabHasBullet := prefabHasBullet;
      this.prefabSpeed := prefabSpeed;
      this.prefabLifeTime := prefabLifeTime;
      this.prefabScale := prefabScale;
      fireTimer := 0.0;
      shotsFired := 0;
    }

    /** Instantiates a bullet; when it has an EnemyBullet, that bullet is sent the way the
        enemy faces and its sprite turned to match. */
    method Shoot(facingScaleX: real) returns (bullet: Option<EnemyBullet.EnemyBullet>)
      modifies this`shotsFired
      ensures shotsFired == old(shotsFired) + 1
      ensures bullet.Some? <==> prefabHasBullet
      ensures bullet.Some? ==>
                fresh(bullet.value) &&
                bullet.value.direction == ShotDirection(facingScaleX) &&
                bullet.value.scale == Faced(prefabScale, facingScaleX >= 0.0) &&
                bullet.value.speed == prefabSpeed && bullet.value.lifeTime == prefabLifeTime
    {
      var dir := if facingScaleX >= 0.0 then 1.0 else -1.0;
      shotsFired := shotsFired + 1;
      if prefabHasBullet {
        var b := new EnemyBullet.EnemyBullet(prefabSpeed, prefabLifeTime, prefabScale);
        b.SetDirection(dir);
        bullet := Some(b);
      } else {
        bullet := None;
      }
    }

    /** One frame of `deltaTime` seconds: unarmed, nothing happens, not even the timer;
        armed, the timer follows Tick and a shot fires exactly when Tick says so. */
    method Update(deltaTime: real, facingScaleX: real) returns (bullet: Option<EnemyBullet.EnemyBullet>)
      modifies this`fireTimer, this`shotsFired
      ensures !(hasBulletPrefab && hasFirePoint) ==>
                fireTimer == old(fireTimer) && shotsFired == old(shotsFired) && bullet.None?
      ensures hasBulletPrefab && hasFirePoint ==>
                var r := Tick(old(fireTimer), deltaTime, fireRate);
                fireTimer == r.0 &&
                shotsFired == old(shotsFired) + (if r.1 then 1 else 0) &&
                (bullet.Some? <==> r.1 && prefabHasBullet)
      ensures hasBulletPrefab && hasFirePoint ==> fireTimer == 0.0 || fireTimer < fireRate
      ensures bullet.Some? ==> fresh(bullet.value) && bullet.value.direction == ShotDirection(facingScaleX)
    {
      bullet := None;
      if !hasBulletPrefab || !hasFirePoint {
        return;
      }
      fireTimer := fireTimer + deltaTime;
      if fireTimer >= fireRate {
        bullet := Shoot(facingScaleX);
        fireTimer := 0.0;
      }
    }
  }
}
