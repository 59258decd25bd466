/**
 * A projectile (Projectile): it counts the distance it has flown since it
 * was enabled, and goes back to its pool once that distance exceeds its
 * range or when it hits a wall.
 */
module Projectiles {

  const WallTag: string := "Wall"
  const DefaultSpeed: real := 1.0
  const DefaultRange: real := 12.0
  const DefaultDamageFactor: int := 5

  /** The distance covered in one physics step of `fixedDeltaTime` seconds. */
  function Travel(speed: real, fixedDeltaTime: real): real {
    speed * fixedDeltaTime
  }

  lemma TravelNonNegative(speed: real, fixedDeltaTime: real)
    requires speed >= 0.0 && fixedDeltaTime >= 0.0
    ensures Travel(speed, fixedDeltaTime) >= 0.0
  {
  }

  /** The distance after a FixedUpdate for each step duration of `steps` in
      turn, starting from `distance`. */
  function DistanceAfter(distance: real, speed: real, steps: seq<real>): real
    decreases steps
  {
    if steps == [] then distance else DistanceAfter(distance + Travel(speed, steps[0]), speed, steps[1..])
  }

  /** Whether the FixedUpdate of each step releases the projectile. */
  function ReleasesOver(distance: real, speed: real, range: real, steps: seq<real>): (r: seq<bool>)
    ensures |r| == |steps|
    decreases steps
  {
    if steps == [] then []
    else
      var d := distance + Travel(speed, steps[0]);
      [d > range] + ReleasesOver(d, speed, range, steps[1..])
  }

  /** With a non-negative speed and step durations the distance never
      shrinks. */
  lemma {:induction false} DistanceNeverShrinks(distance: real, speed: real, steps: seq<real>)
    requires speed >= 0.0
    requires forall i | 0 <= i < |steps| :: steps[i] >= 0.0
    ensures DistanceAfter(distance, speed, steps) >= distance
    decreases steps
  {
    if steps != [] {
      TravelNonNegative(speed, steps[0]);
      DistanceNeverShrinks(distance + Travel(speed, steps[0]), speed, steps[1..]);
    }
  }

  /** Once a step releases the projectile, every later step would release it
      too: the distance stays beyond the range. */
  lemma {:induction false} ReleaseIsPermanent(distance: real, speed: real, range: real, steps: seq<real>, i: int, j: int)
    requires speed >= 0.0
    requires forall k | 0 <= k < |steps| :: steps[k] >= 0.0
    requires 0 <= i <= j < |steps|
    requires ReleasesOver(distance, speed, range, steps)[i]
    ensures ReleasesOver(distance, speed, range, steps)[j]
    decreases steps
  {
    var d := distance + Travel(speed, steps[0]);
    if i == 0 {
      assert d > range;
      if j > 0 {
        ReleasedStaysReleased(d, speed, range, steps[1..], j - 1);
      }
    } else {
      ReleaseIsPermanent(d, speed, range, steps[1..], i - 1, j - 1);
    }
  }

  lemma {:induction false} ReleasedStaysReleased(distance: real, speed: real, range: real, steps: seq<real>, j: int)
    requires speed >= 0.0
    requires forall k | 0 <= k < |steps| :: steps[k] >= 0.0
    requires distance > range
    requires 0 <= j < |steps|
    ensures ReleasesOver(distance, speed, range, steps)[j]
    decreases steps
  {
    TravelNonNegative(speed, steps[0]);
    var d := distance + Travel(speed, steps[0]);
    if j > 0 {
      ReleasedStaysReleased(d, speed, range, steps[1..], j - 1);
    }
  }

  class Projectile {
    const speed: real
    const range: real
    const damageFactor: int
    /** The distance flown since the projectile was enabled. */
    var distance: real

    constructor (speed: real, range: real, damageFactor: int)
      ensures this.speed == speed && this.range == range && this.damageFactor == damageFactor
      ensures distance == 0.0
    {
      this.speed := speed;
      this.range := range;
      this.damageFactor := damageFactor;
      distance := 0.0;
    }

    /** OnEnable: the distance starts over whenever the projectile is taken
        from its pool. */
    method OnEnable()
      modifies this`distance
      ensures distance == 0.0
    {
      distance := 0.0;
    }

    /** FixedUpdate: one physics step; returns whether the projectile is
        released to its pool. */
    method FixedUpdate(fixedDeltaTime: real) returns (release: bool)
      modifies this`distance
      ensures distance == DistanceAfter(old(distance), speed, [fixedDeltaTime])
      ensures release <==> distance > range
      ensures [release] == ReleasesOver(old(distance), speed, range, [fixedDeltaTime])
    {
      distance := distance + Travel(speed, fixedDeltaTime);
      release := distance > range;
    }

    /** OnCollisionEnter: only a wall releases the projectile. */
    method OnCollisionEnter(tag: string) returns (release: bool)
      ensures release <==> tag == WallTag
    {
      release := tag == WallTag;
    }
  }
}
