/**
 * The wave spawner (Spawner): every time the accumulated frame time passes a
 * random delay, it spawns a wave of objects at distinct random spawn points,
 * choosing which reference object to spawn either at random or in sequence.
 *
 * The random number generator is a finite sequence of raw draws consumed in
 * order; `RandomRange` turns a raw draw into Unity's integer
 * `Random.Range(min, max)`, whose upper bound is exclusive.
 */
module Spawning {
  import opened Wrappers

  /** Unity's integer Random.Range(min, max) for a raw draw: a value in
      [min, max) when the range is not empty, and min when it is. */
  function RandomRange(raw: int, min: int, max: int): (r: int)
    ensures max > min ==> min <= r < max
    ensures max <= min ==> r == min
  {
    if max > min then min + raw % (max - min) else min
  }

  /** The values `Random.Range(0, pointCount - 1)` can take: the last spawn
      point is never among them. */
  predicate InDrawRange(p: int, pointCount: int) {
    if pointCount - 1 > 0 then 0 <= p < pointCount - 1 else p == 0
  }

  lemma RandomRangeInDrawRange(raw: int, pointCount: int)
    ensures InDrawRange(RandomRange(raw, 0, pointCount - 1), pointCount)
    ensures pointCount >= 1 ==> 0 <= RandomRange(raw, 0, pointCount - 1) < pointCount
    ensures pointCount >= 2 ==> RandomRange(raw, 0, pointCount - 1) != pointCount - 1
  {
  }

  /** How many distinct values `Random.Range(0, pointCount - 1)` can take. */
  function DrawRangeSize(pointCount: int): (n: nat)
    ensures n >= 1
  {
    if pointCount - 1 > 0 then pointCount - 1 else 1
  }

  /** The clamping of objectsPerSpawn at the start of a wave: more than the
      spawn points becomes one less than the spawn points; then more than the
      total to spawn has the total subtracted. */
  function ClampPerSpawn(perSpawn: int, pointCount: int, total: int): int {
    var a := if perSpawn > pointCount then pointCount - 1 else perSpawn;
    if a > total then a - total else a
  }

  /** The clamp never raises the per-spawn count and leaves one that fits
      both the spawn points and the total alone; a count above the spawn
      points becomes one less than the spawn points, and a count (after that
      step) above the total has the total subtracted. */
  lemma ClampPerSpawnEffect(perSpawn: int, pointCount: int, total: int)
    requires perSpawn > 0 && total > 0
    ensures var r := ClampPerSpawn(perSpawn, pointCount, total);
            && r <= perSpawn
            && (perSpawn <= pointCount && perSpawn <= total ==> r == perSpawn)
            && (perSpawn > pointCount ==> r < pointCount)
            && (perSpawn <= pointCount && perSpawn > total ==> r == perSpawn - total)
            && (perSpawn > pointCount && pointCount - 1 > total ==> r == pointCount - 1 - total)
            && (perSpawn > pointCount && pointCount - 1 <= total ==> r == pointCount - 1)
  {
  }

  /** The clamp lets one more object through than there are distinct spawn
      point draws: with as many objects per spawn as spawn points (at least
      two, and within the total), a wave needs `pointCount` distinct draws
      from `pointCount - 1` values. */
  lemma ClampAdmitsOneTooMany(pointCount: int, total: int)
    requires 2 <= pointCount <= total
    ensures ClampPerSpawn(pointCount, pointCount, total) == pointCount
    ensures DrawRangeSize(pointCount) == pointCount - 1
  {
  }

  lemma {:induction false} DistinctSetSize(s: seq<int>)
    requires forall a, b :: 0 <= a < b < |s| ==> s[a] != s[b]
    ensures |set x | x in s| == |s|
  {
    if s != [] {
      DistinctSetSize(s[1..]);
      assert (set x | x in s) == (set x | x in s[1..]) + {s[0]};
    }
  }

  /** The integers 0 .. m - 1. */
  function Below(m: nat): (r: set<int>)
    ensures forall i :: i in r <==> 0 <= i < m
    ensures |r| == m
  {
    if m == 0 then {} else Below(m - 1) + {m - 1}
  }

  lemma IntSubsetSize(x: set<int>, y: set<int>)
    requires x <= y
    ensures |x| <= |y|
  {
    assert y == x + (y - x);
  }

  /** Pairwise distinct spawn point draws number at most `DrawRangeSize`, so a
      wave of more objects cannot finish drawing its spawn points. */
  lemma DistinctDrawsBound(points: seq<int>, pointCount: int)
    requires forall a, b :: 0 <= a < b < |points| ==> points[a] != points[b]
    requires forall j :: 0 <= j < |points| ==> InDrawRange(points[j], pointCount)
    ensures |points| <= DrawRangeSize(pointCount)
  {
    var m := DrawRangeSize(pointCount);
    var drawn := set x | x in points;
    DistinctSetSize(points);
    assert drawn <= Below(m);
    IntSubsetSize(drawn, Below(m));
  }

  // ---------------------------------------------------------------------
  // GetNextIndex
  // ---------------------------------------------------------------------

  /** GetNextIndex on `count` references: 0 when there are none; a random
      index in [0, count - 1) in random mode; otherwise the stored index
      advances while it is below `count`, and restarts at 0. Gives the new
      stored index and the result. */
  function NextIndex(count: nat, spawnRandomly: bool, index: Option<int>, draw: int): (Option<int>, int) {
    if count < 1 then (index, 0)
    else if spawnRandomly then (index, RandomRange(draw, 0, count - 1))
    else
      var i := if index.Some? && index.value < count then index.value + 1 else 0;
      (Some(i), i)
  }

  lemma NextIndexWithoutReferences(spawnRandomly: bool, index: Option<int>, draw: int)
    ensures NextIndex(0, spawnRandomly, index, draw) == (index, 0)
  {
  }

  /** In random mode the index is always a valid reference other than the
      last one (unless there is only one). */
  lemma RandomIndexInRange(count: nat, index: Option<int>, draw: int)
    requires count >= 1
    ensures var (i, r) := NextIndex(count, true, index, draw);
            i == index && 0 <= r < count && (count >= 2 ==> r < count - 1)
  {
  }

  /** The stored index after `n` sequential calls starting from `index`. */
  function SequentialIndex(count: nat, index: Option<int>, n: nat): Option<int> {
    if n == 0 then index else NextIndex(count, false, SequentialIndex(count, index, n - 1), 0).0
  }

  /** From the unset index, sequential mode counts 0, 1, ..., count: it runs through count + 1
      values, one more than there are references. */
  lemma {:induction false} SequentialIndexCounts(count: nat, n: nat)
    requires count >= 1 && 1 <= n <= count + 1
    ensures SequentialIndex(count, None, n) == Some(n - 1)
  {
    if n > 1 {
      SequentialIndexCounts(count, n - 1);
    }
  }

  /** ... and then starts over at 0. */
  lemma {:induction false} SequentialIndexRepeats(count: nat, n: nat)
    requires count >= 1 && n >= 1
    ensures SequentialIndex(count, None, n + count + 1) == SequentialIndex(count, None, n)
  {
    if n == 1 {
      SequentialIndexCounts(count, count + 1);
    } else {
      SequentialIndexRepeats(count, n - 1);
    }
  }

  /** The (count + 1)-th sequential call returns `count`, which is not a
      valid reference index. */
  lemma SequentialIndexOverruns(count: nat)
    requires count >= 1
    ensures NextIndex(count, false, SequentialIndex(count, None, count), 0).1 == count
  {
    SequentialIndexCounts(count, count + 1);
  }

  // ---------------------------------------------------------------------
  // Waves
  // ---------------------------------------------------------------------

  /** One spawned object: its spawn point and its reference index. */
  datatype Spawn = Spawn(point: int, reference: int)

  /** A wave's spawn points are pairwise distinct values of the spawn point
      draw, and its references are valid indexes of the reference array. */
  predicate ValidWave(wave: seq<Spawn>, pointCount: int, referenceCount: int) {
    && (forall a, b :: 0 <= a < b < |wave| ==> wave[a].point != wave[b].point)
    && (forall j :: 0 <= j < |wave| ==> InDrawRange(wave[j].point, pointCount))
    && (forall j :: 0 <= j < |wave| ==> 0 <= wave[j].reference < referenceCount)
  }

  /** A valid wave stays valid when an object at a spawn point not used by
      the wave is added with a valid reference. */
  lemma ValidWaveExtend(wave: seq<Spawn>, pointCount: int, referenceCount: int, used: seq<int>, s: Spawn)
    requires ValidWave(wave, pointCount, referenceCount)
    requires |used| == |wave| && forall j :: 0 <= j < |wave| ==> wave[j].point == used[j]
    requires s.point !in used && InDrawRange(s.point, pointCount) && 0 <= s.reference < referenceCount
    ensures ValidWave(wave + [s], pointCount, referenceCount)
  {
    var w := wave + [s];
    forall a, b | 0 <= a < b < |w| ensures w[a].point != w[b].point {
      if b == |wave| {
        assert w[a].point == used[a];
      }
    }
  }

  /** In sequential mode, object `j` of a wave gets the stored index after
      `j + 1` calls of GetNextIndex from `index`. */
  predicate SequentialReferences(wave: seq<Spawn>, count: nat, index: Option<int>) {
    forall j :: 0 <= j < |wave| ==> Some(wave[j].reference) == SequentialIndex(count, index, j + 1)
  }

  lemma SequentialReferencesExtend(wave: seq<Spawn>, count: nat, index: Option<int>, s: Spawn)
    requires SequentialReferences(wave, count, index)
    requires Some(s.reference) == SequentialIndex(count, index, |wave| + 1)
    ensures SequentialReferences(wave + [s], count, index)
  {
  }

  /** Whether a wave that stopped with `outcome` had taken a reference index
      for the object it was spawning when it stopped. */
  predicate TookReference(outcome: Outcome) {
    outcome == Faulted(IndexOutOfRange) || outcome == Faulted(NullReference)
  }

  /** When each reference of a wave is a valid index and the stored index
      after that object, the stored index never reached `count` on the way. */
  lemma ValidReferencesNeverReachCount(count: nat, index: Option<int>, wave: seq<Spawn>)
    requires forall j :: 0 <= j < |wave| ==> 0 <= wave[j].reference < count
    requires SequentialReferences(wave, count, index)
    ensures forall j :: 1 <= j <= |wave| ==> SequentialIndex(count, index, j) != Some(count)
  {
    forall j | 1 <= j <= |wave| ensures SequentialIndex(count, index, j) != Some(count) {
      assert Some(wave[j - 1].reference) == SequentialIndex(count, index, j);
    }
  }

  function Min(a: int, b: int): int { if a < b then a else b }

  /** How many objects a wave of `perSpawn` objects spawns when `spawned`
      are already out and at most `maxOnScreen` are allowed. */
  function WaveSize(perSpawn: int, spawned: int, maxOnScreen: int): (n: nat)
    ensures spawned + n <= maxOnScreen || n == 0
    ensures n <= perSpawn || n == 0
  {
    if perSpawn <= 0 || maxOnScreen - spawned <= 0 then 0 else Min(perSpawn, maxOnScreen - spawned)
  }

  /** The inner do-while of a wave: draw spawn points from `draws[k..]`
      until one not yet `used` in this wave comes up. Returns it with the
      index of the next unused draw, or -1 when the draws run out first. */
  method DrawSpawnPoint(draws: seq<int>, k: nat, pointCount: int, used: seq<int>) returns (spawnPoint: int, next: nat)
    requires k <= |draws|
    ensures k <= next <= |draws|
    ensures spawnPoint == -1 ==>
              next == |draws| && forall j :: k <= j < |draws| ==> RandomRange(draws[j], 0, pointCount - 1) in used
    ensures spawnPoint != -1 ==>
              && k < next && spawnPoint == RandomRange(draws[next - 1], 0, pointCount - 1)
              && spawnPoint !in used && InDrawRange(spawnPoint, pointCount)
              && forall j :: k <= j < next - 1 ==> RandomRange(draws[j], 0, pointCount - 1) in used
  {
    spawnPoint := -1;
    next := k;
    while spawnPoint == -1 && next < |draws|
      invariant k <= next <= |draws|
      invariant spawnPoint == -1 ==> forall j :: k <= j < next ==> RandomRange(draws[j], 0, pointCount - 1) in used
      invariant spawnPoint != -1 ==>
                  && k < next && spawnPoint == RandomRange(draws[next - 1], 0, pointCount - 1) && spawnPoint !in used
                  && forall j :: k <= j < next - 1 ==> RandomRange(draws[j], 0, pointCount - 1) in used
      decreases |draws| - next
    {
      var randomNumber := RandomRange(draws[next], 0, pointCount - 1);
      next := next + 1;
      if randomNumber !in used {
        spawnPoint := randomNumber;
      }
    }
    if spawnPoint != -1 {
      RandomRangeInDrawRange(draws[next - 1], pointCount);
    }
  }

  /** With as many objects per spawn as spawn points (at least two, within
      the total and with room on screen), every wave of pairwise distinct
      spawn point draws is smaller than a completed wave must be: such a
      wave can only end with the draws running out. */
  lemma FullWaveNeverCompletes(wave: seq<Spawn>, pointCount: int, total: int, spawned: int, maxOnScreen: int)
    requires 2 <= pointCount <= total && spawned + pointCount <= maxOnScreen
    requires forall a, b :: 0 <= a < b < |wave| ==> wave[a].point != wave[b].point
    requires forall j :: 0 <= j < |wave| ==> InDrawRange(wave[j].point, pointCount)
    ensures |wave| < WaveSize(ClampPerSpawn(pointCount, pointCount, total), spawned, maxOnScreen)
  {
    var points := seq(|wave|, j requires 0 <= j < |wave| => wave[j].point);
    DistinctDrawsBound(points, pointCount);
  }

  class Spawner {
    /** reference.Length (a missing array counts as empty). */
    const referenceCount: nat
    const spawnRandomly: bool
    /** spawnPoints.Length */
    const pointCount: nat
    const maxObjectsOnScreen: int
    const totalObjectsToSpawn: int
    /** spawnHeadedToTarget is set while aITarget is null: turning each
        spawned object towards the target dereferences null. */
    const headedWithoutTarget: bool

    var objectsPerSpawn: int
    var spawnedObjects: int
    var nextSpawnTime: real
    var currentSpawnTime: real
    var index: Option<int>

    ghost predicate Valid()
      reads this
    {
      && 0 <= spawnedObjects
      && (spawnedObjects <= maxObjectsOnScreen || spawnedObjects == 0)
      && (index.Some? ==> 0 <= index.value <= referenceCount)
    }

    /** The spawner part way through a wave started with `spawned0` objects
        out and stored index `index0`: the objects of `wave` are out, plus
        `extra` counted for an object that faulted; the wave is valid; and
        the stored index is the one after `calls` calls of GetNextIndex, whose
        results in sequential mode are the references of `wave`. */
    ghost predicate WaveSoFar(spawned0: int, index0: Option<int>, wave: seq<Spawn>, extra: nat, calls: nat)
      reads this
    {
      && Valid()
      && spawnedObjects == spawned0 + |wave| + extra
      && ValidWave(wave, pointCount, referenceCount)
      && (spawnRandomly || referenceCount == 0 ==> index == index0)
      && (!spawnRandomly && referenceCount >= 1 ==>
            index == SequentialIndex(referenceCount, index0, calls) && SequentialReferences(wave, referenceCount, index0))
      && (referenceCount == 0 ==> wave == [])
      && (headedWithoutTarget ==> wave == [])
    }

    constructor (referenceCount: nat, spawnRandomly: bool, pointCount: nat,
                 maxObjectsOnScreen: int, totalObjectsToSpawn: int, objectsPerSpawn: int,
                 headedWithoutTarget: bool)
      ensures Valid()
      ensures this.referenceCount == referenceCount && this.spawnRandomly == spawnRandomly
      ensures this.pointCount == pointCount && this.maxObjectsOnScreen == maxObjectsOnScreen
      ensures this.totalObjectsToSpawn == totalObjectsToSpawn && this.objectsPerSpawn == objectsPerSpawn
      ensures this.headedWithoutTarget == headedWithoutTarget
      ensures spawnedObjects == 0 && nextSpawnTime == 0.0 && currentSpawnTime == 0.0 && index.None?
    {
      this.referenceCount := referenceCount;
      this.spawnRandomly := spawnRandomly;
      this.pointCount := pointCount;
      this.maxObjectsOnScreen := maxObjectsOnScreen;
      this.totalObjectsToSpawn := totalObjectsToSpawn;
      this.objectsPerSpawn := objectsPerSpawn;
      this.headedWithoutTarget := headedWithoutTarget;
      spawnedObjects := 0;
      nextSpawnTime := 0.0;
      currentSpawnTime := 0.0;
      index := None;
    }

    /** GetNextIndex; `draw` is the raw random draw, used in random mode only. */
    method GetNextIndex(draw: int) returns (r: int)
      requires Valid()
      modifies this`index
      ensures Valid()
      ensures (index, r) == NextIndex(referenceCount, spawnRandomly, old(index), draw)
    {
      if referenceCount < 1 {
        r := 0;
      } else if spawnRandomly {
        r := RandomRange(draw, 0, referenceCount - 1);
      } else {
        index := Some(if index.Some? && index.value < referenceCount then index.value + 1 else 0);
        r := index.value;
      }
    }

    /** The body of the wave loop for one object: draw an unused spawn
        point, then take the reference index from GetNextIndex (in random
        mode from the draw after the spawn point's), and, when the object is
        to face a missing target, fault with the object already out.
        `next` is the index of the next unused draw. */
    method SpawnOne(draws: seq<int>, k: nat, used: seq<int>) returns (outcome: Outcome, spawn: Spawn, next: nat)
      requires Valid() && k <= |draws|
      modifies this`index
      ensures Valid()
      ensures k <= next <= |draws|
      ensures outcome == Completed || outcome == Faulted(IndexOutOfRange) || outcome == Faulted(DrawsExhausted)
              || outcome == Faulted(NullReference)
      ensures outcome == Completed || outcome == Faulted(NullReference) ==>
                spawn.point !in used && InDrawRange(spawn.point, pointCount) && 0 <= spawn.reference < referenceCount
      ensures outcome == Faulted(IndexOutOfRange) ==> !spawnRandomly || referenceCount == 0
      ensures outcome == Faulted(NullReference) ==> headedWithoutTarget
      ensures headedWithoutTarget ==> outcome != Completed
      ensures outcome == Completed || outcome == Faulted(NullReference) ==>
                var usesDraw := referenceCount >= 1 && spawnRandomly;
                var p := if usesDraw then next - 2 else next - 1;
                && k <= p
                && spawn.point == RandomRange(draws[p], 0, pointCount - 1)
                && (forall j :: k <= j < p ==> RandomRange(draws[j], 0, pointCount - 1) in used)
                && (usesDraw ==> spawn.reference == RandomRange(draws[next - 1], 0, referenceCount - 1))
      ensures spawnRandomly || referenceCount == 0 ==> index == old(index)
      ensures !spawnRandomly && referenceCount >= 1 ==>
                && (outcome == Faulted(DrawsExhausted) ==> index == old(index))
                && (outcome != Faulted(DrawsExhausted) ==> index == NextIndex(referenceCount, false, old(index), 0).0)
                && (outcome == Completed || outcome == Faulted(NullReference) ==> index == Some(spawn.reference))
                && (outcome == Faulted(IndexOutOfRange) ==> index == Some(referenceCount))
    {
      outcome, spawn := Completed, Spawn(-1, 0);
      var spawnPoint;
      spawnPoint, next := DrawSpawnPoint(draws, k, pointCount, used);
      if spawnPoint == -1 {
        outcome := Faulted(DrawsExhausted);
        return;
      }
      var usesDraw := referenceCount >= 1 && spawnRandomly;
      if usesDraw && next == |draws| {
        outcome := Faulted(DrawsExhausted);
        return;
      }
      var referenceIndex := GetNextIndex(if usesDraw then draws[next] else 0);
      if usesDraw {
        next := next + 1;
      }
      if referenceIndex < 0 || referenceIndex >= referenceCount {
        outcome := Faulted(IndexOutOfRange);
        return;
      }
      spawn := Spawn(spawnPoint, referenceIndex);
      if headedWithoutTarget {
        outcome := Faulted(NullReference);
      }
    }

    /** One iteration of the wave loop: when fewer than `maxObjectsOnScreen`
        objects are out, count one more and spawn it, adding its spawn point
        to `used` and the object to the wave. */
    method SpawnStep(draws: seq<int>, k: nat, used: seq<int>, wave: seq<Spawn>, ghost spawned0: int, ghost index0: Option<int>)
      returns (outcome: Outcome, used': seq<int>, wave': seq<Spawn>, next: nat)
      requires k <= |draws|
      requires WaveSoFar(spawned0, index0, wave, 0, |wave|)
      requires |used| == |wave| && forall j :: 0 <= j < |wave| ==> wave[j].point == used[j]
      modifies this`spawnedObjects, this`index
      ensures k <= next <= |draws|
      ensures outcome == Completed ==>
                && WaveSoFar(spawned0, index0, wave', 0, |wave'|)
                && |wave'| == |wave| + (if old(spawnedObjects) < maxObjectsOnScreen then 1 else 0)
                && |used'| == |wave'| && forall j :: 0 <= j < |wave'| ==> wave'[j].point == used'[j]
      ensures outcome != Completed ==>
                && wave' == wave
                && WaveSoFar(spawned0, index0, wave, 1, |wave| + (if TookReference(outcome) then 1 else 0))
                && (outcome == Faulted(IndexOutOfRange) || outcome == Faulted(DrawsExhausted) || outcome == Faulted(NullReference))
                && (outcome == Faulted(IndexOutOfRange) ==> !spawnRandomly || referenceCount == 0)
                && (outcome == Faulted(NullReference) ==> headedWithoutTarget)
                && (outcome == Faulted(IndexOutOfRange) && !spawnRandomly && referenceCount >= 1 ==> index == Some(referenceCount))
    {
      outcome, used', wave', next := Completed, used, wave, k;
      if spawnedObjects < maxObjectsOnScreen {
        spawnedObjects := spawnedObjects + 1;
        var spawn;
        outcome, spawn, next := SpawnOne(draws, k, used);
        if outcome != Completed {
          if !spawnRandomly && referenceCount >= 1 && TookReference(outcome) {
            assert index == SequentialIndex(referenceCount, index0, |wave| + 1);
          }
          return;
        }
        if !spawnRandomly && referenceCount >= 1 {
          assert index == SequentialIndex(referenceCount, index0, |wave| + 1);
          SequentialReferencesExtend(wave, referenceCount, index0, spawn);
        }
        ValidWaveExtend(wave, pointCount, referenceCount, used, spawn);
        used' := used + [spawn.point];
        wave' := wave + [spawn];
      }
    }

    /** The for loop of a wave: spawn up to `objectsPerSpawn` objects while
        fewer than `maxObjectsOnScreen` are out, each at a spawn point not
        yet used in this wave and with the reference from GetNextIndex. */
    method SpawnWave(draws: seq<int>) returns (outcome: Outcome, wave: seq<Spawn>)
      requires Valid()
      modifies this`spawnedObjects, this`index
      ensures Valid()
      ensures spawnedObjects == old(spawnedObjects) + |wave| + (if outcome == Completed then 0 else 1)
      ensures ValidWave(wave, pointCount, referenceCount)
      ensures outcome == Faulted(IndexOutOfRange) ==> !spawnRandomly || referenceCount == 0
      ensures outcome == Completed || outcome == Faulted(IndexOutOfRange) || outcome == Faulted(DrawsExhausted)
              || outcome == Faulted(NullReference)
      ensures outcome == Completed ==> |wave| == WaveSize(objectsPerSpawn, old(spawnedObjects), maxObjectsOnScreen)
      ensures outcome == Faulted(NullReference) ==> headedWithoutTarget
      ensures headedWithoutTarget ==> wave == []
      ensures spawnRandomly || referenceCount == 0 ==> index == old(index)
      ensures referenceCount == 0 && outcome == Completed ==> wave == []
      ensures !spawnRandomly && referenceCount >= 1 ==>
                && index == SequentialIndex(referenceCount, old(index), |wave| + (if TookReference(outcome) then 1 else 0))
                && SequentialReferences(wave, referenceCount, old(index))
                && (outcome == Faulted(IndexOutOfRange) ==> index == Some(referenceCount))
                && (outcome == Completed ==> forall j :: 1 <= j <= |wave| ==> SequentialIndex(referenceCount, old(index), j) != Some(referenceCount))
    {
      outcome := Completed;
      wave := [];
      var previousSpawnLocations: seq<int> := [];
      ghost var spawned0 := spawnedObjects;
      ghost var index0 := index;
      var k := 0;
      var i := 0;
      while i < objectsPerSpawn
        invariant outcome == Completed
        invariant 0 <= i && (i <= objectsPerSpawn || i == 0)
        invariant 0 <= k <= |draws|
        invariant WaveSoFar(spawned0, index0, wave, 0, |wave|)
        invariant |wave| == WaveSize(i, spawned0, maxObjectsOnScreen)
        invariant |previousSpawnLocations| == |wave|
        invariant forall j :: 0 <= j < |wave| ==> wave[j].point == previousSpawnLocations[j]
      {
        outcome, previousSpawnLocations, wave, k := SpawnStep(draws, k, previousSpawnLocations, wave, spawned0, index0);
        if outcome != Completed {
          return;
        }
        i := i + 1;
      }
      if !spawnRandomly && referenceCount >= 1 {
        ValidReferencesNeverReachCount(referenceCount, index0, wave);
      }
    }

    /** Update: one frame of `deltaTime`. `spawnDelay` is the
        Random.Range(minSpawnTime, maxSpawnTime) draw for the next delay and
        `draws` the raw integer draws. Returns the objects spawned. The
        draws running out yields DrawsExhausted; a reference index out of
        range yields IndexOutOfRange after the object was counted. */
    method Update(deltaTime: real, spawnDelay: real, draws: seq<int>) returns (outcome: Outcome, wave: seq<Spawn>)
      requires Valid()
      modifies this
      ensures Valid()
      ensures spawnedObjects >= old(spawnedObjects)
      ensures spawnedObjects == old(spawnedObjects) + |wave| + (if outcome == Completed then 0 else 1)
      ensures ValidWave(wave, pointCount, referenceCount)
      ensures outcome == Faulted(IndexOutOfRange) ==> !spawnRandomly || referenceCount == 0
      ensures outcome == Faulted(NullReference) ==> headedWithoutTarget
      ensures headedWithoutTarget ==> wave == []
      ensures spawnRandomly || referenceCount == 0 ==> index == old(index)
      ensures !spawnRandomly && referenceCount >= 1 ==>
                && index == SequentialIndex(referenceCount, old(index), |wave| + (if TookReference(outcome) then 1 else 0))
                && SequentialReferences(wave, referenceCount, old(index))
                && (outcome == Faulted(IndexOutOfRange) ==> index == Some(referenceCount))
      ensures old(currentSpawnTime) + deltaTime <= old(nextSpawnTime) ==>
                && currentSpawnTime == old(currentSpawnTime) + deltaTime && nextSpawnTime == old(nextSpawnTime)
                && objectsPerSpawn == old(objectsPerSpawn) && spawnedObjects == old(spawnedObjects)
                && index == old(index) && wave == [] && outcome == Completed
      ensures old(currentSpawnTime) + deltaTime > old(nextSpawnTime) ==>
                && currentSpawnTime == 0.0 && nextSpawnTime == spawnDelay
                && (old(objectsPerSpawn) <= 0 || old(spawnedObjects) >= totalObjectsToSpawn ==>
                      objectsPerSpawn == old(objectsPerSpawn) && spawnedObjects == old(spawnedObjects)
                      && index == old(index) && wave == [] && outcome == Completed)
                && (old(objectsPerSpawn) > 0 && old(spawnedObjects) < totalObjectsToSpawn ==>
                      && objectsPerSpawn == ClampPerSpawn(old(objectsPerSpawn), pointCount, totalObjectsToSpawn)
                      && (outcome == Completed ==> |wave| == WaveSize(objectsPerSpawn, old(spawnedObjects), maxObjectsOnScreen)))
    {
      outcome := Completed;
      wave := [];
      currentSpawnTime := currentSpawnTime + deltaTime;
      if currentSpawnTime > nextSpawnTime {
        currentSpawnTime := 0.0;
        nextSpawnTime := spawnDelay;
        if objectsPerSpawn > 0 && spawnedObjects < totalObjectsToSpawn {
          if objectsPerSpawn > pointCount {
            objectsPerSpawn := pointCount - 1;
          }
          objectsPerSpawn := if objectsPerSpawn > totalObjectsToSpawn then objectsPerSpawn - totalObjectsToSpawn else objectsPerSpawn;
          outcome, wave := SpawnWave(draws);
        }
      }
    }
  }
}
