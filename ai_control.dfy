/**
 * The per-frame logic of an AI agent (AIControl): patrolling between
 * waypoints, reacting to threats with a cascade of escape attempts, and the
 * deferred re-check of a threat half a second after a hard escape.
 *
 * The agent's fields live in the class `AIControl`; `State()` gathers them in
 * an `AgentState` value. Every operation is specified by a step function on
 * `AgentState` (`HasWayToMoveSet`, `PickStep`, `FleeStep`, `ThreatStep`,
 * `UpdateStep`), the lemmas state what the source promises about those
 * steps, and each method is proved to perform its step.
 */
module AI {
  import opened Wrappers
  import opened Geometry
  import opened Patrol

  /** Distance to the path end above which the agent still has a way to move. */
  const Accuracy: real := 1.75
  const ThreatDetectionRadius: real := 10.0
  const FleeRadius: real := 10.0
  const FleeSpeed: real := 10.0
  const FleeAngularSpeed: real := 500.0
  const WalkAngularSpeed: real := 120.0
  /** Delay after a hard escape before the threat is handled again. */
  const RecheckDelay: real := 0.5
  /** The random escape search draws at least this many probes. */
  const MinRandomTries: nat := 30

  /** What the engine answers during one call: NavMesh path planning and
      sampling, vector normalisation, and the random draws. */
  datatype Oracle = Oracle(
    calculatePath: Point -> Option<Point>,          // last corner of the path to a goal; None when the path is invalid
    samplePosition: (Point, real) -> Option<Point>, // a walkable point within the given distance of a point, if any
    normalized: Point -> Point,                     // Vector3.normalized
    insideUnitSphere: nat -> Point,                 // the i-th Random.insideUnitSphere draw of the random escape search
    speedFactor: real)                              // the Random.Range(0.75f, 1.5f) draw of SetWalking

  /** The fields of an agent that change after it wakes up. */
  datatype AgentState = AgentState(
    currentGoal: Option<Waypoint>,
    prevWP: Option<Waypoint>,
    beforePrevWP: Option<Waypoint>,
    isFleeing: bool,
    randomFleeTime: real,      // time of the last hard escape, -1 when no re-check is pending
    hasWayToMove: bool,        // the field behind the HasWayToMove property
    threatPosition: Point,
    destination: Option<Point>, // the NavMeshAgent's destination; None after ResetPath
    speed: real,
    angularSpeed: real)

  // ---------------------------------------------------------------------
  // Invariant
  // ---------------------------------------------------------------------

  /** The current goal and the two before it are distinct waypoints. */
  predicate GoalsDistinct(s: AgentState) {
    && (s.currentGoal.Some? ==> s.currentGoal != s.prevWP && s.currentGoal != s.beforePrevWP)
    && (s.prevWP.Some? ==> s.prevWP != s.beforePrevWP)
  }

  /** Goals come from the registered waypoints, and a fleeing agent runs at
      the fleeing speed towards a destination. */
  ghost predicate Consistent(ws: seq<Waypoint>, s: AgentState) {
    && (s.currentGoal.Some? ==> s.currentGoal.value in ws)
    && (s.prevWP.Some? ==> s.prevWP.value in ws)
    && (s.beforePrevWP.Some? ==> s.beforePrevWP.value in ws)
    && GoalsDistinct(s)
    && (s.isFleeing ==> s.speed == FleeSpeed && s.angularSpeed == FleeAngularSpeed && s.destination.Some?)
  }

  // ---------------------------------------------------------------------
  // Patrol: PickDestination
  // ---------------------------------------------------------------------

  /** PickDestination: query the nearest eligible waypoint with the old
      history, rotate the history, and head for the pick. With no eligible
      waypoint the pick is null and dereferencing it faults after the
      history has been rotated. */
  function PickStep(ws: seq<Waypoint>, s: AgentState, position: Point): (AgentState, Outcome) {
    var pick := NearestEligible(ws, s.currentGoal, s.prevWP, s.beforePrevWP, position);
    var s1 := s.(currentGoal := pick, beforePrevWP := s.prevWP, prevWP := s.currentGoal);
    if pick.None? then (s1, Faulted(NullReference))
    else (s1.(destination := Some(pick.value.pos)), Completed)
  }

  /** The new goal is a registered waypoint other than the current goal and
      the two before it; the history moves back by one. */
  lemma PickNeverRepeatsRecentGoals(ws: seq<Waypoint>, s: AgentState, position: Point)
    ensures var (t, outcome) := PickStep(ws, s, position);
            && t.prevWP == s.currentGoal && t.beforePrevWP == s.prevWP
            && (t.currentGoal.Some? ==>
                  && t.currentGoal.value in ws
                  && t.currentGoal != s.currentGoal && t.currentGoal != s.prevWP && t.currentGoal != s.beforePrevWP
                  && t.destination == Some(t.currentGoal.value.pos) && outcome == Completed)
  {
    NearestEligibleSpec(ws, s.currentGoal, s.prevWP, s.beforePrevWP, position);
  }

  /** There is no fallback: when every waypoint is among the recent goals the
      pick is null, the history is still rotated, the destination is left
      alone and the call faults. */
  lemma PickFaultsWhenAllExcluded(ws: seq<Waypoint>, s: AgentState, position: Point)
    ensures var (t, outcome) := PickStep(ws, s, position);
            && (outcome.Faulted? <==> forall w :: w in ws ==> !Eligible(w, s.currentGoal, s.prevWP, s.beforePrevWP))
            && (outcome.Faulted? ==>
                  outcome.fault == NullReference && t.currentGoal.None? && t.destination == s.destination
                  && t.prevWP == s.currentGoal && t.beforePrevWP == s.prevWP)
  {
    NearestEligibleSpec(ws, s.currentGoal, s.prevWP, s.beforePrevWP, position);
  }

  /** The pick is at minimum distance among eligible waypoints; on a name-sorted
      waypoint list a distance tie goes to the earlier name. */
  lemma PickIsNearestThenEarliestName(ws: seq<Waypoint>, s: AgentState, position: Point, w: Waypoint)
    requires SortedBy(ws, NameOrder())
    requires w in ws && Eligible(w, s.currentGoal, s.prevWP, s.beforePrevWP)
    ensures var (t, _) := PickStep(ws, s, position);
            && t.currentGoal.Some?
            && SqDist(t.currentGoal.value.pos, position) <= SqDist(w.pos, position)
            && (SqDist(t.currentGoal.value.pos, position) == SqDist(w.pos, position) ==>
                  !NameBefore(w.name, t.currentGoal.value.name))
  {
    NearestEligibleSpec(ws, s.currentGoal, s.prevWP, s.beforePrevWP, position);
    TieGoesToEarlierName(ws, s.currentGoal, s.prevWP, s.beforePrevWP, position, w);
  }

  /** With four or more distinct waypoints the pick never faults. */
  lemma PickNeverFaultsWithFourWaypoints(ws: seq<Waypoint>, s: AgentState, position: Point)
    requires |set w | w in ws| >= 4
    ensures PickStep(ws, s, position).1 == Completed
  {
    FourWaypointsNeverExhausted(ws, s.currentGoal, s.prevWP, s.beforePrevWP, position);
  }

  /** A pick with an eligible waypoint available completes with a fresh goal. */
  lemma PickSucceedsWith(ws: seq<Waypoint>, s: AgentState, position: Point, w: Waypoint)
    requires w in ws && Eligible(w, s.currentGoal, s.prevWP, s.beforePrevWP)
    ensures var (t, outcome) := PickStep(ws, s, position);
            && outcome == Completed && t.currentGoal.Some? && t.currentGoal.value in ws
            && t.currentGoal != s.currentGoal && t.currentGoal != s.prevWP && t.currentGoal != s.beforePrevWP
            && t.prevWP == s.currentGoal && t.beforePrevWP == s.prevWP
  {
    PickFaultsWhenAllExcluded(ws, s, position);
    PickNeverRepeatsRecentGoals(ws, s, position);
  }

  lemma ThirdOfThree(a: Waypoint, b: Waypoint, c: Waypoint, x1: Waypoint, x2: Waypoint) returns (y: Waypoint)
    requires a != b && b != c && a != c
    ensures y in [a, b, c] && y != x1 && y != x2
  {
    y := if a != x1 && a != x2 then a else if b != x1 && b != x2 then b else c;
  }

  lemma ThreeGoalsExcludeAll(ws: seq<Waypoint>, a: Waypoint, b: Waypoint, c: Waypoint, s: AgentState)
    requires forall w | w in ws :: w == a || w == b || w == c
    requires s.currentGoal.Some? && s.prevWP.Some? && s.beforePrevWP.Some? && GoalsDistinct(s)
    requires s.currentGoal.value in [a, b, c] && s.prevWP.value in [a, b, c] && s.beforePrevWP.value in [a, b, c]
    ensures forall w | w in ws :: !Eligible(w, s.currentGoal, s.prevWP, s.beforePrevWP)
  {
  }

  /** With exactly three distinct waypoints, starting with no goals, the
      first three picks visit all three and the fourth finds every waypoint
      excluded. */
  lemma {:induction false} ThreeWaypointsFourthPickFaults(ws: seq<Waypoint>, a: Waypoint, b: Waypoint, c: Waypoint, s0: AgentState, position: Point)
    requires a != b && b != c && a != c
    requires a in ws && b in ws && c in ws && forall w | w in ws :: w == a || w == b || w == c
    requires s0.currentGoal.None? && s0.prevWP.None? && s0.beforePrevWP.None?
    ensures var (s1, o1) := PickStep(ws, s0, position);
            var (s2, o2) := PickStep(ws, s1, position);
            var (s3, o3) := PickStep(ws, s2, position);
            var (s4, o4) := PickStep(ws, s3, position);
            o1 == Completed && o2 == Completed && o3 == Completed && o4 == Faulted(NullReference)
  {
    PickSucceedsWith(ws, s0, position, a);
    var (s1, o1) := PickStep(ws, s0, position);
    var x1 := s1.currentGoal.value;
    var y1 := if x1 == a then b else a;
    PickSucceedsWith(ws, s1, position, y1);
    var (s2, o2) := PickStep(ws, s1, position);
    var x2 := s2.currentGoal.value;
    var y2 := ThirdOfThree(a, b, c, x1, x2);
    PickSucceedsWith(ws, s2, position, y2);
    var (s3, o3) := PickStep(ws, s2, position);
    var x3 := s3.currentGoal.value;
    ThreeGoalsExcludeAll(ws, a, b, c, s3);
    PickFaultsWhenAllExcluded(ws, s3, position);
    var (s4, o4) := PickStep(ws, s3, position);
    assert o1 == Completed && o2 == Completed && o3 == Completed && o4 == Faulted(NullReference);
  }

  lemma PickKeepsConsistent(ws: seq<Waypoint>, s: AgentState, position: Point)
    requires Consistent(ws, s)
    ensures Consistent(ws, PickStep(ws, s, position).0)
  {
    PickNeverRepeatsRecentGoals(ws, s, position);
  }

  // ---------------------------------------------------------------------
  // Arrival: the HasWayToMove setter
  // ---------------------------------------------------------------------

  /** The HasWayToMove setter. Nothing happens unless the value changes. On a
      change to true a patrolling agent starts walking at `walkSpeed` (its
      start speed times a random factor); on a change to false a fleeing
      agent's path is reset and any flight and pending re-check end. */
  function HasWayToMoveSet(s: AgentState, value: bool, walkSpeed: real): AgentState {
    if s.hasWayToMove == value then s
    else if value then
      if !s.isFleeing then s.(hasWayToMove := true, speed := walkSpeed, angularSpeed := WalkAngularSpeed)
      else s.(hasWayToMove := true)
    else
      s.(hasWayToMove := false,
         destination := if s.isFleeing then None else s.destination,
         isFleeing := false,
         randomFleeTime := -1.0)
  }

  /** Arriving ends every flight: not fleeing, no re-check pending, and a
      fleeing agent's path is cleared; goals and threat are untouched. */
  lemma ArrivalEndsFlight(s: AgentState, walkSpeed: real)
    requires s.hasWayToMove
    ensures var t := HasWayToMoveSet(s, false, walkSpeed);
            && !t.hasWayToMove && !t.isFleeing && t.randomFleeTime == -1.0
            && (s.isFleeing ==> t.destination.None?)
            && (!s.isFleeing ==> t.destination == s.destination)
            && t.currentGoal == s.currentGoal && t.prevWP == s.prevWP && t.beforePrevWP == s.beforePrevWP
            && t.threatPosition == s.threatPosition
  {
  }

  lemma HasWayToMoveSetKeepsConsistent(ws: seq<Waypoint>, s: AgentState, value: bool, walkSpeed: real)
    requires Consistent(ws, s)
    ensures Consistent(ws, HasWayToMoveSet(s, value, walkSpeed))
  {
  }

  // ---------------------------------------------------------------------
  // Threat response: the escape cascade of FleeFromThreat
  // ---------------------------------------------------------------------

  /** Search distance of the call at nesting `depth`: the first call uses the
      flee radius and every retry halves it. */
  function FleeDistance(depth: nat): (d: real)
    ensures d > 0.0
  {
    if depth == 0 then FleeRadius else FleeDistance(depth - 1) * 0.5
  }

  function Pow2(n: nat): (p: nat)
    ensures p >= 1
  {
    if n == 0 then 1 else 2 * Pow2(n - 1)
  }

  /** The closed form of the halving: the distance at `depth` is the flee
      radius divided by 2 to the power `depth`. */
  lemma {:induction false} FleeDistanceClosedForm(depth: nat)
    ensures FleeDistance(depth) == FleeRadius / (Pow2(depth) as real)
  {
    if depth > 0 {
      FleeDistanceClosedForm(depth - 1);
      var p := Pow2(depth - 1) as real;
      assert Pow2(depth) as real == 2.0 * p;
      calc {
        FleeDistance(depth);
        == FleeDistance(depth - 1) * 0.5;
        == (FleeRadius / p) * 0.5;
        == FleeRadius / (2.0 * p);
      }
    }
  }

  lemma {:induction false} FleeDistanceSmall(depth: nat)
    requires depth >= 4
    ensures FleeDistance(depth) <= 0.625
  {
    if depth > 4 {
      FleeDistanceSmall(depth - 1);
    }
  }

  lemma {:induction false} FleeDistanceLarge(depth: nat)
    requires depth <= 3
    ensures FleeDistance(depth) >= 1.25
  {
    if depth > 0 {
      FleeDistanceLarge(depth - 1);
    }
  }

  /** The random search runs when the distance is below a tenth of the flee
      radius, which first happens on the fifth call (depth 4, distance 0.625),
      so the halving recursion is at most five calls deep. */
  lemma RandomBranchFromFifthCall(depth: nat)
    ensures FleeDistance(depth) < FleeRadius * 0.1 <==> depth >= 4
  {
    if depth >= 4 {
      FleeDistanceSmall(depth);
    } else {
      FleeDistanceLarge(depth);
    }
  }

  function FleeDirection(o: Oracle, position: Point, threatPosition: Point): Point {
    o.normalized(Sub(position, threatPosition))
  }

  /** The point the i-th random probe samples around: a random point of the
      ball of radius `distance * 0.5` centred on the agent. */
  function RandomProbe(o: Oracle, position: Point, distance: real, i: nat): Point {
    Add(Scale(Scale(o.insideUnitSphere(i), distance), 0.5), position)
  }

  predicate ProbeHits(o: Oracle, position: Point, distance: real, i: nat) {
    o.samplePosition(RandomProbe(o, position, distance, i), distance).Some?
  }

  /** The random search loop ends after probe `k`: the first successful probe
      among those numbered 29 and up (so at least 30 probes are drawn). */
  ghost predicate RandomExit(o: Oracle, position: Point, distance: real, k: nat) {
    && k >= MinRandomTries - 1
    && ProbeHits(o, position, distance, k)
    && forall j: nat :: MinRandomTries - 1 <= j < k ==> !ProbeHits(o, position, distance, j)
  }

  /** The random search loop ends at all: some probe numbered 29 or up succeeds. */
  ghost predicate RandomSearchEnds(o: Oracle, position: Point, distance: real) {
    exists k: nat :: k >= MinRandomTries - 1 && ProbeHits(o, position, distance, k)
  }

  lemma {:induction false} FirstHitFrom(o: Oracle, position: Point, distance: real, k: nat)
    requires k >= MinRandomTries - 1 && ProbeHits(o, position, distance, k)
    ensures exists e: nat :: e <= k && RandomExit(o, position, distance, e)
    decreases k
  {
    if k > MinRandomTries - 1 && ProbeHits(o, position, distance, k - 1) {
      FirstHitFrom(o, position, distance, k - 1);
    } else if !RandomExit(o, position, distance, k) {
      var j: nat :| MinRandomTries - 1 <= j < k && ProbeHits(o, position, distance, j);
      FirstHitFrom(o, position, distance, j);
    }
  }

  lemma RandomExitExists(o: Oracle, position: Point, distance: real)
    requires RandomSearchEnds(o, position, distance)
    ensures exists k: nat :: RandomExit(o, position, distance, k)
  {
    var k: nat :| k >= MinRandomTries - 1 && ProbeHits(o, position, distance, k);
    FirstHitFrom(o, position, distance, k);
  }

  lemma RandomExitUnique(o: Oracle, position: Point, distance: real, k1: nat, k2: nat)
    requires RandomExit(o, position, distance, k1) && RandomExit(o, position, distance, k2)
    ensures k1 == k2
  {
  }

  /** When no probe numbered 29 or up succeeds, the loop guard
      `!isFleeing || i < 30` still holds after every number of probes: the
      search never ends. */
  lemma RandomSearchWithoutHitNeverEnds(o: Oracle, position: Point, distance: real, n: nat)
    requires !RandomSearchEnds(o, position, distance)
    requires n > 0
    ensures !ProbeHits(o, position, distance, n - 1) || n < MinRandomTries
  {
  }

  /** The do-while loop of the random escape search: probe random points
      near the agent until a probe succeeds after the first 29. Ends only
      when some probe numbered 29 or up succeeds. */
  method RandomEscapeSearch(o: Oracle, position: Point, distance: real) returns (navHit: Option<Point>, tries: nat)
    requires RandomSearchEnds(o, position, distance)
    ensures tries >= MinRandomTries && RandomExit(o, position, distance, tries - 1)
    ensures navHit == o.samplePosition(RandomProbe(o, position, distance, tries - 1), distance)
    ensures navHit.Some?
  {
    ghost var k: nat :| k >= MinRandomTries - 1 && ProbeHits(o, position, distance, k);
    var i: nat := 0;
    var found := false;
    navHit := None;
    while !found || i < MinRandomTries
      invariant i <= k + 1
      invariant i == 0 ==> !found
      invariant i > 0 ==> navHit == o.samplePosition(RandomProbe(o, position, distance, i - 1), distance)
      invariant found == navHit.Some?
      invariant i == k + 1 ==> found
      invariant forall j: nat :: MinRandomTries - 1 <= j && j + 1 < i ==> !ProbeHits(o, position, distance, j)
      decreases k + 1 - i
    {
      var probe := RandomProbe(o, position, distance, i);
      navHit := o.samplePosition(probe, distance);
      found := navHit.Some?;
      i := i + 1;
    }
    tries := i;
  }

  /** Where the escape cascade ends: the destination, the nesting depth of
      the call that set it, and whether that call ran the random search. */
  datatype Escape = Escape(destination: Point, lastDepth: nat, random: bool)

  /** The cascade started at `depth` ends: some call finds a path or a
      sample, or the random search it reaches ends. */
  ghost predicate EscapeEnds(o: Oracle, position: Point, dir: Point, depth: nat)
    requires depth <= 4
    decreases 4 - depth
  {
    var d := FleeDistance(depth);
    || o.calculatePath(Add(position, Scale(dir, d))).Some?
    || o.samplePosition(dir, d).Some?
    || (if d < FleeRadius * 0.1 then RandomSearchEnds(o, position, d)
        else RandomBranchFromFifthCall(depth); EscapeEnds(o, position, dir, depth + 1))
  }

  /** The cascade of FleeFromThreat at nesting `depth`:
      1. a path towards `position + dir * d` (its last corner);
      2. a walkable sample within `d` of `dir` itself, used as a point;
      3. below a tenth of the flee radius, the random search;
      4. otherwise the same cascade at half the distance. */
  ghost function EscapeFrom(o: Oracle, position: Point, dir: Point, depth: nat): (e: Escape)
    requires depth <= 4 && EscapeEnds(o, position, dir, depth)
    ensures depth <= e.lastDepth <= 4
    ensures e.random ==> e.lastDepth == 4
    decreases 4 - depth
  {
    var d := FleeDistance(depth);
    var path := o.calculatePath(Add(position, Scale(dir, d)));
    var hit := o.samplePosition(dir, d);
    if path.Some? then Escape(path.value, depth, false)
    else if hit.Some? then Escape(hit.value, depth, false)
    else if d < FleeRadius * 0.1 then
      RandomBranchFromFifthCall(depth);
      RandomExitExists(o, position, d);
      var k: nat :| RandomExit(o, position, d, k);
      Escape(o.samplePosition(RandomProbe(o, position, d, k), d).value, depth, true)
    else
      RandomBranchFromFifthCall(depth);
      EscapeFrom(o, position, dir, depth + 1)
  }

  /** The cascade ends with the random search when the path and the
      direction sample both fail and the distance is small. */
  lemma EscapeFromRandom(o: Oracle, position: Point, dir: Point, depth: nat, k: nat)
    requires depth <= 4 && EscapeEnds(o, position, dir, depth)
    requires o.calculatePath(Add(position, Scale(dir, FleeDistance(depth)))).None?
    requires o.samplePosition(dir, FleeDistance(depth)).None?
    requires FleeDistance(depth) < FleeRadius * 0.1
    requires RandomExit(o, position, FleeDistance(depth), k)
    ensures EscapeFrom(o, position, dir, depth)
         == Escape(o.samplePosition(RandomProbe(o, position, FleeDistance(depth), k), FleeDistance(depth)).value, depth, true)
  {
    var d := FleeDistance(depth);
    var k': nat :| RandomExit(o, position, d, k') &&
      EscapeFrom(o, position, dir, depth) == Escape(o.samplePosition(RandomProbe(o, position, d, k'), d).value, depth, true);
    RandomExitUnique(o, position, d, k, k');
  }

  /** When the path and the direction sample both fail at a distance of at
      least a tenth of the flee radius, the cascade retries one level deeper. */
  lemma EscapeFromRetry(o: Oracle, position: Point, dir: Point, depth: nat)
    requires depth <= 4 && EscapeEnds(o, position, dir, depth)
    requires o.calculatePath(Add(position, Scale(dir, FleeDistance(depth)))).None?
    requires o.samplePosition(dir, FleeDistance(depth)).None?
    requires FleeDistance(depth) >= FleeRadius * 0.1
    ensures depth + 1 <= 4 && EscapeEnds(o, position, dir, depth + 1)
    ensures FleeDistance(depth + 1) == FleeDistance(depth) * 0.5
    ensures EscapeFrom(o, position, dir, depth) == EscapeFrom(o, position, dir, depth + 1)
  {
    RandomBranchFromFifthCall(depth);
  }

  /** FleeFromThreat at nesting `depth`: the agent flees, at the fleeing speed,
      to where the cascade ends; a call that recursed or searched randomly
      stamps `randomFleeTime` with the current time. */
  ghost function FleeStep(o: Oracle, s: AgentState, position: Point, depth: nat, now: real): AgentState
    requires depth <= 4 && EscapeEnds(o, position, FleeDirection(o, position, s.threatPosition), depth)
  {
    var e := EscapeFrom(o, position, FleeDirection(o, position, s.threatPosition), depth);
    s.(isFleeing := true,
       destination := Some(e.destination),
       randomFleeTime := if e.lastDepth > depth || e.random then now else s.randomFleeTime,
       speed := FleeSpeed,
       angularSpeed := FleeAngularSpeed)
  }

  /** Starting from the flee radius, the escape is settled within five calls,
      and only the fifth may run the random search. */
  lemma EscapeDepthBounded(o: Oracle, position: Point, dir: Point)
    requires EscapeEnds(o, position, dir, 0)
    ensures var e := EscapeFrom(o, position, dir, 0);
            e.lastDepth <= 4 && (e.random ==> e.lastDepth == 4 && FleeDistance(e.lastDepth) == 0.625)
  {
  }

  /** A direct path wins: no recursion and no re-check is scheduled. */
  lemma DirectPathNeedsNoRecheck(o: Oracle, s: AgentState, position: Point, now: real)
    requires EscapeEnds(o, position, FleeDirection(o, position, s.threatPosition), 0)
    requires o.calculatePath(Add(position, Scale(FleeDirection(o, position, s.threatPosition), FleeRadius))).Some?
    ensures var t := FleeStep(o, s, position, 0, now);
            t.isFleeing && t.randomFleeTime == s.randomFleeTime
            && t.destination == o.calculatePath(Add(position, Scale(FleeDirection(o, position, s.threatPosition), FleeRadius)))
  {
  }

  /** When the direct path fails but sampling around the direction succeeds,
      the sampled point is the destination and nothing is re-checked. */
  lemma SampleFallbackNeedsNoRecheck(o: Oracle, s: AgentState, position: Point, now: real)
    requires EscapeEnds(o, position, FleeDirection(o, position, s.threatPosition), 0)
    requires o.calculatePath(Add(position, Scale(FleeDirection(o, position, s.threatPosition), FleeRadius))).None?
    requires o.samplePosition(FleeDirection(o, position, s.threatPosition), FleeRadius).Some?
    ensures var t := FleeStep(o, s, position, 0, now);
            t.isFleeing && t.randomFleeTime == s.randomFleeTime
            && t.destination == o.samplePosition(FleeDirection(o, position, s.threatPosition), FleeRadius)
  {
  }

  /** When the first call fails both attempts, the escape recurses and a
      re-check is scheduled at the current time. */
  lemma FailedFirstAttemptSchedulesRecheck(o: Oracle, s: AgentState, position: Point, now: real)
    requires EscapeEnds(o, position, FleeDirection(o, position, s.threatPosition), 0)
    requires o.calculatePath(Add(position, Scale(FleeDirection(o, position, s.threatPosition), FleeRadius))).None?
    requires o.samplePosition(FleeDirection(o, position, s.threatPosition), FleeRadius).None?
    ensures FleeStep(o, s, position, 0, now).randomFleeTime == now
  {
    RandomBranchFromFifthCall(0);
  }

  lemma FleeStepKeepsConsistent(ws: seq<Waypoint>, o: Oracle, s: AgentState, position: Point, depth: nat, now: real)
    requires Consistent(ws, s)
    requires depth <= 4 && EscapeEnds(o, position, FleeDirection(o, position, s.threatPosition), depth)
    ensures Consistent(ws, FleeStep(o, s, position, depth, now))
  {
  }

  // ---------------------------------------------------------------------
  // Threat response: DetectThreatAndFlee
  // ---------------------------------------------------------------------

  /** The threat, moved to the agent's height, is closer than the detection
      radius: only the horizontal distance counts. */
  predicate ThreatDetected(position: Point, threatPosition: Point) {
    DistLess(position, WithY(threatPosition, position.y), ThreatDetectionRadius)
  }

  /** Handling `threat` ends: a detected threat leads to an escape cascade that ends. */
  ghost predicate ThreatHandlingEnds(o: Oracle, threat: Point, position: Point) {
    var t := WithY(threat, position.y);
    ThreatDetected(position, t) ==> EscapeEnds(o, position, FleeDirection(o, position, t), 0)
  }

  /** DetectThreatAndFlee: remember the threat at the agent's height; flee
      from it when it is within the detection radius. */
  ghost function ThreatStep(o: Oracle, s: AgentState, threat: Point, position: Point, now: real): AgentState
    requires ThreatHandlingEnds(o, threat, position)
  {
    var s1 := s.(threatPosition := WithY(threat, position.y));
    if ThreatDetected(position, s1.threatPosition) then FleeStep(o, s1, position, 0, now) else s1
  }

  /** A threat at horizontal distance of the detection radius or more causes
      no flight and no rotation of the history, but its position is still
      recorded. */
  lemma DistantThreatOnlyRecorded(o: Oracle, s: AgentState, threat: Point, position: Point, now: real)
    requires !DistLess(position, WithY(threat, position.y), ThreatDetectionRadius)
    ensures ThreatHandlingEnds(o, threat, position)
    ensures ThreatStep(o, s, threat, position, now) == s.(threatPosition := WithY(threat, position.y))
  {
  }

  /** A threat within the detection radius always ends with the agent fleeing
      at the fleeing speed; the patrol history is not touched. */
  lemma NearThreatFlees(o: Oracle, s: AgentState, threat: Point, position: Point, now: real)
    requires DistLess(position, WithY(threat, position.y), ThreatDetectionRadius)
    requires ThreatHandlingEnds(o, threat, position)
    ensures var t := ThreatStep(o, s, threat, position, now);
            && t.isFleeing && t.speed == FleeSpeed && t.angularSpeed == FleeAngularSpeed && t.destination.Some?
            && t.currentGoal == s.currentGoal && t.prevWP == s.prevWP && t.beforePrevWP == s.beforePrevWP
            && t.threatPosition == WithY(threat, position.y)
  {
  }

  lemma ThreatStepKeepsConsistent(ws: seq<Waypoint>, o: Oracle, s: AgentState, threat: Point, position: Point, now: real)
    requires Consistent(ws, s) && ThreatHandlingEnds(o, threat, position)
    ensures Consistent(ws, ThreatStep(o, s, threat, position, now))
  {
    var s1 := s.(threatPosition := WithY(threat, position.y));
    if ThreatDetected(position, s1.threatPosition) {
      FleeStepKeepsConsistent(ws, o, s1, position, 0, now);
    }
  }

  // ---------------------------------------------------------------------
  // The frame: Update
  // ---------------------------------------------------------------------

  /** A deferred re-check is pending and half a second has passed. */
  predicate RecheckDue(s: AgentState, now: real) {
    s.randomFleeTime > 0.0 && now > s.randomFleeTime + RecheckDelay
  }

  /** The arrival check that opens every frame. */
  function ArrivalChecked(s: AgentState, position: Point, pathEnd: Point, walkSpeed: real): AgentState {
    HasWayToMoveSet(s, DistGreater(pathEnd, position, Accuracy), walkSpeed)
  }

  ghost predicate UpdateEnds(o: Oracle, s: AgentState, position: Point, pathEnd: Point, firstSpeed: real, now: real) {
    var s1 := ArrivalChecked(s, position, pathEnd, firstSpeed * o.speedFactor);
    RecheckDue(s1, now) ==> ThreatHandlingEnds(o, s1.threatPosition, position)
  }

  /** Update: check arrival; then either run the due re-check of the stored
      threat and clear the timer, or pick a patrol destination when there is
      no way to move. */
  ghost function UpdateStep(o: Oracle, ws: seq<Waypoint>, firstSpeed: real, s: AgentState, position: Point, pathEnd: Point, now: real): (AgentState, Outcome)
    requires UpdateEnds(o, s, position, pathEnd, firstSpeed, now)
  {
    var s1 := ArrivalChecked(s, position, pathEnd, firstSpeed * o.speedFactor);
    if RecheckDue(s1, now) then
      (ThreatStep(o, s1, s1.threatPosition, position, now).(randomFleeTime := -1.0), Completed)
    else if !s1.hasWayToMove then PickStep(ws, s1, position)
    else (s1, Completed)
  }

  /** A due re-check handles the stored threat again and always clears the
      timer, so a re-check never schedules another one. */
  lemma RecheckRunsOnceAndClears(o: Oracle, ws: seq<Waypoint>, firstSpeed: real, s: AgentState, position: Point, pathEnd: Point, now: real)
    requires UpdateEnds(o, s, position, pathEnd, firstSpeed, now)
    requires RecheckDue(ArrivalChecked(s, position, pathEnd, firstSpeed * o.speedFactor), now)
    ensures var (t, outcome) := UpdateStep(o, ws, firstSpeed, s, position, pathEnd, now);
            t.randomFleeTime == -1.0 && outcome == Completed
            && t.currentGoal == s.currentGoal && t.prevWP == s.prevWP && t.beforePrevWP == s.beforePrevWP
  {
  }

  /** With no re-check due and no way to move, the frame picks a patrol
      destination; with a way to move it does nothing after the arrival check. */
  lemma UpdatePatrolsWhenStopped(o: Oracle, ws: seq<Waypoint>, firstSpeed: real, s: AgentState, position: Point, pathEnd: Point, now: real)
    requires UpdateEnds(o, s, position, pathEnd, firstSpeed, now)
    requires !RecheckDue(ArrivalChecked(s, position, pathEnd, firstSpeed * o.speedFactor), now)
    ensures var s1 := ArrivalChecked(s, position, pathEnd, firstSpeed * o.speedFactor);
            var (t, outcome) := UpdateStep(o, ws, firstSpeed, s, position, pathEnd, now);
            && (!DistGreater(pathEnd, position, Accuracy) ==> (t, outcome) == PickStep(ws, s1, position))
            && (DistGreater(pathEnd, position, Accuracy) ==> t == s1 && outcome == Completed)
  {
  }

  /** Arriving at a flee destination: in the same frame the flight ends, the
      path is reset, and (with four waypoints or more) a patrol goal is picked. */
  lemma ArrivalWhileFleeingResumesPatrol(o: Oracle, ws: seq<Waypoint>, firstSpeed: real, s: AgentState, position: Point, pathEnd: Point, now: real)
    requires s.isFleeing && s.hasWayToMove
    requires !DistGreater(pathEnd, position, Accuracy)
    requires |set w | w in ws| >= 4
    ensures UpdateEnds(o, s, position, pathEnd, firstSpeed, now)
    ensures var (t, outcome) := UpdateStep(o, ws, firstSpeed, s, position, pathEnd, now);
            && !t.isFleeing && t.randomFleeTime == -1.0 && outcome == Completed
            && t.currentGoal.Some? && t.prevWP == s.currentGoal
            && t.destination == Some(t.currentGoal.value.pos)
  {
    var s1 := ArrivalChecked(s, position, pathEnd, firstSpeed * o.speedFactor);
    PickNeverFaultsWithFourWaypoints(ws, s1, position);
    PickNeverRepeatsRecentGoals(ws, s1, position);
  }

  lemma UpdateKeepsConsistent(o: Oracle, ws: seq<Waypoint>, firstSpeed: real, s: AgentState, position: Point, pathEnd: Point, now: real)
    requires Consistent(ws, s) && UpdateEnds(o, s, position, pathEnd, firstSpeed, now)
    ensures Consistent(ws, UpdateStep(o, ws, firstSpeed, s, position, pathEnd, now).0)
  {
    var s1 := ArrivalChecked(s, position, pathEnd, firstSpeed * o.speedFactor);
    HasWayToMoveSetKeepsConsistent(ws, s, DistGreater(pathEnd, position, Accuracy), firstSpeed * o.speedFactor);
    if RecheckDue(s1, now) {
      ThreatStepKeepsConsistent(ws, o, s1, s1.threatPosition, position, now);
    } else if !s1.hasWayToMove {
      PickKeepsConsistent(ws, s1, position);
    }
  }

  // ---------------------------------------------------------------------
  // The agent
  // ---------------------------------------------------------------------

  class AIControl {
    /** The waypoints, sorted by name once when the agent wakes up. */
    const waypoints: seq<Waypoint>
    /** The NavMeshAgent's speed when the agent woke up. */
    const firstSpeed: real

    var currentGoal: Option<Waypoint>
    var prevWP: Option<Waypoint>
    var beforePrevWP: Option<Waypoint>
    var isFleeing: bool
    var randomFleeTime: real
    var isNearToPathEnd: bool
    var threatPosition: Point
    var destination: Option<Point>
    var speed: real
    var angularSpeed: real

    function State(): AgentState
      reads this
    {
      AgentState(currentGoal, prevWP, beforePrevWP, isFleeing, randomFleeTime, isNearToPathEnd,
                 threatPosition, destination, speed, angularSpeed)
    }

    ghost predicate Valid()
      reads this
    {
      SortedBy(waypoints, NameOrder()) && Consistent(waypoints, State())
    }

    /** Awake: the waypoints found by tag, ordered by name; the agent's
        current speed is remembered for walking. */
    constructor (tagged: seq<Waypoint>, agentSpeed: real, agentAngularSpeed: real)
      ensures Valid()
      ensures waypoints == OrderBy(tagged, NameOrder()) && multiset(waypoints) == multiset(tagged)
      ensures firstSpeed == agentSpeed
      ensures State() == AgentState(None, None, None, false, -1.0, false, Zero, None, agentSpeed, agentAngularSpeed)
    {
      waypoints := OrderBy(tagged, NameOrder());
      firstSpeed := agentSpeed;
      currentGoal, prevWP, beforePrevWP := None, None, None;
      isFleeing := false;
      randomFleeTime := -1.0;
      isNearToPathEnd := false;
      threatPosition := Zero;
      destination := None;
      speed, angularSpeed := agentSpeed, agentAngularSpeed;
      NameOrderIsStrictWeak();
      OrderBySorted(tagged, NameOrder());
    }

    /** SetWalking: walk at the start speed times a random factor. */
    method SetWalking(speedFactor: real)
      modifies this
      ensures State() == old(State()).(speed := firstSpeed * speedFactor, angularSpeed := WalkAngularSpeed)
    {
      speed := firstSpeed * speedFactor;
      angularSpeed := WalkAngularSpeed;
    }

    /** The HasWayToMove setter. */
    method SetHasWayToMove(value: bool, speedFactor: real)
      requires Valid()
      modifies this
      ensures Valid()
      ensures State() == HasWayToMoveSet(old(State()), value, firstSpeed * speedFactor)
    {
      if isNearToPathEnd != value {
        isNearToPathEnd := value;
        if isNearToPathEnd {
          if !isFleeing {
            SetWalking(speedFactor);
          }
        } else {
          if isFleeing {
            destination := None;
          }
          isFleeing := false;
          randomFleeTime := -1.0;
        }
      }
      HasWayToMoveSetKeepsConsistent(waypoints, old(State()), value, firstSpeed * speedFactor);
    }

    /** PickDestination. */
    method PickDestination(position: Point) returns (outcome: Outcome)
      requires Valid()
      modifies this
      ensures Valid()
      ensures (State(), outcome) == PickStep(waypoints, old(State()), position)
    {
      var pick := NearestEligible(waypoints, currentGoal, prevWP, beforePrevWP, position);
      var tmpPrev := currentGoal;
      currentGoal := pick;
      beforePrevWP := prevWP;
      prevWP := tmpPrev;
      if currentGoal.None? {
        outcome := Faulted(NullReference);
      } else {
        destination := Some(currentGoal.value.pos);
        outcome := Completed;
      }
      PickKeepsConsistent(waypoints, old(State()), position);
    }

    /** FleeFromThreat(fleeDistance), where `depth` counts the halvings that
        led to this call. */
    method FleeFromThreat(o: Oracle, position: Point, fleeDistance: real, ghost depth: nat, now: real)
      requires Valid()
      requires depth <= 4 && fleeDistance == FleeDistance(depth)
      requires EscapeEnds(o, position, FleeDirection(o, position, threatPosition), depth)
      modifies this
      ensures Valid()
      ensures State() == FleeStep(o, old(State()), position, depth, now)
      decreases 4 - depth
    {
      var fleeDirection := o.normalized(Sub(position, threatPosition));
      ghost var e := EscapeFrom(o, position, fleeDirection, depth);
      var fleeGoal := Add(position, Scale(fleeDirection, fleeDistance));
      var fleePath := o.calculatePath(fleeGoal);
      if fleePath.Some? {
        destination := Some(fleePath.value);
        isFleeing := true;
      } else {
        var navHit := o.samplePosition(fleeDirection, fleeDistance);
        if navHit.Some? {
          destination := Some(navHit.value);
          isFleeing := true;
        } else if fleeDistance < FleeRadius * 0.1 {
          var tries: nat;
          navHit, tries := RandomEscapeSearch(o, position, fleeDistance);
          isFleeing := navHit.Some?;
          randomFleeTime := now;
          if isFleeing {
            destination := Some(navHit.value);
          }
          EscapeFromRandom(o, position, fleeDirection, depth, tries - 1);
        } else {
          EscapeFromRetry(o, position, fleeDirection, depth);
          FleeFromThreat(o, position, fleeDistance * 0.5, depth + 1, now);
          randomFleeTime := now;
        }
      }
      if isFleeing {
        speed := FleeSpeed;
        angularSpeed := FleeAngularSpeed;
      }
      FleeStepKeepsConsistent(waypoints, o, old(State()), position, depth, now);
    }

    /** DetectThreatAndFlee. The agent's smooth turn away from the threat is
        not part of this model. */
    method DetectThreatAndFlee(o: Oracle, threat: Point, position: Point, now: real)
      requires Valid() && ThreatHandlingEnds(o, threat, position)
      modifies this
      ensures Valid()
      ensures State() == ThreatStep(o, old(State()), threat, position, now)
    {
      threatPosition := WithY(threat, position.y);
      if DistLess(position, WithY(threatPosition, position.y), ThreatDetectionRadius) {
        FleeFromThreat(o, position, FleeRadius, 0, now);
      }
      ThreatStepKeepsConsistent(waypoints, o, old(State()), threat, position, now);
    }

    /** Update: one frame. `pathEnd` is the NavMeshAgent's path end position. */
    method Update(o: Oracle, position: Point, pathEnd: Point, now: real) returns (outcome: Outcome)
      requires Valid() && UpdateEnds(o, State(), position, pathEnd, firstSpeed, now)
      modifies this
      ensures Valid()
      ensures (State(), outcome) == UpdateStep(o, waypoints, firstSpeed, old(State()), position, pathEnd, now)
    {
      SetHasWayToMove(DistGreater(pathEnd, position, Accuracy), o.speedFactor);
      ghost var s1 := State();
      assert s1 == ArrivalChecked(old(State()), position, pathEnd, firstSpeed * o.speedFactor);
      if randomFleeTime > 0.0 && now > randomFleeTime + RecheckDelay {
        DetectThreatAndFlee(o, threatPosition, position, now);
        randomFleeTime := -1.0;
        outcome := Completed;
        ghost var u := UpdateStep(o, waypoints, firstSpeed, old(State()), position, pathEnd, now);
        assert u.0 == ThreatStep(o, s1, s1.threatPosition, position, now).(randomFleeTime := -1.0);
        assert u.0 == State();
      } else if !isNearToPathEnd {
        outcome := PickDestination(position);
        assert (State(), outcome) == PickStep(waypoints, s1, position);
      } else {
        outcome := Completed;
        ghost var u := UpdateStep(o, waypoints, firstSpeed, old(State()), position, pathEnd, now);
        assert u.0 == s1 == State();
        assert (State(), outcome) == UpdateStep(o, waypoints, firstSpeed, old(State()), position, pathEnd, now);
      }
    }
  }
}
