/**
 * A navigation agent that follows a target (NavAgentController). Every
 * frame it re-paths to the target, but no more often than once per
 * `updateInterval` seconds and only once the target has moved at least
 * `updateDistance` from where it was at the last re-path. Setting the target
 * re-paths at once; clearing it makes the agent stay where it is.
 *
 * The target is a transform whose position changes on its own, so each call
 * receives the target's current position, the agent's own position and the
 * game time as parameters.
 */
module Navigation {
  import opened Geometry

  const DefaultUpdateInterval: real := 0.5
  const DefaultUpdateDistance: real := 0.5

  /** The controller's state: whether it has a target, the time and target
      position of the last re-path, and the agent's destination. */
  datatype NavState = NavState(hasTarget: bool, lastUpdateTime: real, targetAtUpdate: Point, destination: Point)

  /** The agent's surroundings in one call. */
  datatype Frame = Frame(targetPos: Point, selfPos: Point, now: real)

  /** UpdateDestination: head for the target, or stay in place without one. */
  function Updated(s: NavState, f: Frame): NavState {
    if s.hasTarget then s.(destination := f.targetPos, targetAtUpdate := f.targetPos, lastUpdateTime := f.now)
    else s.(destination := f.selfPos, targetAtUpdate := Zero, lastUpdateTime := f.now)
  }

  /** The guards of CheckAndUpdateDestination all let the re-path through. */
  predicate RepathDue(s: NavState, updateInterval: real, updateDistance: real, f: Frame) {
    s.hasTarget
    && !(s.lastUpdateTime + updateInterval > f.now)
    && !DistLess(f.targetPos, s.targetAtUpdate, updateDistance)
  }

  /** CheckAndUpdateDestination. */
  function Checked(s: NavState, updateInterval: real, updateDistance: real, f: Frame): NavState {
    if RepathDue(s, updateInterval, updateDistance, f) then Updated(s, f) else s
  }

  /** The Target setter: store the target and re-path at once. */
  function TargetSet(s: NavState, hasTarget: bool, f: Frame): NavState {
    Updated(s.(hasTarget := hasTarget), f)
  }

  /** A check changes nothing without a target, before the interval has
      passed, or while the target is within `updateDistance` of where it was;
      otherwise the agent heads for the target's current position. */
  lemma CheckEffect(s: NavState, updateInterval: real, updateDistance: real, f: Frame)
    ensures var r := Checked(s, updateInterval, updateDistance, f);
            && (!s.hasTarget ==> r == s)
            && (s.lastUpdateTime + updateInterval > f.now ==> r == s)
            && (DistLess(f.targetPos, s.targetAtUpdate, updateDistance) ==> r == s)
            && (s.hasTarget && f.now >= s.lastUpdateTime + updateInterval
                && !DistLess(f.targetPos, s.targetAtUpdate, updateDistance) ==>
                  r == s.(destination := f.targetPos, targetAtUpdate := f.targetPos, lastUpdateTime := f.now))
  {
  }

  /** Setting a target re-paths whatever the time of the last re-path;
      clearing it keeps the agent where it stands, and no later check moves
      it. */
  lemma TargetSetEffect(s: NavState, hasTarget: bool, f: Frame, updateInterval: real, updateDistance: real, g: Frame)
    ensures var r := TargetSet(s, hasTarget, f);
            && r.lastUpdateTime == f.now
            && (hasTarget ==> r.destination == f.targetPos && r.targetAtUpdate == f.targetPos)
            && (!hasTarget ==> r.destination == f.selfPos && Checked(r, updateInterval, updateDistance, g) == r)
  {
  }

  /** The state after a check in each frame of `frames` in turn. */
  function Run(s: NavState, updateInterval: real, updateDistance: real, frames: seq<Frame>): NavState
    decreases frames
  {
    if frames == [] then s
    else Run(Checked(s, updateInterval, updateDistance, frames[0]), updateInterval, updateDistance, frames[1..])
  }

  /** The times at which the checks over `frames` re-path. */
  function RepathTimes(s: NavState, updateInterval: real, updateDistance: real, frames: seq<Frame>): (r: seq<real>)
    ensures |r| <= |frames|
    decreases frames
  {
    if frames == [] then []
    else
      var rest := RepathTimes(Checked(s, updateInterval, updateDistance, frames[0]), updateInterval, updateDistance, frames[1..]);
      if RepathDue(s, updateInterval, updateDistance, frames[0]) then [frames[0].now] + rest else rest
  }

  /** However the target moves, the re-paths of successive checks are at
      least `updateInterval` apart, and the first comes at least one interval
      after the last re-path before them. */
  lemma {:induction false} RepathsAreSpaced(s: NavState, updateInterval: real, updateDistance: real, frames: seq<Frame>)
    ensures var r := RepathTimes(s, updateInterval, updateDistance, frames);
            && (|r| > 0 ==> r[0] >= s.lastUpdateTime + updateInterval)
            && forall i | 0 <= i < |r| - 1 :: r[i + 1] >= r[i] + updateInterval
    decreases frames
  {
    if frames != [] {
      var s' := Checked(s, updateInterval, updateDistance, frames[0]);
      RepathsAreSpaced(s', updateInterval, updateDistance, frames[1..]);
      if RepathDue(s, updateInterval, updateDistance, frames[0]) {
        assert s'.lastUpdateTime == frames[0].now;
      } else {
        assert s' == s;
      }
    }
  }

  /** A target that stays where the last re-path found it is never
      re-pathed again, as long as `updateDistance` is positive. */
  lemma {:induction false} StillTargetNotRepathed(s: NavState, updateInterval: real, updateDistance: real, frames: seq<Frame>)
    requires updateDistance > 0.0
    requires forall i | 0 <= i < |frames| :: frames[i].targetPos == s.targetAtUpdate
    ensures RepathTimes(s, updateInterval, updateDistance, frames) == []
    ensures Run(s, updateInterval, updateDistance, frames) == s
    decreases frames
  {
    if frames != [] {
      assert frames[0].targetPos == s.targetAtUpdate;
      DistLessToSelf(s.targetAtUpdate, updateDistance);
      StillTargetNotRepathed(s, updateInterval, updateDistance, frames[1..]);
    }
  }

  class NavAgentController {
    const updateInterval: real
    const updateDistance: real
    var hasTarget: bool
    var lastUpdateTime: real
    var targetAtUpdate: Point
    /** The NavMeshAgent's destination. */
    var destination: Point

    function State(): NavState
      reads this
    {
      NavState(hasTarget, lastUpdateTime, targetAtUpdate, destination)
    }

    /** A fresh controller on an agent standing at `position`. */
    constructor (updateInterval: real, updateDistance: real, position: Point)
      ensures this.updateInterval == updateInterval && this.updateDistance == updateDistance
      ensures State() == NavState(false, 0.0, Zero, position)
    {
      this.updateInterval := updateInterval;
      this.updateDistance := updateDistance;
      hasTarget := false;
      lastUpdateTime := 0.0;
      targetAtUpdate := Zero;
      destination := position;
    }

    method UpdateDestination(f: Frame)
      modifies this`destination, this`targetAtUpdate, this`lastUpdateTime
      ensures State() == Updated(old(State()), f)
    {
      if !hasTarget {
        destination := f.selfPos;
        targetAtUpdate := Zero;
      } else {
        destination := f.targetPos;
        targetAtUpdate := f.targetPos;
      }
      lastUpdateTime := f.now;
    }

    /** The Target setter. */
    method SetTarget(target: bool, f: Frame)
      modifies this
      ensures State() == TargetSet(old(State()), target, f)
    {
      hasTarget := target;
      UpdateDestination(f);
    }

    /** CheckAndUpdateDestination, which Update calls every frame. */
    method CheckAndUpdateDestination(f: Frame)
      modifies this
      ensures State() == Checked(old(State()), updateInterval, updateDistance, f)
    {
      if !hasTarget {
        return;
      }
      if lastUpdateTime + updateInterval > f.now {
        return;
      }
      if DistLess(f.targetPos, targetAtUpdate, updateDistance) {
        return;
      }
      UpdateDestination(f);
    }
  }
}
