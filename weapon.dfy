/**
 * The attack cooldown of a weapon (Weapon): `attackSpeed` attacks per
 * second, with an attack allowed once the interval since the last one has
 * passed. A speed of 0 means the weapon does not fire automatically and has
 * no cooldown.
 */
module Weapons {
  import opened Geometry

  /** AttackInterval: seconds between attacks. */
  function AttackInterval(attackSpeed: real): (r: real)
    ensures attackSpeed > 0.0 ==> r > 0.0 && r * attackSpeed == 1.0
    ensures attackSpeed <= 0.0 ==> r == 0.0
  {
    if attackSpeed > 0.0 then 1.0 / attackSpeed else 0.0
  }

  /** AttackTimeRemaining at time `now`, after an attack at `lastAttackTime`. */
  function AttackTimeRemaining(attackSpeed: real, lastAttackTime: real, now: real): real {
    if attackSpeed > 0.0 then AttackInterval(attackSpeed) + lastAttackTime - now else 0.0
  }

  /** CanAttack: no time remains. */
  predicate CanAttack(attackSpeed: real, lastAttackTime: real, now: real) {
    !(AttackTimeRemaining(attackSpeed, lastAttackTime, now) > 0.0)
  }

  predicate IsAutomatic(attackSpeed: real) {
    attackSpeed > 0.0
  }

  /** A weapon with a speed can attack exactly when a whole interval has
      passed since its last attack; a weapon without one always can. */
  lemma CanAttackIffIntervalPassed(attackSpeed: real, lastAttackTime: real, now: real)
    ensures IsAutomatic(attackSpeed) ==>
              (CanAttack(attackSpeed, lastAttackTime, now) <==> now >= lastAttackTime + AttackInterval(attackSpeed))
    ensures !IsAutomatic(attackSpeed) ==> CanAttack(attackSpeed, lastAttackTime, now)
  {
  }

  /** The times of the attacks that succeed when Attack is called at each
      time of `calls` in turn, starting after an attack at `lastAttackTime`. */
  function SuccessfulAttacks(attackSpeed: real, lastAttackTime: real, calls: seq<real>): (r: seq<real>)
    ensures |r| <= |calls|
    ensures forall t :: t in r ==> t in calls
    decreases calls
  {
    if calls == [] then []
    else if CanAttack(attackSpeed, lastAttackTime, calls[0]) then
      [calls[0]] + SuccessfulAttacks(attackSpeed, calls[0], calls[1..])
    else SuccessfulAttacks(attackSpeed, lastAttackTime, calls[1..])
  }

  /** Whatever the calls, successive successful attacks of a weapon with a
      speed are at least one interval apart, and the first is at least one
      interval after the last attack before them. */
  lemma {:induction false} AttacksAreSpaced(attackSpeed: real, lastAttackTime: real, calls: seq<real>)
    requires IsAutomatic(attackSpeed)
    ensures var r := SuccessfulAttacks(attackSpeed, lastAttackTime, calls);
            && (|r| > 0 ==> r[0] >= lastAttackTime + AttackInterval(attackSpeed))
            && forall i | 0 <= i < |r| - 1 :: r[i + 1] >= r[i] + AttackInterval(attackSpeed)
    decreases calls
  {
    if calls != [] {
      if CanAttack(attackSpeed, lastAttackTime, calls[0]) {
        AttacksAreSpaced(attackSpeed, calls[0], calls[1..]);
        CanAttackIffIntervalPassed(attackSpeed, lastAttackTime, calls[0]);
      } else {
        AttacksAreSpaced(attackSpeed, lastAttackTime, calls[1..]);
      }
    }
  }

  /** A weapon without a speed attacks on every call. */
  lemma {:induction false} ManualWeaponAlwaysAttacks(attackSpeed: real, lastAttackTime: real, calls: seq<real>)
    requires !IsAutomatic(attackSpeed)
    ensures SuccessfulAttacks(attackSpeed, lastAttackTime, calls) == calls
    decreases calls
  {
    if calls != [] {
      ManualWeaponAlwaysAttacks(attackSpeed, calls[0], calls[1..]);
    }
  }

  /** One call of the OnAttacking hook: the target and the previous attack time. */
  datatype AttackCall = AttackCall(target: Point, prevAttackTime: real)

  class Weapon {
    var name: string
    const attackSpeed: real
    var lastAttackTime: real
    /** The OnAttacking calls so far, oldest first. */
    var attacks: seq<AttackCall>

    constructor (name: string, attackSpeed: real)
      ensures this.name == name && this.attackSpeed == attackSpeed
      ensures lastAttackTime == 0.0 && attacks == []
    {
      this.name := name;
      this.attackSpeed := attackSpeed;
      lastAttackTime := 0.0;
      attacks := [];
    }

    /** Awake: an empty name becomes the game object's name. */
    method Awake(gameObjectName: string)
      modifies this`name
      ensures name == if old(name) == "" then gameObjectName else old(name)
    {
      if name == "" {
        name := gameObjectName;
      }
    }

    /** Attack at time `now`: when allowed, OnAttacking receives the previous
        attack time and `now` is recorded; otherwise nothing happens. */
    method Attack(target: Point, now: real)
      modifies this`lastAttackTime, this`attacks
      ensures CanAttack(attackSpeed, old(lastAttackTime), now) ==>
                lastAttackTime == now && attacks == old(attacks) + [AttackCall(target, old(lastAttackTime))]
      ensures !CanAttack(attackSpeed, old(lastAttackTime), now) ==>
                lastAttackTime == old(lastAttackTime) && attacks == old(attacks)
    {
      if CanAttack(attackSpeed, lastAttackTime, now) {
        attacks := attacks + [AttackCall(target, lastAttackTime)];
        lastAttackTime := now;
      }
    }
  }
}
