/**
 * An object that projectiles can hit (Shootable): a hit by an object tagged
 * "Projectile" adds the projectile's damage factor, and the player scores
 * the hit points while the object survives or the kill points when it dies.
 * The score is the game-wide score of the `Game` module.
 */
module Shooting {
  import opened Wrappers
  import opened Game

  const ProjectileTag: string := "Projectile"

  /** What a collision reports about the other object: its tag and, when it
      has a Projectile component, that component's damage factor. */
  datatype Collider = Collider(tag: string, damageFactor: Option<int>)

  /** DropItem's decision for a `roll` of Random.Range(0f, 1f): never without
      a lootable item or with a loot possibility of 0; otherwise when the roll
      is below the possibility. */
  predicate Drops(hasLootableItem: bool, lootPossibility: real, roll: real) {
    if !hasLootableItem || lootPossibility == 0.0 then false else roll < lootPossibility
  }

  lemma DropsOnlyWithLoot(hasLootableItem: bool, lootPossibility: real, roll: real)
    ensures Drops(hasLootableItem, lootPossibility, roll) ==>
              hasLootableItem && lootPossibility != 0.0 && roll < lootPossibility
    ensures hasLootableItem && lootPossibility > 0.0 && roll < lootPossibility ==>
              Drops(hasLootableItem, lootPossibility, roll)
  {
  }

  /** The damage after a hit by `collider`. */
  function DamageAfterHit(damage: real, collider: Collider): real {
    if collider.damageFactor.Some? then damage + collider.damageFactor.value as real else damage
  }

  /** The score a projectile hit earns: the hit points, when positive, while
      the damage stays below the maximum; the kill points once it does not. */
  function HitScore(hitPoint: int, killPoint: int, maxDamage: real, damageAfter: real): int {
    if damageAfter < maxDamage then (if hitPoint > 0 then hitPoint else 0) else killPoint
  }

  /** A surviving object never costs the player score, and a hit without a
      Projectile component cannot kill an object that was alive. */
  lemma HitScoreEffect(hitPoint: int, killPoint: int, maxDamage: real, damage: real, collider: Collider)
    ensures var d := DamageAfterHit(damage, collider);
            && (d < maxDamage ==> HitScore(hitPoint, killPoint, maxDamage, d) >= 0)
            && (d >= maxDamage ==> HitScore(hitPoint, killPoint, maxDamage, d) == killPoint)
            && (collider.damageFactor.None? && damage < maxDamage ==>
                  d == damage && HitScore(hitPoint, killPoint, maxDamage, d) == (if hitPoint > 0 then hitPoint else 0))
            && (collider.damageFactor.Some? && collider.damageFactor.value >= 0 ==> d >= damage)
  {
  }

  class Shootable {
    const hitPoint: int
    const killPoint: int
    const maxDamage: real
    const hasLootableItem: bool
    const lootPossibility: real

    var damage: real
    /** The damage values DamageChanged was raised with, oldest first. */
    var damageChanges: seq<real>
    /** Whether this object was released to its pool. */
    var released: bool

    constructor (hitPoint: int, killPoint: int, maxDamage: real, hasLootableItem: bool, lootPossibility: real)
      ensures this.hitPoint == hitPoint && this.killPoint == killPoint && this.maxDamage == maxDamage
      ensures this.hasLootableItem == hasLootableItem && this.lootPossibility == lootPossibility
      ensures damage == 0.0 && damageChanges == [] && !released
    {
      this.hitPoint := hitPoint;
      this.killPoint := killPoint;
      this.maxDamage := maxDamage;
      this.hasLootableItem := hasLootableItem;
      this.lootPossibility := lootPossibility;
      damage := 0.0;
      damageChanges := [];
      released := false;
    }

    /** The Damage setter: stores a different value, and raises DamageChanged
        on every set, changed or not. */
    method SetDamage(value: real)
      modifies this`damage, this`damageChanges
      ensures damage == value
      ensures damageChanges == old(damageChanges) + [value]
    {
      if damage != value {
        damage := value;
      }
      damageChanges := damageChanges + [damage];
    }

    /** DropItem for a `roll` of Random.Range(0f, 1f). */
    method DropItem(roll: real) returns (dropped: bool)
      ensures dropped == Drops(hasLootableItem, lootPossibility, roll)
    {
      if !hasLootableItem || lootPossibility == 0.0 {
        return false;
      }
      dropped := roll < lootPossibility;
    }

    /** Die: the kill points are added to the score, loot may drop, and the
        object goes back to its pool. */
    method Die(game: GameManager, roll: real) returns (dropped: bool)
      modifies this`released, game
      ensures released
      ensures game.Snapshot() == ScoreSet(old(game.Snapshot()), old(game.score) + killPoint)
      ensures dropped == Drops(hasLootableItem, lootPossibility, roll)
    {
      game.SetScore(game.score + killPoint);
      dropped := DropItem(roll);
      released := true;
    }

    /** CheckIsHitByProjectile. Returns whether the collider was released to
        its pool and whether loot dropped. */
    method CheckIsHitByProjectile(collider: Collider, game: GameManager, roll: real) returns (colliderReleased: bool, dropped: bool)
      modifies this, game
      ensures collider.tag != ProjectileTag ==>
                && !colliderReleased && !dropped
                && damage == old(damage) && damageChanges == old(damageChanges) && released == old(released)
                && game.Snapshot() == old(game.Snapshot())
      ensures collider.tag == ProjectileTag ==>
                && colliderReleased
                && damage == DamageAfterHit(old(damage), collider)
                && damageChanges == old(damageChanges) + (if collider.damageFactor.Some? then [damage] else [])
                && game.Snapshot() == ScoreSet(old(game.Snapshot()), old(game.score) + HitScore(hitPoint, killPoint, maxDamage, damage))
                && game.highScore.GetOr(0) >= old(game.highScore.GetOr(0))
                && released == (old(released) || damage >= maxDamage)
                && dropped == (damage >= maxDamage && Drops(hasLootableItem, lootPossibility, roll))
    {
      colliderReleased, dropped := false, false;
      if collider.tag != ProjectileTag {
        return;
      }
      if collider.damageFactor.Some? {
        SetDamage(damage + collider.damageFactor.value as real);
      }
      colliderReleased := true;
      ScoreSetRaisesHighScore(game.Snapshot(), game.score + HitScore(hitPoint, killPoint, maxDamage, damage));
      if damage < maxDamage {
        if hitPoint > 0 {
          game.SetScore(game.score + hitPoint);
        }
      } else {
        dropped := Die(game, roll);
      }
    }
  }
}
