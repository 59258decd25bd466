/**
 * The player controller's shared behaviour (AbstractPlayerController): the
 * aim point and the attack flag are set through change-detecting setters
 * that call a hook only when the value changes, and switching weapons keeps
 * the attack flag across the swap.
 *
 * Weapons are identified by instance id and by their `name` field, which
 * Instantiate copies from the prefab. The hooks a subclass overrides are
 * recorded, in call order, as `Hook` values.
 */
module Player {
  import opened Wrappers
  import opened Geometry
  import opened ApplicationTypes

  /** A call of one of the overridable hooks. */
  datatype Hook = AimedAt(target: Point) | AimToIdle | AttackStarted | AttackStopped

  /** A weapon instance in the scene. */
  datatype WeaponRef = WeaponRef(id: nat, name: string)

  /** The controller's state: the aim point, the attack flag, the current
      weapon, the list of owned weapons and the id the next instantiated
      weapon receives. */
  datatype PlayerState = PlayerState(
    aimAt: Option<Point>,
    attacking: bool,
    weapon: Option<WeaponRef>,
    weapons: seq<WeaponRef>,
    nextId: nat)

  /** The state after Awake: nothing aimed at, not attacking, no weapon and
      an empty weapon list. */
  function Awakened(firstId: nat): PlayerState {
    PlayerState(None, false, None, [], firstId)
  }

  /** The AimAt setter: the new state and the hooks it calls. */
  function AimAtSet(s: PlayerState, value: Option<Point>): (PlayerState, seq<Hook>) {
    if s.aimAt == value then (s, [])
    else (s.(aimAt := value), [if value.Some? then AimedAt(value.value) else AimToIdle])
  }

  /** The Attacking setter: the new state and the hooks it calls. */
  function AttackingSet(s: PlayerState, value: bool): (PlayerState, seq<Hook>) {
    if s.attacking == value then (s, [])
    else (s.(attacking := value), [if value then AttackStarted else AttackStopped])
  }

  /** `weapons.FirstOrDefault(w => w.name == name)`. */
  function FindByName(ws: seq<WeaponRef>, name: string): (r: Option<WeaponRef>)
    ensures r.Some? ==> r.value in ws && r.value.name == name
    ensures r.None? <==> forall i | 0 <= i < |ws| :: ws[i].name != name
  {
    if ws == [] then None
    else if ws[0].name == name then Some(ws[0])
    else FindByName(ws[1..], name)
  }

  /** SwitchWeapon to a weapon whose `name` field is `name`. */
  function SwitchWeaponStep(s: PlayerState, name: string): (PlayerState, seq<Hook>) {
    if s.weapon.Some? && s.weapon.value.name == name then (s, [])
    else
      var inList := FindByName(s.weapons, name);
      var wasAttacking := s.attacking;
      var (s1, h1) := if s.weapon.Some? && s.attacking then AttackingSet(s, false) else (s, []);
      var s2 :=
        if inList.Some? then s1.(weapon := inList)
        else s1.(weapon := Some(WeaponRef(s1.nextId, name)), nextId := s1.nextId + 1);
      var (s3, h3) := AttackingSet(s2, wasAttacking);
      (s3, h1 + h3)
  }

  /** The AimAt setter keeps an equal value silently; a new value is stored
      and announced by exactly one hook naming it. */
  lemma AimAtSetEffect(s: PlayerState, value: Option<Point>)
    ensures var (r, hooks) := AimAtSet(s, value);
            && r.aimAt == value
            && r == s.(aimAt := value)
            && (hooks == [] <==> s.aimAt == value)
            && (s.aimAt != value && value.Some? ==> hooks == [AimedAt(value.value)])
            && (s.aimAt != value && value.None? ==> hooks == [AimToIdle])
  {
  }

  /** The Attacking setter keeps an equal value silently; a change is
      announced by exactly one hook. */
  lemma AttackingSetEffect(s: PlayerState, value: bool)
    ensures var (r, hooks) := AttackingSet(s, value);
            && r == s.(attacking := value)
            && (hooks == [] <==> s.attacking == value)
            && (s.attacking != value ==> hooks == [if value then AttackStarted else AttackStopped])
  {
  }

  /** A switch to the weapon already held changes nothing. */
  lemma SwitchToCurrentWeaponIsNoOp(s: PlayerState, name: string)
    requires s.weapon.Some? && s.weapon.value.name == name
    ensures SwitchWeaponStep(s, name) == (s, [])
  {
  }

  /** After a switch the player holds a weapon with the requested name, the
      attack flag and the aim point are what they were, and a player that
      was attacking with a weapon stops and restarts the attack around the
      swap; no other hook is called. */
  lemma SwitchWeaponEffect(s: PlayerState, name: string)
    ensures var (r, hooks) := SwitchWeaponStep(s, name);
            && r.weapon.Some? && r.weapon.value.name == name
            && r.attacking == s.attacking
            && r.aimAt == s.aimAt
            && r.weapons == s.weapons
            && (hooks == if s.weapon.Some? && s.weapon.value.name != name && s.attacking
                         then [AttackStopped, AttackStarted] else [])
  {
    if !(s.weapon.Some? && s.weapon.value.name == name) {
      var inList := FindByName(s.weapons, name);
      if inList.Some? {
        assert inList.value.name == name;
      }
    }
  }

  /** The weapon list is never added to, so a switch to another name always
      instantiates a fresh weapon with the next id. */
  lemma SwitchInstantiatesFromEmptyList(s: PlayerState, name: string)
    requires s.weapons == []
    requires !(s.weapon.Some? && s.weapon.value.name == name)
    ensures var (r, _) := SwitchWeaponStep(s, name);
            && r.weapon == Some(WeaponRef(s.nextId, name))
            && r.nextId == s.nextId + 1
            && r.weapons == []
  {
  }

  /** The state after switching to each name of `names` in turn. */
  function Switches(s: PlayerState, names: seq<string>): PlayerState
    decreases names
  {
    if names == [] then s else Switches(SwitchWeaponStep(s, names[0]).0, names[1..])
  }

  /** From Awake on, however many switches follow, the weapon list stays
      empty, every instantiated weapon has a fresh id, and the attack flag
      is never changed by a switch. */
  lemma {:induction false} SwitchesKeepListEmpty(s: PlayerState, names: seq<string>)
    requires s.weapons == []
    requires s.weapon.Some? ==> s.weapon.value.id < s.nextId
    ensures var r := Switches(s, names);
            && r.weapons == []
            && r.attacking == s.attacking
            && r.nextId >= s.nextId
            && (r.weapon.Some? ==> r.weapon.value.id < r.nextId)
            && (names != [] ==> r.weapon.Some? && r.weapon.value.name == names[|names| - 1])
    decreases names
  {
    if names != [] {
      var s' := SwitchWeaponStep(s, names[0]).0;
      SwitchWeaponEffect(s, names[0]);
      SwitchesKeepListEmpty(s', names[1..]);
      if names[1..] != [] {
        assert names[1..][|names[1..]| - 1] == names[|names| - 1];
      }
    }
  }

  class PlayerController {
    const moveMechanism: PlayerMoveMechanism
    var aimAt: Option<Point>
    var attacking: bool
    var weapon: Option<WeaponRef>
    var weapons: seq<WeaponRef>
    var nextId: nat
    /** The hooks called so far, oldest first. */
    var hooks: seq<Hook>

    function State(): PlayerState
      reads this
    {
      PlayerState(aimAt, attacking, weapon, weapons, nextId)
    }

    /** Awake; `firstId` is the id the first instantiated weapon receives. */
    constructor (moveMechanism: PlayerMoveMechanism, firstId: nat)
      ensures this.moveMechanism == moveMechanism
      ensures State() == Awakened(firstId) && hooks == []
    {
      this.moveMechanism := moveMechanism;
      aimAt := None;
      attacking := false;
      weapon := None;
      weapons := [];
      nextId := firstId;
      hooks := [];
    }

    /** Whether moving uses the rigidbody. */
    function UsesPhysics(): bool {
      UsesRigidbody(moveMechanism)
    }

    method SetAimAt(value: Option<Point>)
      modifies this`aimAt, this`hooks
      ensures State() == AimAtSet(old(State()), value).0
      ensures hooks == old(hooks) + AimAtSet(old(State()), value).1
    {
      if aimAt != value {
        aimAt := value;
        if aimAt.Some? {
          hooks := hooks + [AimedAt(aimAt.value)];
        } else {
          hooks := hooks + [AimToIdle];
        }
      }
    }

    method SetAttacking(value: bool)
      modifies this`attacking, this`hooks
      ensures State() == AttackingSet(old(State()), value).0
      ensures hooks == old(hooks) + AttackingSet(old(State()), value).1
    {
      if attacking != value {
        attacking := value;
        if attacking {
          hooks := hooks + [AttackStarted];
        } else {
          hooks := hooks + [AttackStopped];
        }
      }
    }

    /** SwitchWeapon to a prefab whose `name` field is `name`. */
    method SwitchWeapon(name: string)
      modifies this
      ensures State() == SwitchWeaponStep(old(State()), name).0
      ensures hooks == old(hooks) + SwitchWeaponStep(old(State()), name).1
    {
      if weapon.Some? && weapon.value.name == name {
        return;
      }
      var inList := FindByName(weapons, name);
      var wasAttacking := attacking;
      ghost var h0 := hooks;
      if weapon.Some? && attacking {
        SetAttacking(false);
      }
      ghost var h1 := hooks[|h0|..];
      if inList.Some? {
        weapon := inList;
      } else {
        weapon := Some(WeaponRef(nextId, name));
        nextId := nextId + 1;
      }
      ghost var mid := hooks;
      SetAttacking(wasAttacking);
      assert hooks == h0 + h1 + hooks[|mid|..];
    }
  }
}
