/**
 * How the player is moved (PlayerMoveMechanism) and which of those ways
 * move it through its rigidbody (the UsesRigidbody extension).
 */
module ApplicationTypes {

  /** The enumeration, with its underlying values 0, 10, 20 and 30. */
  datatype PlayerMoveMechanism = SetPositionAndAccelerate | SetPosition | SetVelocity | AddForce

  const AllMechanisms: set<PlayerMoveMechanism> := {SetPositionAndAccelerate, SetPosition, SetVelocity, AddForce}

  /** The enumeration's underlying value. */
  function Value(m: PlayerMoveMechanism): (r: int)
    ensures r % 10 == 0 && 0 <= r <= 30
  {
    match m
    case SetPositionAndAccelerate => 0
    case SetPosition => 10
    case SetVelocity => 20
    case AddForce => 30
  }

  predicate UsesRigidbody(m: PlayerMoveMechanism) {
    m == AddForce || m == SetVelocity
  }

  /** Distinct members have distinct values, and exactly the members valued
      20 or more move through the rigidbody. */
  lemma UsesRigidbodyByValue(m: PlayerMoveMechanism, n: PlayerMoveMechanism)
    ensures UsesRigidbody(m) <==> Value(m) >= 20
    ensures Value(m) == Value(n) ==> m == n
  {
  }

  /** Exactly two of the four members move through the rigidbody:
      SetVelocity and AddForce. */
  lemma ExactlyTwoUseRigidbody()
    ensures |AllMechanisms| == 4
    ensures (set m | m in AllMechanisms && UsesRigidbody(m)) == {SetVelocity, AddForce}
    ensures |set m | m in AllMechanisms && UsesRigidbody(m)| == 2
  {
    var users := set m | m in AllMechanisms && UsesRigidbody(m);
    assert users == {SetVelocity, AddForce};
    assert |{SetVelocity, AddForce}| == 2;
  }
}
