/**
 * The waypoint queries of the AI agent: the name ordering applied once when
 * the agent wakes up, and the patrol query that picks the nearest waypoint
 * that is not one of the agent's three most recent goals. Both are LINQ
 * pipelines (`Where`, `OrderBy`, `FirstOrDefault`), modelled as functions.
 */
module Patrol {
  import opened Wrappers
  import opened Geometry

  /** A patrol point. `id` stands for the identity of its Transform: the
      source compares waypoints by reference, so two waypoints with the same
      name and position are still different waypoints. */
  datatype Waypoint = Waypoint(id: nat, name: string, pos: Point)

  // ---------------------------------------------------------------------
  // Ordering keys
  // ---------------------------------------------------------------------

  /** Character-by-character comparison of two names by character code;
      a proper prefix comes first. */
  predicate NameBefore(a: string, b: string)
  {
    if a == [] then b != []
    else if b == [] then false
    else if a[0] != b[0] then a[0] < b[0]
    else NameBefore(a[1..], b[1..])
  }

  lemma {:induction false} NameBeforeIrreflexive(a: string)
    ensures !NameBefore(a, a)
  {
    if a != [] {
      NameBeforeIrreflexive(a[1..]);
    }
  }

  lemma {:induction false} NameBeforeTransitive(a: string, b: string, c: string)
    requires NameBefore(a, b) && NameBefore(b, c)
    ensures NameBefore(a, c)
  {
    if a != [] && b != [] && c != [] && a[0] == b[0] && b[0] == c[0] {
      NameBeforeTransitive(a[1..], b[1..], c[1..]);
    }
  }

  lemma {:induction false} NameBeforeTotal(a: string, b: string)
    requires a != b
    ensures NameBefore(a, b) || NameBefore(b, a)
  {
    if a != [] && b != [] && a[0] == b[0] {
      assert a == [a[0]] + a[1..] && b == [b[0]] + b[1..];
      NameBeforeTotal(a[1..], b[1..]);
    }
  }

  /** `lt(a, b)`: the sort key of `a` is strictly smaller than that of `b`. */
  type Order = (Waypoint, Waypoint) -> bool

  /** The comparison `OrderBy(wp => wp.name)` sorts with. */
  function NameOrder(): Order {
    (a: Waypoint, b: Waypoint) => NameBefore(a.name, b.name)
  }

  /** The comparison `OrderBy(g => g.DistanceTo(position))` sorts with. */
  function CloserTo(position: Point): Order {
    (a: Waypoint, b: Waypoint) => SqDist(a.pos, position) < SqDist(b.pos, position)
  }

  /** The orders a sort key induces: irreflexive, transitive, and
      incomparability is transitive too. */
  ghost predicate StrictWeakOrder(lt: Order) {
    && (forall a :: !lt(a, a))
    && (forall a, b, c :: lt(a, b) && lt(b, c) ==> lt(a, c))
    && (forall a, b, c :: lt(a, c) ==> lt(a, b) || lt(b, c))
  }

  lemma NameOrderIsStrictWeak()
    ensures StrictWeakOrder(NameOrder())
  {
    var lt := NameOrder();
    forall a ensures !lt(a, a) {
      NameBeforeIrreflexive(a.name);
    }
    forall a, b, c | lt(a, b) && lt(b, c) ensures lt(a, c) {
      NameBeforeTransitive(a.name, b.name, c.name);
    }
    forall a, b, c | lt(a, c) ensures lt(a, b) || lt(b, c) {
      if b.name != a.name && b.name != c.name && !lt(a, b) {
        NameBeforeTotal(a.name, b.name);
        NameBeforeTransitive(b.name, a.name, c.name);
      }
    }
  }

  lemma CloserToIsStrictWeak(position: Point)
    ensures StrictWeakOrder(CloserTo(position))
  {
  }

  // ---------------------------------------------------------------------
  // OrderBy: a stable sort
  // ---------------------------------------------------------------------

  /** Inserts `w` in front of the first element whose key is not strictly
      smaller: `w` stays ahead of every element with an equal key. */
  function Insert(w: Waypoint, s: seq<Waypoint>, lt: Order): (r: seq<Waypoint>)
    ensures |r| == |s| + 1
    ensures multiset(r) == multiset(s) + multiset{w}
  {
    if s == [] || !lt(s[0], w) then [w] + s
    else
      assert s == [s[0]] + s[1..];
      [s[0]] + Insert(w, s[1..], lt)
  }

  /** LINQ's `OrderBy`: a stable sort, so elements with equal keys keep their
      order. */
  function OrderBy(s: seq<Waypoint>, lt: Order): (r: seq<Waypoint>)
    ensures |r| == |s|
    ensures multiset(r) == multiset(s)
  {
    if s == [] then []
    else
      assert s == [s[0]] + s[1..];
      Insert(s[0], OrderBy(s[1..], lt), lt)
  }

  ghost predicate SortedBy(s: seq<Waypoint>, lt: Order) {
    forall i, j :: 0 <= i < j < |s| ==> !lt(s[j], s[i])
  }

  lemma {:induction false} InsertSorted(w: Waypoint, s: seq<Waypoint>, lt: Order)
    requires StrictWeakOrder(lt) && SortedBy(s, lt)
    ensures SortedBy(Insert(w, s, lt), lt)
  {
    var r := Insert(w, s, lt);
    if s == [] || !lt(s[0], w) {
      forall i, j | 0 <= i < j < |r| ensures !lt(r[j], r[i]) {
        if i == 0 && j >= 2 {
          assert !lt(s[j - 1], s[0]);
        }
      }
    } else {
      var t := Insert(w, s[1..], lt);
      InsertSorted(w, s[1..], lt);
      forall i, j | 0 <= i < j < |r| ensures !lt(r[j], r[i]) {
        if i == 0 {
          var x := t[j - 1];
          assert x in multiset(t);
          if x != w {
            assert x in multiset(s[1..]);
            var m :| 0 <= m < |s[1..]| && s[1..][m] == x;
            assert s[m + 1] == x;
          }
        } else {
          assert r[i] == t[i - 1] && r[j] == t[j - 1];
        }
      }
    }
  }

  lemma {:induction false} OrderBySorted(s: seq<Waypoint>, lt: Order)
    requires StrictWeakOrder(lt)
    ensures SortedBy(OrderBy(s, lt), lt)
  {
    if s != [] {
      OrderBySorted(s[1..], lt);
      InsertSorted(s[0], OrderBy(s[1..], lt), lt);
    }
  }

  /** Reference definition of the element a stable sort puts first: the
      index of the first element that no element is strictly below. */
  function FirstLeastIndex(s: seq<Waypoint>, lt: Order): (i: nat)
    requires s != []
    ensures i < |s|
  {
    if |s| == 1 then 0
    else
      var k := FirstLeastIndex(s[1..], lt) + 1;
      if lt(s[k], s[0]) then k else 0
  }

  lemma {:induction false} FirstLeastIndexIsFirstLeast(s: seq<Waypoint>, lt: Order)
    requires StrictWeakOrder(lt) && s != []
    ensures var i := FirstLeastIndex(s, lt);
            && (forall j :: 0 <= j < |s| ==> !lt(s[j], s[i]))
            && (forall j :: 0 <= j < i ==> lt(s[i], s[j]))
  {
    if |s| > 1 {
      var t := s[1..];
      FirstLeastIndexIsFirstLeast(t, lt);
      var k := FirstLeastIndex(t, lt) + 1;
      assert forall j :: 1 <= j < |s| ==> s[j] == t[j - 1];
      if lt(s[k], s[0]) {
        forall j | 0 <= j < |s| ensures !lt(s[j], s[k]) {
          if j == 0 {
            assert !lt(s[k], s[k]);
          }
        }
      } else {
        forall j | 1 <= j < |s| ensures !lt(s[j], s[0]) {
          assert !lt(t[j - 1], t[k - 1]);
        }
      }
    }
  }

  lemma {:induction false} OrderByHead(s: seq<Waypoint>, lt: Order)
    requires s != []
    ensures OrderBy(s, lt) != [] && OrderBy(s, lt)[0] == s[FirstLeastIndex(s, lt)]
  {
    if |s| > 1 {
      OrderByHead(s[1..], lt);
    }
  }

  // ---------------------------------------------------------------------
  // The patrol query of PickDestination
  // ---------------------------------------------------------------------

  /** A waypoint other than the current goal and the two goals before it
      (a null goal excludes nothing). */
  predicate Eligible(w: Waypoint, current: Option<Waypoint>, prev: Option<Waypoint>, beforePrev: Option<Waypoint>) {
    Some(w) != current && Some(w) != prev && Some(w) != beforePrev
  }

  /** LINQ's `Where` with the exclusion filter; keeps the order. */
  function Where(ws: seq<Waypoint>, current: Option<Waypoint>, prev: Option<Waypoint>, beforePrev: Option<Waypoint>): (r: seq<Waypoint>)
    ensures forall w :: w in r <==> w in ws && Eligible(w, current, prev, beforePrev)
  {
    if ws == [] then []
    else (if Eligible(ws[0], current, prev, beforePrev) then [ws[0]] else [])
         + Where(ws[1..], current, prev, beforePrev)
  }

  lemma {:induction false} WhereKeepsSorted(ws: seq<Waypoint>, current: Option<Waypoint>, prev: Option<Waypoint>, beforePrev: Option<Waypoint>, lt: Order)
    requires SortedBy(ws, lt)
    ensures SortedBy(Where(ws, current, prev, beforePrev), lt)
  {
    if ws != [] {
      var rest := Where(ws[1..], current, prev, beforePrev);
      WhereKeepsSorted(ws[1..], current, prev, beforePrev, lt);
      if Eligible(ws[0], current, prev, beforePrev) {
        var r := [ws[0]] + rest;
        forall i, j | 0 <= i < j < |r| ensures !lt(r[j], r[i]) {
          if i == 0 {
            assert rest[j - 1] in ws[1..];
            var m :| 0 <= m < |ws[1..]| && ws[1..][m] == rest[j - 1];
            assert ws[m + 1] == r[j];
          } else {
            assert r[i] == rest[i - 1] && r[j] == rest[j - 1];
          }
        }
      }
    }
  }

  /** LINQ's `FirstOrDefault` over references: the first element, or null. */
  function FirstOrDefault(s: seq<Waypoint>): Option<Waypoint> {
    if s == [] then None else Some(s[0])
  }

  /** The query of `PickDestination`: eligible waypoints ordered by distance
      to the agent, first one or null. */
  function NearestEligible(ws: seq<Waypoint>, current: Option<Waypoint>, prev: Option<Waypoint>, beforePrev: Option<Waypoint>, position: Point): Option<Waypoint> {
    FirstOrDefault(OrderBy(Where(ws, current, prev, beforePrev), CloserTo(position)))
  }

  /** `e[i]` is strictly nearer to `position` than every element listed before it. */
  ghost predicate IsStrictlyNearestAt(e: seq<Waypoint>, i: nat, position: Point) {
    i < |e| && forall j :: 0 <= j < i ==> SqDist(e[i].pos, position) < SqDist(e[j].pos, position)
  }

  /** Some occurrence of `w` in `e` is strictly nearer than everything before it. */
  ghost predicate StrictlyNearestSoFar(e: seq<Waypoint>, w: Waypoint, position: Point) {
    exists i: nat :: i < |e| && e[i] == w && IsStrictlyNearestAt(e, i, position)
  }

  /** Null exactly when every waypoint is excluded; otherwise a registered,
      eligible waypoint at minimum distance, and every eligible waypoint
      listed before it is strictly farther away. */
  lemma NearestEligibleSpec(ws: seq<Waypoint>, current: Option<Waypoint>, prev: Option<Waypoint>, beforePrev: Option<Waypoint>, position: Point)
    ensures var r := NearestEligible(ws, current, prev, beforePrev, position);
            var e := Where(ws, current, prev, beforePrev);
            && (r.None? <==> forall w :: w in ws ==> !Eligible(w, current, prev, beforePrev))
            && (r.Some? ==>
                  && r.value in ws && Eligible(r.value, current, prev, beforePrev)
                  && (forall w :: w in ws && Eligible(w, current, prev, beforePrev) ==>
                        SqDist(r.value.pos, position) <= SqDist(w.pos, position))
                  && StrictlyNearestSoFar(e, r.value, position))
  {
    var e := Where(ws, current, prev, beforePrev);
    var lt := CloserTo(position);
    if e != [] {
      OrderByHead(e, lt);
      CloserToIsStrictWeak(position);
      FirstLeastIndexIsFirstLeast(e, lt);
      var i := FirstLeastIndex(e, lt);
      forall w | w in ws && Eligible(w, current, prev, beforePrev)
        ensures SqDist(e[i].pos, position) <= SqDist(w.pos, position)
      {
        var j :| 0 <= j < |e| && e[j] == w;
        assert !lt(e[j], e[i]);
      }
      forall j | 0 <= j < i ensures SqDist(e[i].pos, position) < SqDist(e[j].pos, position) {
        assert lt(e[i], e[j]);
      }
      assert NearestEligible(ws, current, prev, beforePrev, position) == Some(e[i]);
      assert StrictlyNearestSoFar(e, e[i], position) by {
        assert IsStrictlyNearestAt(e, i, position);
      }
    }
  }

  /** On a list sorted by name (as the agent keeps it), an eligible waypoint
      at the same distance as the pick never has an earlier name: distance
      ties go to the earlier name. */
  lemma TieGoesToEarlierName(ws: seq<Waypoint>, current: Option<Waypoint>, prev: Option<Waypoint>, beforePrev: Option<Waypoint>, position: Point, w: Waypoint)
    requires SortedBy(ws, NameOrder())
    requires w in ws && Eligible(w, current, prev, beforePrev)
    ensures var r := NearestEligible(ws, current, prev, beforePrev, position);
            r.Some? && SqDist(w.pos, position) == SqDist(r.value.pos, position) ==> !NameBefore(w.name, r.value.name)
  {
    var e := Where(ws, current, prev, beforePrev);
    var lt := CloserTo(position);
    var j :| 0 <= j < |e| && e[j] == w;
    OrderByHead(e, lt);
    CloserToIsStrictWeak(position);
    FirstLeastIndexIsFirstLeast(e, lt);
    WhereKeepsSorted(ws, current, prev, beforePrev, NameOrder());
    var i := FirstLeastIndex(e, lt);
    if j < i {
      assert lt(e[i], e[j]);
    } else if j == i {
      NameBeforeIrreflexive(w.name);
    } else {
      assert !NameOrder()(e[j], e[i]);
    }
  }

  /** With at least four distinct waypoints registered, three recent goals
      cannot exclude them all, so the query never yields null. */
  lemma FourWaypointsNeverExhausted(ws: seq<Waypoint>, current: Option<Waypoint>, prev: Option<Waypoint>, beforePrev: Option<Waypoint>, position: Point)
    requires |set w | w in ws| >= 4
    ensures NearestEligible(ws, current, prev, beforePrev, position).Some?
  {
    var all := set w | w in ws;
    var recent := set g | g in [current, prev, beforePrev] && g.Some? :: g.value;
    assert recent <= {current.GetOr(ws[0]), prev.GetOr(ws[0]), beforePrev.GetOr(ws[0])};
    CardinalityOfThree(current.GetOr(ws[0]), prev.GetOr(ws[0]), beforePrev.GetOr(ws[0]));
    SubsetCardinality(recent, {current.GetOr(ws[0]), prev.GetOr(ws[0]), beforePrev.GetOr(ws[0])});
    assert |all - recent| >= 1 by {
      DifferenceCardinality(all, recent);
    }
    var w :| w in all - recent;
    assert Eligible(w, current, prev, beforePrev);
    NearestEligibleSpec(ws, current, prev, beforePrev, position);
  }

  lemma CardinalityOfThree(a: Waypoint, b: Waypoint, c: Waypoint)
    ensures |{a, b, c}| <= 3
  {
  }

  lemma SubsetCardinality(x: set<Waypoint>, y: set<Waypoint>)
    requires x <= y
    ensures |x| <= |y|
  {
    assert y == x + (y - x);
  }

  lemma DifferenceCardinality(x: set<Waypoint>, y: set<Waypoint>)
    ensures |x - y| >= |x| - |y|
  {
    assert x == (x - y) + (x * y);
    SubsetCardinality(x * y, y);
  }
}
