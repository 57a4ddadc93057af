/**
 The bounds of a contour, taken together: every side that is not horizontal belongs to
 exactly one of them.
 */
module Coverage {
  import opened Base
  import opened Edges
  import opened Cycle
  import opened Sides
  import opened Bounds

  /** The side that the contour runs along when it leaves vertex i in direction d. */
  function SideFrom(d: Direction, i: nat, n: nat): (s: nat)
    requires i < n
    ensures s < n
  {
    if d == Forward then i else PrevIndex(i, n)
  }

  /** The vertex at which side s starts in direction d. */
  function StartOf(d: Direction, s: nat, n: nat): (i: nat)
    requires s < n
    ensures i < n && SideFrom(d, i, n) == s
  {
    if d == Forward then s else NextIndex(s, n)
  }

  lemma StartOfSide(d: Direction, i: nat, n: nat)
    requires i < n
    ensures StartOf(d, SideFrom(d, i, n), n) == i
  {
  }

  /** Side s rises in direction d from a minimum below `lim`. */
  ghost predicate Reached(w: seq<Point>, d: Direction, lim: nat, s: nat)
    requires s < |w|
  {
    var i := StartOf(d, s, |w|);
    Climbs(w, d, i) && Root(w, d, i) < lim
  }

  /** The sides used when the forward pass has come to `fmin` and the reverse pass to `rmin`. */
  ghost predicate Used(w: seq<Point>, fmin: nat, rmin: nat, s: nat)
    requires s < |w|
  {
    Reached(w, Forward, fmin, s) || Reached(w, Reverse, rmin, s)
  }

  /** The table's edges from `start` on are the used sides of the contour, each once;
      `origin` tells which edge is which side. */
  ghost predicate CutSoFar(w: seq<Point>, kind: Kind, t: Table, start: nat, origin: seq<nat>, fmin: nat, rmin: nat) {
    && start + |origin| == |t|
    && (forall k :: 0 <= k < |origin| ==> IsSide(w, kind, t[start + k], origin[k]))
    && Distinct(origin)
    && (forall s :: 0 <= s < |w| ==> (s in origin <==> Used(w, fmin, rmin, s)))
  }

  ghost predicate IsSide(w: seq<Point>, kind: Kind, e: EdgeInfo, s: nat) {
    s < |w| && e.kind == kind && SideOf(w, s) == [e.seg]
  }

  /** The sides of the climb from a minimum. */
  ghost function ClimbSides(w: seq<Point>, d: Direction, min: nat): (r: seq<nat>)
    requires min < |w|
    ensures |r| == |Climb(w, d, min)|
    ensures forall k :: 0 <= k < |r| ==> r[k] == SideFrom(d, Climb(w, d, min)[k], |w|)
  {
    var c := Climb(w, d, min);
    seq(|c|, k requires 0 <= k < |c| => SideFrom(d, c[k], |w|))
  }

  lemma ClimbSidesReached(w: seq<Point>, d: Direction, min: nat, s: nat)
    requires min < |w| && IsMin(w, d, min) && s < |w|
    ensures s in ClimbSides(w, d, min) <==>
            (var i := StartOf(d, s, |w|); Climbs(w, d, i) && Root(w, d, i) == min)
  {
    var c, i := Climb(w, d, min), StartOf(d, s, |w|);
    MinIsRoot(w, d, min);
    if s in ClimbSides(w, d, min) {
      var k :| 0 <= k < |c| && ClimbSides(w, d, min)[k] == s;
      StartOfSide(d, c[k], |w|);
      ClimbRoot(w, d, min, k);
    }
    if Climbs(w, d, i) && Root(w, d, i) == min {
      RootClimbs(w, d, i);
      var k :| 0 <= k < |c| && c[k] == i;
      assert ClimbSides(w, d, min)[k] == s;
    }
  }

  lemma ClimbSidesDistinct(w: seq<Point>, d: Direction, min: nat)
    requires min < |w|
    ensures Distinct(ClimbSides(w, d, min))
  {
    var c := Climb(w, d, min);
    ClimbDistinct(w, d, min);
    forall k, l | 0 <= k < l < |c|
      ensures SideFrom(d, c[k], |w|) != SideFrom(d, c[l], |w|)
    {
      assert c[k] != c[l];
      StartOfSide(d, c[k], |w|);
      StartOfSide(d, c[l], |w|);
    }
  }

  /** A climbing side is a side of the contour, directed upwards. */
  lemma BoundSides(w: seq<Point>, d: Direction, kind: Kind, min: nat, base: nat, k: nat)
    requires min < |w| && k < |Climb(w, d, min)|
    ensures IsSide(w, kind, Bound(w, d, kind, min, base)[k], ClimbSides(w, d, min)[k])
  {
    ClimbSteps(w, d, min);
  }

  /** No side rises in both directions. */
  lemma OneWay(w: seq<Point>, s: nat)
    requires s < |w|
    ensures !(Climbs(w, Forward, StartOf(Forward, s, |w|)) && Climbs(w, Reverse, StartOf(Reverse, s, |w|)))
  {
  }

  /** The limits of the two passes once the pass in direction d has dealt with `min`. */
  function Limit(d: Direction, pass: Direction, lim: nat, min: nat): nat {
    if d == pass then min + 1 else lim
  }

  lemma UsedNext(w: seq<Point>, d: Direction, fmin: nat, rmin: nat, min: nat, s: nat)
    requires s < |w| && min == (if d == Forward then fmin else rmin)
    ensures Used(w, Limit(d, Forward, fmin, min), Limit(d, Reverse, rmin, min), s) <==>
            Used(w, fmin, rmin, s) || (var i := StartOf(d, s, |w|); Climbs(w, d, i) && Root(w, d, i) == min)
  {
  }

  /** The sides of a new bound have not been used before. */
  lemma NotUsed(w: seq<Point>, d: Direction, fmin: nat, rmin: nat, min: nat, s: nat)
    requires s < |w| && min == (if d == Forward then fmin else rmin)
    requires var i := StartOf(d, s, |w|); Climbs(w, d, i) && Root(w, d, i) == min
    ensures !Used(w, fmin, rmin, s)
  {
    OneWay(w, s);
  }

  /** A vertex that is no minimum starts no bound, and none is missed. */
  lemma PassOver(w: seq<Point>, kind: Kind, t: Table, start: nat, origin: seq<nat>, d: Direction,
                 fmin: nat, rmin: nat, min: nat)
    requires min < |w| && min == (if d == Forward then fmin else rmin) && !IsMin(w, d, min)
    requires CutSoFar(w, kind, t, start, origin, fmin, rmin)
    ensures CutSoFar(w, kind, t, start, origin, Limit(d, Forward, fmin, min), Limit(d, Reverse, rmin, min))
  {
    hide Used;
    forall s: nat | 0 <= s < |w|
      ensures s in origin <==> Used(w, Limit(d, Forward, fmin, min), Limit(d, Reverse, rmin, min), s)
    {
      UsedNext(w, d, fmin, rmin, min, s);
    }
  }

  /** A bound from a local minimum uses sides that were not used, and all of them. */
  lemma CutBound(w: seq<Point>, kind: Kind, t: Table, start: nat, origin: seq<nat>, d: Direction,
                 fmin: nat, rmin: nat, min: nat)
    requires min < |w| && min == (if d == Forward then fmin else rmin) && IsMin(w, d, min)
    requires CutSoFar(w, kind, t, start, origin, fmin, rmin)
    ensures CutSoFar(w, kind, t + Bound(w, d, kind, min, |t|), start, origin + ClimbSides(w, d, min),
                     Limit(d, Forward, fmin, min), Limit(d, Reverse, rmin, min))
  {
    hide Used, IsSide, Bound, IsMin;
    var b, c := Bound(w, d, kind, min, |t|), ClimbSides(w, d, min);
    var t', origin' := t + b, origin + c;
    BoundSize(w, d, kind, min, |t|);
    forall k | 0 <= k < |origin'|
      ensures IsSide(w, kind, t'[start + k], origin'[k])
    {
      if k < |origin| {
        assert t'[start + k] == t[start + k];
      } else {
        BoundSides(w, d, kind, min, |t|, k - |origin|);
        assert t'[start + k] == b[k - |origin|];
      }
    }
    forall s: nat | 0 <= s < |w|
      ensures s in origin' <==> Used(w, Limit(d, Forward, fmin, min), Limit(d, Reverse, rmin, min), s)
      ensures s in c ==> s !in origin
    {
      UsedNext(w, d, fmin, rmin, min, s);
      ClimbSidesReached(w, d, min, s);
      if s in c {
        NotUsed(w, d, fmin, rmin, min, s);
      }
    }
    ClimbSidesDistinct(w, d, min);
    DistinctConcat(origin, c);
  }

  lemma BoundSize(w: seq<Point>, d: Direction, kind: Kind, min: nat, base: nat)
    requires min < |w|
    ensures |Bound(w, d, kind, min, base)| == |ClimbSides(w, d, min)|
  {
  }

  lemma DistinctConcat(a: seq<nat>, b: seq<nat>)
    requires Distinct(a) && Distinct(b) && forall k :: 0 <= k < |b| ==> b[k] !in a
    ensures Distinct(a + b)
  {
  }

  ghost predicate Below(o: seq<nat>, n: nat) {
    forall k :: 0 <= k < |o| ==> o[k] < n
  }

  lemma RoomBelow(o: seq<nat>, n: nat)
    requires Below(o, n) && o != []
    ensures n > 0
  {
    assert o[0] < n;
  }

  /** Taking out the largest number. */
  lemma TakeOut(o: seq<nat>, n: nat) returns (a: seq<nat>, b: seq<nat>)
    requires Distinct(o) && Below(o, n + 1) && n in o
    ensures o == a + [n] + b && Distinct(a + b) && Below(a + b, n)
    ensures forall s :: s in o ==> s == n || s in a + b
  {
    var k :| 0 <= k < |o| && o[k] == n;
    a, b := o[..k], o[k + 1..];
    WithoutPlace(o, n, k);
    forall s | s in o
      ensures s == n || s in a + b
    {
      var i :| 0 <= i < |o| && o[i] == s;
      assert i < k ==> a[i] == s;
      assert i > k ==> b[i - k - 1] == s;
    }
  }

  lemma WithoutPlace(o: seq<nat>, n: nat, k: nat)
    requires Distinct(o) && Below(o, n + 1) && k < |o| && o[k] == n
    ensures Distinct(o[..k] + o[k + 1..]) && Below(o[..k] + o[k + 1..], n)
  {
    var r := o[..k] + o[k + 1..];
    assert forall i :: 0 <= i < |r| ==> r[i] == if i < k then o[i] else o[i + 1];
  }

  lemma NotThere(o: seq<nat>, n: nat)
    requires Below(o, n + 1) && n !in o
    ensures Below(o, n)
  {
  }

  /** The edges never outgrow the vertices. */
  lemma {:induction false} FitsIn(o: seq<nat>, n: nat)
    requires Distinct(o) && Below(o, n)
    ensures |o| <= n
    decreases n
  {
    if n == 0 {
      if o != [] {
        RoomBelow(o, n);
      }
    } else if n - 1 in o {
      var a, b := TakeOut(o, n - 1);
      FitsIn(a + b, n - 1);
    } else {
      NotThere(o, n - 1);
      FitsIn(o, n - 1);
    }
  }

  /** When both passes are done, exactly the sides that are not horizontal are used. */
  lemma AllUsed(w: seq<Point>, s: nat)
    requires s < |w|
    ensures Used(w, |w|, |w|, s) <==> SideOf(w, s) != []
  {
  }

  /** The sides with the given numbers. */
  ghost function Pick(w: seq<Point>, o: seq<nat>): seq<Segment>
    requires Below(o, |w|)
  {
    if o == [] then [] else SideOf(w, o[0]) + Pick(w, o[1..])
  }

  lemma {:induction false} PickConcat(w: seq<Point>, a: seq<nat>, b: seq<nat>)
    requires Below(a, |w|) && Below(b, |w|)
    ensures Below(a + b, |w|) && Pick(w, a + b) == Pick(w, a) + Pick(w, b)
    decreases |a|
  {
    if a == [] {
      assert a + b == b;
    } else {
      hide SideOf;
      assert a + b == [a[0]] + (a[1..] + b);
      PickConcat(w, a[1..], b);
      assert Pick(w, a + b) == SideOf(w, a[0]) + Pick(w, a[1..] + b);
    }
  }

  lemma PickOne(w: seq<Point>, a: seq<nat>, n: nat, b: seq<nat>)
    requires n < |w| && Below(a + b, |w|)
    ensures Below(a, |w|) && Below(b, |w|) && Below(a + [n] + b, |w|)
    ensures multiset(Pick(w, a + [n] + b)) == multiset(Pick(w, a + b)) + multiset(SideOf(w, n))
  {
    hide SideOf;
    assert forall i :: 0 <= i < |a| ==> (a + b)[i] == a[i];
    assert forall i :: 0 <= i < |b| ==> (a + b)[|a| + i] == b[i];
    PickConcat(w, a, b);
    PickConcat(w, a + [n], b);
    PickConcat(w, a, [n]);
    assert Pick(w, [n]) == SideOf(w, n) + Pick(w, [n][1..]);
  }

  /** Picking every side that is not horizontal once, in any order, picks them all. */
  lemma {:induction false} PickAll(w: seq<Point>, o: seq<nat>, n: nat)
    requires n <= |w| && Distinct(o) && Below(o, n)
    requires forall s :: 0 <= s < n && SideOf(w, s) != [] ==> s in o
    ensures Below(o, |w|) && multiset(Pick(w, o)) == multiset(SidesUpTo(w, n))
    decreases n
  {
    hide SideOf, Distinct;
    if n == 0 {
      if o != [] {
        RoomBelow(o, n);
      }
    } else if n - 1 in o {
      var a, b := TakeOut(o, n - 1);
      PickAll(w, a + b, n - 1);
      PickOne(w, a, n - 1, b);
    } else {
      NotThere(o, n - 1);
      PickAll(w, o, n - 1);
    }
  }
}
