/**
 Contours are cyclic: the macros of the program (`PREV_INDEX`, `NEXT_INDEX`, `FWD_MIN`,
 `REV_MIN`, `NOT_FMAX`, `NOT_RMAX`) look at a vertex's neighbours around the cycle.

 The reverse pass over a contour is the forward pass with the neighbours exchanged, so
 both are described by a direction.
 */
module Cycle {
  import opened Base

  datatype Direction = Forward | Reverse

  function NextIndex(i: nat, n: nat): (r: nat)
    requires i < n
    ensures r == if i + 1 == n then 0 else i + 1
  {
    if i + 1 < n then (i + 1) % n else assert (i + 1) % n == 0; (i + 1) % n
  }

  function PrevIndex(i: nat, n: nat): (r: nat)
    requires i < n
    ensures r == if i == 0 then n - 1 else i - 1
  {
    if i == 0 then (i - 1 + n) % n else Wrap(i - 1, n); (i - 1 + n) % n
  }

  lemma Wrap(i: nat, n: nat)
    requires i < n
    ensures (i + n) % n == i
  {
    assert (i + n) / n == 1;
  }

  /** The neighbour in the direction of travel, and the one behind. */
  function Ahead(d: Direction, i: nat, n: nat): (r: nat)
    requires i < n
    ensures r < n
  {
    if d == Forward then NextIndex(i, n) else PrevIndex(i, n)
  }

  function Behind(d: Direction, i: nat, n: nat): (r: nat)
    requires i < n
    ensures r < n && Ahead(d, r, n) == i
  {
    if d == Forward then PrevIndex(i, n) else NextIndex(i, n)
  }

  lemma BehindAhead(d: Direction, i: nat, n: nat)
    requires i < n
    ensures Behind(d, Ahead(d, i, n), n) == i
  {
  }

  /** `NOT_FMAX` and `NOT_RMAX`: the contour rises from vertex i. */
  predicate Climbs(w: seq<Point>, d: Direction, i: nat)
    requires i < |w|
  {
    w[Ahead(d, i, |w|)].y > w[i].y
  }

  /** `FWD_MIN` and `REV_MIN`. */
  predicate IsMin(w: seq<Point>, d: Direction, i: nat)
    requires i < |w|
  {
    w[Behind(d, i, |w|)].y >= w[i].y && w[Ahead(d, i, |w|)].y > w[i].y
  }

  /** Measures for walks up and down the contour. */

  ghost function Lower(w: seq<Point>, y: real): set<nat> {
    set j: nat | 0 <= j < |w| && w[j].y < y
  }

  ghost function Higher(w: seq<Point>, y: real): set<nat> {
    set j: nat | 0 <= j < |w| && w[j].y > y
  }

  lemma FewerHigher(w: seq<Point>, i: nat, j: nat)
    requires i < |w| && j < |w| && w[i].y < w[j].y
    ensures |Higher(w, w[j].y)| < |Higher(w, w[i].y)|
    ensures |Lower(w, w[i].y)| < |Lower(w, w[j].y)|
  {
    assert j in Higher(w, w[i].y) && j !in Higher(w, w[j].y);
    Smaller(Higher(w, w[j].y), Higher(w, w[i].y));
    assert i in Lower(w, w[j].y) && i !in Lower(w, w[i].y);
    Smaller(Lower(w, w[i].y), Lower(w, w[j].y));
  }

  lemma Smaller(a: set<nat>, b: set<nat>)
    requires a < b
    ensures |a| < |b|
  {
    var c := b - a;
    assert b == a + c && c != {};
    assert |b| == |a| + |c|;
  }

  /** The vertices climbed from vertex i, up to the next maximum and without it. */
  ghost function Climb(w: seq<Point>, d: Direction, i: nat): (c: seq<nat>)
    requires i < |w|
    ensures forall k :: 0 <= k < |c| ==> c[k] < |w|
    decreases |Higher(w, w[i].y)|
  {
    if Climbs(w, d, i) then
      FewerHigher(w, i, Ahead(d, i, |w|));
      [i] + Climb(w, d, Ahead(d, i, |w|))
    else []
  }

  /** The minimum from which the contour climbs through vertex i. */
  ghost function Root(w: seq<Point>, d: Direction, i: nat): (r: nat)
    requires i < |w| && Climbs(w, d, i)
    ensures r < |w| && IsMin(w, d, r)
    decreases |Lower(w, w[i].y)|
  {
    var j := Behind(d, i, |w|);
    if Climbs(w, d, j) then
      FewerHigher(w, j, i);
      Root(w, d, j)
    else i
  }

  /** A climb goes from neighbour to neighbour, strictly upwards, and stops at a maximum. */
  lemma {:induction false} ClimbSteps(w: seq<Point>, d: Direction, i: nat)
    requires i < |w|
    ensures var c := Climb(w, d, i);
            && (forall k :: 0 <= k < |c| ==> Climbs(w, d, c[k]))
            && (forall k :: 0 <= k < |c| - 1 ==> c[k + 1] == Ahead(d, c[k], |w|))
            && (c != [] ==> c[0] == i && !Climbs(w, d, Ahead(d, c[|c| - 1], |w|)))
            && (forall k :: 0 <= k < |c| ==> w[c[k]].y >= w[i].y)
    decreases |Higher(w, w[i].y)|
  {
    if Climbs(w, d, i) {
      FewerHigher(w, i, Ahead(d, i, |w|));
      ClimbSteps(w, d, Ahead(d, i, |w|));
    }
  }

  ghost predicate Distinct(o: seq<nat>) {
    forall k, l :: 0 <= k < l < |o| ==> o[k] != o[l]
  }

  /** No vertex occurs twice in a climb. */
  lemma {:induction false} ClimbDistinct(w: seq<Point>, d: Direction, i: nat)
    requires i < |w|
    ensures Distinct(Climb(w, d, i))
    decreases |Higher(w, w[i].y)|
  {
    if Climbs(w, d, i) {
      var j := Ahead(d, i, |w|);
      FewerHigher(w, i, j);
      ClimbDistinct(w, d, j);
      ClimbSteps(w, d, j);
    }
  }

  /** All vertices of a climb have the same root. */
  lemma {:induction false} ClimbRoot(w: seq<Point>, d: Direction, i: nat, k: nat)
    requires i < |w| && k < |Climb(w, d, i)|
    ensures Climbs(w, d, i) && Climbs(w, d, Climb(w, d, i)[k])
    ensures Root(w, d, Climb(w, d, i)[k]) == Root(w, d, i)
    decreases |Higher(w, w[i].y)|
  {
    ClimbSteps(w, d, i);
    if k > 0 {
      var j := Ahead(d, i, |w|);
      FewerHigher(w, i, j);
      ClimbRoot(w, d, j, k - 1);
      BehindAhead(d, i, |w|);
    }
  }

  lemma {:induction false} ClimbCloses(w: seq<Point>, d: Direction, i: nat, j: nat)
    requires i < |w| && j < |w| && j in Climb(w, d, i) && Climbs(w, d, Ahead(d, j, |w|))
    ensures Ahead(d, j, |w|) in Climb(w, d, i)
    decreases |Higher(w, w[i].y)|
  {
    var n := Ahead(d, i, |w|);
    FewerHigher(w, i, n);
    if j != i {
      ClimbCloses(w, d, n, j);
    } else {
      assert Climb(w, d, n)[0] == n by { ClimbSteps(w, d, n); }
    }
  }

  /** Every rising side belongs to the climb from its root. */
  lemma {:induction false} RootClimbs(w: seq<Point>, d: Direction, i: nat)
    requires i < |w| && Climbs(w, d, i)
    ensures i in Climb(w, d, Root(w, d, i))
    decreases |Lower(w, w[i].y)|
  {
    var j := Behind(d, i, |w|);
    if Climbs(w, d, j) {
      FewerHigher(w, j, i);
      RootClimbs(w, d, j);
      ClimbCloses(w, d, Root(w, d, j), j);
    } else {
      assert Climb(w, d, i)[0] == i;
    }
  }

  lemma MinIsRoot(w: seq<Point>, d: Direction, i: nat)
    requires i < |w| && IsMin(w, d, i)
    ensures Climbs(w, d, i) && Root(w, d, i) == i
  {
  }
}
