/**
 The local minima table (`bound_list`, `insert_bound`): for every height at which bounds
 start, the bounds in the order in which they leave.
 */
module LocalMinima {
  import opened Base
  import opened Edges

  /** An entry of the table: the bounds that start at height `y`, by their first edges. */
  datatype Minimum = Minimum(y: real, bounds: seq<nat>)

  /** Bound `i` leaves to the left of bound `j`. */
  predicate LeavesLeft(t: Table, i: nat, j: nat)
    requires i < |t| && j < |t|
  {
    t[i].seg.bot.x < t[j].seg.bot.x || (t[i].seg.bot.x == t[j].seg.bot.x && t[i].seg.dx < t[j].seg.dx)
  }

  ghost predicate InTable(t: Table, bounds: seq<nat>) {
    forall i :: 0 <= i < |bounds| ==> bounds[i] < |t|
  }

  /** Sorted by starting point, then by slope. */
  ghost predicate BoundsSorted(t: Table, bounds: seq<nat>) {
    InTable(t, bounds) && forall i, j :: 0 <= i < j < |bounds| ==> InOrder(t[bounds[i]].seg, t[bounds[j]].seg)
  }

  /** By starting point, and at the same starting point by slope. */
  predicate InOrder(s: Segment, r: Segment) {
    s.bot.x < r.bot.x || (s.bot.x == r.bot.x && s.dx <= r.dx)
  }

  ghost predicate Increasing(lmt: seq<Minimum>) {
    forall m, n :: 0 <= m < n < |lmt| ==> lmt[m].y < lmt[n].y
  }

  /** The table is sorted, by height and within each height, and no entry is empty. */
  ghost predicate Sorted(t: Table, lmt: seq<Minimum>) {
    Increasing(lmt) && forall m :: 0 <= m < |lmt| ==> lmt[m].bounds != [] && BoundsSorted(t, lmt[m].bounds)
  }

  /** The bounds that the table holds for height `y`. */
  ghost function BoundsAt(lmt: seq<Minimum>, y: real): multiset<nat> {
    if lmt == [] then multiset{}
    else (if lmt[0].y == y then multiset(lmt[0].bounds) else multiset{}) + BoundsAt(lmt[1..], y)
  }

  lemma {:induction false} BoundsAtConcat(a: seq<Minimum>, b: seq<Minimum>, y: real)
    ensures BoundsAt(a + b, y) == BoundsAt(a, y) + BoundsAt(b, y)
  {
    if a == [] {
      assert a + b == b;
    } else {
      assert (a + b)[1..] == a[1..] + b;
      BoundsAtConcat(a[1..], b, y);
    }
  }

  /** Inserts a bound before the first one that it leaves to the left of. */
  method InsertBound(t: Table, bounds: seq<nat>, id: nat) returns (r: seq<nat>, ghost at: nat)
    requires BoundsSorted(t, bounds) && id < |t|
    ensures at <= |bounds| && r == bounds[..at] + [id] + bounds[at..]
    ensures forall i :: 0 <= i < at ==> InOrder(t[bounds[i]].seg, t[id].seg)
    ensures at < |bounds| ==> InOrder(t[id].seg, t[bounds[at]].seg) && !InOrder(t[bounds[at]].seg, t[id].seg)
    ensures BoundsSorted(t, r)
  {
    var k := 0;
    while k < |bounds| && !LeavesLeft(t, id, bounds[k])
      invariant 0 <= k <= |bounds|
      invariant forall i :: 0 <= i < k ==> !LeavesLeft(t, id, bounds[i])
    {
      k := k + 1;
    }
    r := bounds[..k] + [id] + bounds[k..];
    InsertKeepsSorted(t, bounds, id, k);
    at := k;
  }

  lemma OneMore(bounds: seq<nat>, id: nat, k: nat)
    requires k <= |bounds|
    ensures multiset(bounds[..k] + [id] + bounds[k..]) == multiset(bounds) + multiset{id}
  {
    assert bounds == bounds[..k] + bounds[k..];
  }

  lemma InsertKeepsSorted(t: Table, bounds: seq<nat>, id: nat, k: nat)
    requires BoundsSorted(t, bounds) && id < |t| && k <= |bounds|
    requires forall i :: 0 <= i < k ==> InOrder(t[bounds[i]].seg, t[id].seg)
    requires k < |bounds| ==> InOrder(t[id].seg, t[bounds[k]].seg)
    ensures BoundsSorted(t, bounds[..k] + [id] + bounds[k..])
  {
    var r := bounds[..k] + [id] + bounds[k..];
    assert forall i :: 0 <= i < |r| ==> r[i] == if i < k then bounds[i] else if i == k then id else bounds[i - 1];
    forall i | k <= i < |bounds|
      ensures InOrder(t[id].seg, t[bounds[i]].seg)
    {
      assert i == k || InOrder(t[bounds[k]].seg, t[bounds[i]].seg);
    }
  }

  /** Finds or makes the entry for height `y`. */
  method BoundList(lmt: seq<Minimum>, y: real) returns (r: seq<Minimum>, k: nat)
    requires Increasing(lmt)
    ensures Increasing(r) && k < |r| && r[k].y == y
    ensures r == lmt || (k <= |lmt| && r == lmt[..k] + [Minimum(y, [])] + lmt[k..])
  {
    k := 0;
    while k < |lmt| && lmt[k].y < y
      invariant 0 <= k <= |lmt|
      invariant forall i :: 0 <= i < k ==> lmt[i].y < y
    {
      k := k + 1;
    }
    if k < |lmt| && lmt[k].y == y {
      r := lmt;
    } else {
      r := lmt[..k] + [Minimum(y, [])] + lmt[k..];
      assert forall i :: 0 <= i < |r| ==> r[i].y == if i < k then lmt[i].y else if i == k then y else lmt[i - 1].y;
    }
  }

  /** The table `r` has one bound more than `lmt`. */
  ghost predicate Entered(lmt: seq<Minimum>, r: seq<Minimum>, y: real, id: nat) {
    forall z :: BoundsAt(r, z) == BoundsAt(lmt, z) + if z == y then multiset{id} else multiset{}
  }

  /** Enters a bound that starts at height `y`. */
  method AddBound(t: Table, lmt: seq<Minimum>, y: real, id: nat) returns (r: seq<Minimum>)
    requires Sorted(t, lmt) && id < |t|
    ensures Sorted(t, r)
    ensures Entered(lmt, r, y, id)
  {
    hide Increasing, BoundsSorted, BoundsAt;
    var k, bounds;
    r, k := BoundList(lmt, y);
    ghost var found := r;
    FoundSorted(t, lmt, r, y, k);
    ghost var at;
    bounds, at := InsertBound(t, r[k].bounds, id);
    OneMore(r[k].bounds, id, at);
    r := r[k := r[k].(bounds := bounds)];
    EnteredSorted(t, found, k, bounds);
    forall z
      ensures BoundsAt(r, z) == BoundsAt(lmt, z) + if z == y then multiset{id} else multiset{}
    {
      FoundBounds(lmt, found, y, k, z);
      EnteredBounds(found, r, k, id, z);
    }
  }

  /** Only the entry that was looked for may still be empty. */
  lemma FoundSorted(t: Table, lmt: seq<Minimum>, r: seq<Minimum>, y: real, k: nat)
    requires Sorted(t, lmt) && k < |r|
    requires r == lmt || (k <= |lmt| && r == lmt[..k] + [Minimum(y, [])] + lmt[k..])
    ensures forall m :: 0 <= m < |r| ==> BoundsSorted(t, r[m].bounds) && (m != k ==> r[m].bounds != [])
  {
    if r != lmt {
      assert forall m :: 0 <= m < |r| ==>
        r[m] == if m < k then lmt[m] else if m == k then Minimum(y, []) else lmt[m - 1];
    }
  }

  lemma EnteredSorted(t: Table, lmt: seq<Minimum>, k: nat, bounds: seq<nat>)
    requires Increasing(lmt) && k < |lmt|
    requires forall m :: 0 <= m < |lmt| ==> BoundsSorted(t, lmt[m].bounds) && (m != k ==> lmt[m].bounds != [])
    requires BoundsSorted(t, bounds) && bounds != []
    ensures Sorted(t, lmt[k := lmt[k].(bounds := bounds)])
  {
    hide BoundsSorted;
  }

  lemma FoundBounds(lmt: seq<Minimum>, r: seq<Minimum>, y: real, k: nat, z: real)
    requires r == lmt || (k <= |lmt| && r == lmt[..k] + [Minimum(y, [])] + lmt[k..])
    ensures BoundsAt(r, z) == BoundsAt(lmt, z)
  {
    if r != lmt {
      assert r == lmt[..k] + ([Minimum(y, [])] + lmt[k..]);
      BoundsAtConcat(lmt[..k], [Minimum(y, [])] + lmt[k..], z);
      assert ([Minimum(y, [])] + lmt[k..])[1..] == lmt[k..];
      BoundsAtConcat(lmt[..k], lmt[k..], z);
      assert lmt == lmt[..k] + lmt[k..];
    }
  }

  lemma EnteredBounds(lmt: seq<Minimum>, r: seq<Minimum>, k: nat, id: nat, z: real)
    requires k < |lmt| == |r| && r == lmt[k := r[k]] && r[k].y == lmt[k].y
    requires multiset(r[k].bounds) == multiset(lmt[k].bounds) + multiset{id}
    ensures BoundsAt(r, z) == BoundsAt(lmt, z) + if z == lmt[k].y then multiset{id} else multiset{}
  {
    hide BoundsAt;
    var a, b := lmt[..k], lmt[k + 1..];
    BoundsAtEach(a, lmt[k], b, z);
    BoundsAtEach(a, r[k], b, z);
    SplitEntry(lmt, k);
    SplitEntry(r, k);
    assert r[..k] == a && r[k + 1..] == b;
  }

  lemma SplitEntry(lmt: seq<Minimum>, k: nat)
    requires k < |lmt|
    ensures lmt == lmt[..k] + ([lmt[k]] + lmt[k + 1..])
  {
  }

  lemma BoundsAtEach(a: seq<Minimum>, m: Minimum, b: seq<Minimum>, y: real)
    ensures BoundsAt(a + ([m] + b), y)
         == BoundsAt(a, y) + (if m.y == y then multiset(m.bounds) else multiset{}) + BoundsAt(b, y)
  {
    BoundsAtConcat(a, [m] + b, y);
    assert ([m] + b)[1..] == b;
  }
}
