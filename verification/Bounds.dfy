/**
 The bounds that `build_lmt` cuts a contour into: what a bound adds to the tables, and
 why together they use every side that is not horizontal exactly once.
 */
module Bounds {
  import opened Base
  import opened Edges
  import opened EdgeTable
  import opened LocalMinima
  import opened Cycle
  import opened Sides

  /** The edges of the bound that climbs the vertices `c`, placed in the table from place
      `base` on. */
  function BoundEdges(w: seq<Point>, d: Direction, kind: Kind, c: seq<nat>, base: nat): (r: seq<EdgeInfo>)
    requires forall k :: 0 <= k < |c| ==> c[k] < |w| && Climbs(w, d, c[k])
    ensures |r| == |c| && forall k :: 0 <= k < |c| ==> r[k] == BoundEdge(w, d, kind, c, base, k)
  {
    seq(|c|, k requires 0 <= k < |c| => BoundEdge(w, d, kind, c, base, k))
  }

  function BoundEdge(w: seq<Point>, d: Direction, kind: Kind, c: seq<nat>, base: nat, k: nat): EdgeInfo
    requires k < |c| && c[k] < |w| && Climbs(w, d, c[k])
  {
    EdgeInfo(kind, Rising(w[c[k]], w[Ahead(d, c[k], |w|)]),
             if k > 0 then Some(base + k - 1) else None,
             if k + 1 < |c| then Some(base + k + 1) else None)
  }

  /** A climb from a local minimum, as a bound. */
  ghost function Bound(w: seq<Point>, d: Direction, kind: Kind, min: nat, base: nat): (r: seq<EdgeInfo>)
    requires min < |w|
  {
    ClimbSteps(w, d, min);
    BoundEdges(w, d, kind, Climb(w, d, min), base)
  }

  /** An edge of a bound is followed by the next one exactly if the contour climbs on, and preceded
      exactly if it is not the first; it runs between two neighbouring vertices. */
  lemma BoundIsLinked(w: seq<Point>, d: Direction, kind: Kind, min: nat, base: nat, k: nat)
    requires min < |w| && k < |Bound(w, d, kind, min, base)|
    ensures k < |Climb(w, d, min)|
    ensures var (e, i) := (Bound(w, d, kind, min, base)[k], Climb(w, d, min)[k]); var j := Ahead(d, i, |w|);
            && e.kind == kind && e.seg.bot == w[i] && e.seg.top == w[j] && e.seg.Valid()
            && e.pred == (if k > 0 then Some(base + k - 1) else None)
            && e.succ == if Climbs(w, d, j) then Some(base + k + 1) else None
  {
    ClimbSteps(w, d, min);
    var c := Climb(w, d, min);
    assert |c| == |Bound(w, d, kind, min, base)|;
    hide Climb, Rising;
    assert k + 1 < |c| ==> c[k + 1] == Ahead(d, c[k], |w|) && Climbs(w, d, c[k + 1]);
    assert k + 1 == |c| ==> !Climbs(w, d, Ahead(d, c[k], |w|));
  }

  /** The tables while they are built. */
  ghost predicate Built(t: Table, lmt: seq<Minimum>) {
    && Chained(t) && LocalMinima.Sorted(t, lmt)
    && forall y :: BoundsAt(lmt, y) == multiset(Starting(t, y))
  }

  lemma AppendChained(t: Table, w: seq<Point>, d: Direction, kind: Kind, min: nat)
    requires Chained(t) && min < |w|
    ensures Chained(t + Bound(w, d, kind, min, |t|))
  {
    var b := Bound(w, d, kind, min, |t|);
    var t' := t + b;
    ClimbSteps(w, d, min);
    forall i | 0 <= i < |t'|
      ensures ChainedAt(t', i)
    {
      if i < |t| {
        assert ChainedAt(t, i);
      } else {
        assert t'[i] == b[i - |t|];
        assert i + 1 < |t'| ==> t'[i + 1] == b[i + 1 - |t|];
        assert i > |t| ==> t'[i - 1] == b[i - 1 - |t|];
      }
    }
  }

  lemma AppendStarting(t: Table, w: seq<Point>, d: Direction, kind: Kind, min: nat, y: real)
    requires min < |w| && IsMin(w, d, min)
    ensures |t| !in Starting(t, y)
    ensures Starting(t + Bound(w, d, kind, min, |t|), y)
         == Starting(t, y) + if w[min].y == y then {|t|} else {}
  {
    var b := Bound(w, d, kind, min, |t|);
    var t' := t + b;
    ClimbSteps(w, d, min);
    forall i: nat
      ensures i in Starting(t', y) <==> i in Starting(t, y) || (i == |t| && w[min].y == y)
    {
      if i < |t| {
        assert t'[i] == t[i];
      } else if i < |t'| {
        assert t'[i] == b[i - |t|];
      }
    }
  }

  lemma AppendSorted(t: Table, b: seq<EdgeInfo>, lmt: seq<Minimum>)
    requires LocalMinima.Sorted(t, lmt)
    ensures LocalMinima.Sorted(t + b, lmt)
  {
    forall m | 0 <= m < |lmt|
      ensures BoundsSorted(t + b, lmt[m].bounds)
    {
      assert BoundsSorted(t, lmt[m].bounds);
    }
  }

  /** Entering the new bound keeps the tables in step. */
  lemma AppendBuilt(t: Table, lmt: seq<Minimum>, lmt': seq<Minimum>, w: seq<Point>, d: Direction, kind: Kind, min: nat)
    requires Built(t, lmt) && min < |w| && IsMin(w, d, min)
    requires LocalMinima.Sorted(t + Bound(w, d, kind, min, |t|), lmt')
    requires Entered(lmt, lmt', w[min].y, |t|)
    ensures Built(t + Bound(w, d, kind, min, |t|), lmt')
  {
    hide LocalMinima.Sorted, Chained, Bound, Starting;
    var t' := t + Bound(w, d, kind, min, |t|);
    AppendChained(t, w, d, kind, min);
    forall y
      ensures BoundsAt(lmt', y) == multiset(Starting(t', y))
    {
      AppendStarting(t, w, d, kind, min, y);
      if y == w[min].y {
        var was: set<nat>, n: nat := Starting(t, y), |t|;
        assert multiset(was + {n}) == multiset(was) + multiset{n};
      } else {
        assert Starting(t', y) == Starting(t, y);
      }
    }
  }

  /** The finished tables are what the sweep needs. */
  lemma BuiltIsMinima(t: Table, lmt: seq<Minimum>)
    requires Built(t, lmt)
    ensures Minima(t, lmt)
  {
    forall m | 0 <= m < |lmt|
      ensures MinimumAt(t, lmt[m])
    {
      BoundsAtEntry(lmt, m);
      assert BoundsAt(lmt, lmt[m].y) == multiset(Starting(t, lmt[m].y));
    }
    forall i | 0 <= i < |t| && t[i].pred.None?
      ensures exists m :: 0 <= m < |lmt| && lmt[m].y == t[i].seg.bot.y
    {
      var y := t[i].seg.bot.y;
      assert i in Starting(t, y);
      assert BoundsAt(lmt, y) == multiset(Starting(t, y));
      NoEntryNoBounds(lmt, y);
    }
  }

  lemma {:induction false} NoEntryNoBounds(lmt: seq<Minimum>, y: real)
    ensures (forall m :: 0 <= m < |lmt| ==> lmt[m].y != y) ==> BoundsAt(lmt, y) == multiset{}
    decreases |lmt|
  {
    if lmt != [] {
      NoEntryNoBounds(lmt[1..], y);
      assert forall m :: 0 <= m < |lmt[1..]| ==> lmt[1..][m] == lmt[m + 1];
    }
  }

  lemma FirstBounds(m: Minimum, b: seq<Minimum>, y: real)
    ensures BoundsAt([m] + b, y) == (if m.y == y then multiset(m.bounds) else multiset{}) + BoundsAt(b, y)
  {
    assert ([m] + b)[1..] == b;
  }

  lemma OnlyEntry(a: seq<Minimum>, m: Minimum, b: seq<Minimum>)
    requires forall n :: 0 <= n < |a| ==> a[n].y != m.y
    requires forall n :: 0 <= n < |b| ==> b[n].y != m.y
    ensures BoundsAt(a + ([m] + b), m.y) == multiset(m.bounds)
  {
    FirstBounds(m, b, m.y);
    hide BoundsAt;
    BoundsAtConcat(a, [m] + b, m.y);
    NoEntryNoBounds(a, m.y);
    NoEntryNoBounds(b, m.y);
  }

  lemma BoundsAtEntry(lmt: seq<Minimum>, m: nat)
    requires Increasing(lmt) && m < |lmt|
    ensures BoundsAt(lmt, lmt[m].y) == multiset(lmt[m].bounds)
  {
    hide BoundsAt;
    var a, b, y := lmt[..m], lmt[m + 1..], lmt[m].y;
    assert forall n :: 0 <= n < |a| ==> a[n].y < y;
    forall n | 0 <= n < |b|
      ensures b[n].y > y
    {
      assert b[n] == lmt[m + 1 + n];
    }
    OnlyEntry(a, lmt[m], b);
    SplitEntry(lmt, m);
  }
}
