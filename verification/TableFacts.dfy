/**
 What the tables built from the two polygons have to do with the polygons: the sweep's
 requirements hold, and membership read off the table is membership in the polygons.
 */
module TableFacts {
  import opened Base
  import opened Edges
  import opened EdgeTable
  import opened Sides
  import opened Polygons
  import opened Regions
  import opened BuildLmt
  import opened Membership

  /** The edges of one polygon that pass a test. */
  ghost function Passing(t: Table, kind: Kind, test: Segment -> bool): set<nat> {
    set i: nat | 0 <= i < |t| && t[i].kind == kind && test(t[i].seg)
  }

  lemma {:induction false} PassingCount(t: Table, kind: Kind, test: Segment -> bool)
    ensures |Passing(t, kind, test)| == CountIf(SidesIn(t, kind), test)
    decreases |t|
  {
    hide CountIf;
    if t == [] {
      NoneCounted(test);
    } else {
      var n: nat := |t| - 1;
      var r := t[..n];
      PassingCount(r, kind, test);
      PassingLast(t, kind, test);
      CountOne(SidesIn(r, kind), t[n].seg, test);
    }
  }

  lemma PassingLast(t: Table, kind: Kind, test: Segment -> bool)
    requires t != []
    ensures var n: nat := |t| - 1;
            |Passing(t, kind, test)|
            == |Passing(t[..n], kind, test)| + if t[n].kind == kind && test(t[n].seg) then 1 else 0
  {
    var n: nat := |t| - 1;
    var all: set<nat>, some: set<nat> := Passing(t, kind, test), Passing(t[..n], kind, test);
    forall i: nat
      ensures i in all <==> i in some || (i == n && t[n].kind == kind && test(t[n].seg))
    {
      PassingMember(t, kind, test, i);
      PassingMember(t[..n], kind, test, i);
    }
    PassingMember(t[..n], kind, test, n);
    hide Passing;
    if t[n].kind == kind && test(t[n].seg) {
      assert all == some + {n};
    } else {
      assert all == some;
    }
  }

  lemma PassingMember(t: Table, kind: Kind, test: Segment -> bool, i: nat)
    ensures i in Passing(t, kind, test) <==> i < |t| && t[i].kind == kind && test(t[i].seg)
  {
  }

  lemma CountOne(a: seq<Segment>, x: Segment, test: Segment -> bool)
    ensures CountIf(a + [x], test) == CountIf(a, test) + if test(x) then 1 else 0
    ensures CountIf(a + [], test) == CountIf(a, test)
  {
    assert (a + [x])[..|a|] == a && a + [] == a;
  }

  /** The table holds exactly the sides of the two polygons. */
  ghost predicate Represents(t: Table, subj: Polygon, clip: Polygon) {
    && multiset(SidesIn(t, Subj)) == multiset(SidesOfPolygon(subj))
    && multiset(SidesIn(t, Clip)) == multiset(SidesOfPolygon(clip))
  }

  function PolygonOf(kind: Kind, subj: Polygon, clip: Polygon): Polygon {
    if kind == Subj then subj else clip
  }

  lemma PassingSides(t: Table, subj: Polygon, clip: Polygon, kind: Kind, test: Segment -> bool)
    requires Represents(t, subj, clip)
    ensures |Passing(t, kind, test)| == CountIf(SidesOfPolygon(PolygonOf(kind, subj, clip)), test)
  {
    PassingCount(t, kind, test);
    CountIfPermuted(SidesIn(t, kind), SidesOfPolygon(PolygonOf(kind, subj, clip)), test);
  }

  /** Every height is crossed an even number of times. */
  lemma TableIsEven(t: Table, subj: Polygon, clip: Polygon)
    requires Represents(t, subj, clip)
    ensures Even(t)
  {
    forall kind, y
      ensures |EdgeTable.CrossedAt(t, kind, y)| % 2 == 0
    {
      PassingSides(t, subj, clip, kind, Sides.CrossedAt(JustAbove, y));
      PolygonCrossedEvenly(PolygonOf(kind, subj, clip), JustAbove, y);
      assert EdgeTable.CrossedAt(t, kind, y) == Passing(t, kind, Sides.CrossedAt(JustAbove, y));
    }
  }

  /** Membership read off the table is membership in the polygon. */
  lemma MembershipIsMember(t: Table, subj: Polygon, clip: Polygon, kind: Kind, x: real, y: real)
    requires Represents(t, subj, clip)
    ensures MemberAbove(t, kind, x, y) == Member(JustAbove, PolygonOf(kind, subj, clip), x, y)
    ensures MemberBelow(t, kind, x, y) == Member(JustBelow, PolygonOf(kind, subj, clip), x, y)
  {
    LeftIsPassing(t, kind, x, y);
    hide Represents, LeftAbove, LeftBelow, Passing, ToLeft;
    PassingSides(t, subj, clip, kind, ToLeft(JustAbove, x, y));
    PassingSides(t, subj, clip, kind, ToLeft(JustBelow, x, y));
  }

  lemma LeftIsPassing(t: Table, kind: Kind, x: real, y: real)
    ensures LeftAbove(t, kind, x, y) == Passing(t, kind, ToLeft(JustAbove, x, y))
    ensures LeftBelow(t, kind, x, y) == Passing(t, kind, ToLeft(JustBelow, x, y))
  {
  }

  /** The ends of the sides are the vertices that are kept. */

  lemma {:induction false} PolygonSideEnds(p: Polygon, s: Segment)
    requires s in SidesOfPolygon(p)
    ensures s.bot in KeptOfPolygon(p) && s.top in KeptOfPolygon(p)
    decreases |p|
  {
    var r, c := p[..|p| - 1], p[|p| - 1];
    if s in SidesOfPolygon(r) {
      PolygonSideEnds(r, s);
    } else {
      OptimisationKeepsSides(c.vertex);
      SideEnds(Kept(c.vertex), |Kept(c.vertex)|, s);
    }
  }

  lemma {:induction false} KeptComesFrom(v: seq<Point>, k: nat, q: Point)
    requires k <= |v| && q in KeptUpTo(v, k)
    ensures exists i :: 0 <= i < k && Optimal(v, i) && v[i] == q
    decreases k
  {
    if q in KeptUpTo(v, k - 1) {
      KeptComesFrom(v, k - 1, q);
    } else {
      assert Optimal(v, k - 1) && v[k - 1] == q;
    }
  }

  lemma {:induction false} PolygonKeptEnds(p: Polygon, q: Point) returns (s: Segment)
    requires q in KeptOfPolygon(p)
    ensures s in SidesOfPolygon(p) && (s.bot == q || s.top == q)
    decreases |p|
  {
    var r, c := p[..|p| - 1], p[|p| - 1];
    if q in KeptOfPolygon(r) {
      s := PolygonKeptEnds(r, q);
    } else {
      KeptComesFrom(c.vertex, |c.vertex|, q);
      var i :| 0 <= i < |c.vertex| && Optimal(c.vertex, i) && c.vertex[i] == q;
      s := KeptEndsSide(c.vertex, i);
    }
  }

  lemma {:induction false} EdgeAmongSides(t: Table, i: nat)
    requires i < |t|
    ensures t[i].seg in SidesIn(t, t[i].kind)
    decreases |t|
  {
    if i < |t| - 1 {
      EdgeAmongSides(t[..|t| - 1], i);
    }
  }

  lemma {:induction false} SideIsEdge(t: Table, kind: Kind, s: Segment) returns (i: nat)
    requires s in SidesIn(t, kind)
    ensures i < |t| && t[i].seg == s
    decreases |t|
  {
    var r := t[..|t| - 1];
    if s in SidesIn(r, kind) {
      i := SideIsEdge(r, kind, s);
    } else {
      i := |t| - 1;
    }
  }

  /** Every edge of the table is a side of one of the polygons. */
  lemma EdgeIsSide(t: Table, subj: Polygon, clip: Polygon, i: nat)
    requires Represents(t, subj, clip) && i < |t|
    ensures t[i].seg in SidesOfPolygon(PolygonOf(t[i].kind, subj, clip))
  {
    EdgeAmongSides(t, i);
    assert t[i].seg in multiset(SidesIn(t, t[i].kind));
  }

  /** Every side of the polygons is in the table. */
  lemma SideInTable(t: Table, subj: Polygon, clip: Polygon, kind: Kind, s: Segment)
    requires Represents(t, subj, clip) && s in SidesOfPolygon(PolygonOf(kind, subj, clip))
    ensures s in SidesIn(t, kind)
  {
    assert s in multiset(SidesOfPolygon(PolygonOf(kind, subj, clip)));
  }

  ghost predicate RecordedHeights(ys: seq<real>, subj: Polygon, clip: Polygon) {
    && (forall k, l :: 0 <= k < l < |ys| ==> ys[k] < ys[l])
    && (forall y :: y in ys <==>
          (exists q :: q in KeptOfPolygon(subj) && q.y == y) || (exists q :: q in KeptOfPolygon(clip) && q.y == y))
  }

  /** The recorded heights are the heights of the edges' ends. */
  lemma HeightsOfTable(t: Table, ys: seq<real>, subj: Polygon, clip: Polygon)
    requires Represents(t, subj, clip) && RecordedHeights(ys, subj, clip)
    ensures Heights(t, ys)
  {
    hide Represents, SidesOfPolygon, KeptOfPolygon, SidesIn;
    forall i | 0 <= i < |t|
      ensures t[i].seg.bot.y in ys && t[i].seg.top.y in ys
    {
      EdgeIsSide(t, subj, clip, i);
      PolygonSideEnds(PolygonOf(t[i].kind, subj, clip), t[i].seg);
    }
    forall y | y in ys
      ensures exists i :: 0 <= i < |t| && (t[i].seg.bot.y == y || t[i].seg.top.y == y)
    {
      var kind := if exists q :: q in KeptOfPolygon(subj) && q.y == y then Subj else Clip;
      var q :| q in KeptOfPolygon(PolygonOf(kind, subj, clip)) && q.y == y;
      var s := PolygonKeptEnds(PolygonOf(kind, subj, clip), q);
      SideInTable(t, subj, clip, kind, s);
      var i := SideIsEdge(t, kind, s);
    }
  }
}
