/**
 Even-odd membership of a point in a polygon: the parity of the polygon's sides to its left.
 */
module Regions {
  import opened Base
  import opened Sides
  import opened Polygons

  /** The side is crossed at the level, to the left of x. */
  function ToLeft(l: Level, x: real, y: real): Segment -> bool {
    (s: Segment) => IsCrossed(s, l, y) && s.XAt(y) < x
  }

  predicate ContourMember(l: Level, v: seq<Point>, x: real, y: real) {
    Odd(CountIf(SidesOf(v), ToLeft(l, x, y)))
  }

  predicate Member(l: Level, p: Polygon, x: real, y: real) {
    Odd(CountIf(SidesOfPolygon(p), ToLeft(l, x, y)))
  }

  /** Each contour that counts turns membership over where it has the point. */
  lemma MemberSplits(l: Level, p: Polygon, x: real, y: real)
    ensures p == [] ==> !Member(l, p, x, y)
    ensures p != [] ==>
      var c := p[|p| - 1];
      Member(l, p, x, y) == (Member(l, p[..|p| - 1], x, y) != (c.Counts() && ContourMember(l, c.vertex, x, y)))
  {
    hide CountIf, ToLeft, SidesOf;
    NoneCounted(ToLeft(l, x, y));
    if p != [] {
      var c := p[|p| - 1];
      CountIfConcat(SidesOfPolygon(p[..|p| - 1]), if c.Counts() then SidesOf(c.vertex) else [], ToLeft(l, x, y));
    }
  }

  /** A box that contains the vertices. */
  predicate InBox(v: seq<Point>, xmin: real, ymin: real, xmax: real, ymax: real) {
    forall i :: 0 <= i < |v| ==> xmin <= v[i].x <= xmax && ymin <= v[i].y <= ymax
  }

  lemma Slide(d: real, h: real, k: real)
    requires 0.0 <= h <= k
    ensures d >= 0.0 ==> 0.0 <= d * h <= d * k
    ensures d <= 0.0 ==> d * k <= d * h <= 0.0
  {
  }

  /** A side stays between its ends. */
  lemma SideInBox(s: Segment, y: real, xmin: real, xmax: real)
    requires s.Valid() && s.bot.y <= y <= s.top.y
    requires xmin <= s.bot.x <= xmax && xmin <= s.top.x <= xmax
    ensures xmin <= s.XAt(y) <= xmax
  {
    Slide(s.dx, y - s.bot.y, s.top.y - s.bot.y);
  }

  lemma {:induction false} SideEnds(w: seq<Point>, k: nat, s: Segment)
    requires k <= |w| && s in SidesUpTo(w, k)
    ensures s.Valid() && s.bot in w && s.top in w
    decreases k
  {
    if s in SidesUpTo(w, k - 1) {
      SideEnds(w, k - 1, s);
    } else {
      assert s in SideOf(w, k - 1);
    }
  }

  lemma {:induction false} CountNone(a: seq<Segment>, test: Segment -> bool)
    requires forall s :: s in a ==> !test(s)
    ensures CountIf(a, test) == 0
    decreases |a|
  {
    if a != [] {
      CountNone(a[..|a| - 1], test);
    }
  }

  lemma {:induction false} CountSame(a: seq<Segment>, f: Segment -> bool, g: Segment -> bool)
    requires forall s :: s in a ==> f(s) == g(s)
    ensures CountIf(a, f) == CountIf(a, g)
    decreases |a|
  {
    if a != [] {
      CountSame(a[..|a| - 1], f, g);
    }
  }

  /** A contour has points only inside any box around its vertices. */
  lemma MemberInBox(l: Level, v: seq<Point>, x: real, y: real, xmin: real, ymin: real, xmax: real, ymax: real)
    requires InBox(v, xmin, ymin, xmax, ymax) && ContourMember(l, v, x, y)
    ensures xmin <= x <= xmax && ymin <= y <= ymax
  {
    forall s | s in SidesOf(v)
      ensures IsCrossed(s, l, y) ==> ymin <= y <= ymax && xmin <= s.XAt(y) <= xmax
    {
      SideEnds(v, |v|, s);
      if IsCrossed(s, l, y) {
        SideInBox(s, y, xmin, xmax);
      }
    }
    if y < ymin || y > ymax || x < xmin {
      CountNone(SidesOf(v), ToLeft(l, x, y));
    } else if x > xmax {
      CountSame(SidesOf(v), ToLeft(l, x, y), CrossedAt(l, y));
      CrossedEvenly(v, l, y);
    }
  }
}
