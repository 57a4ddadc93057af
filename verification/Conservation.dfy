/**
 Vertices are neither lost nor made up: adding adds one vertex, joining keeps them all, and
 the result has the vertices of the contours that it keeps.
 */
module Conservation {
  import opened Base
  import opened Output
  import opened Results
  import opened Sums

  /** How often `q` is among the vertices. */
  function Times(v: seq<Point>, q: Point): nat {
    multiset(v)[q]
  }

  lemma TimesConcat(v: seq<Point>, w: seq<Point>, q: Point)
    ensures Times(v + w, q) == Times(v, q) + Times(w, q)
  {
  }

  lemma TimesOne(p: Point, q: Point)
    ensures Times([p], q) == if p == q then 1 else 0
  {
  }

  function TimesIn(q: Point): Poly -> int {
    (c: Poly) => Times(c.verts, q)
  }

  lemma TimesShaped(q: Point)
    ensures Shaped(TimesIn(q))
  {
  }

  /** How often `q` is among the vertices of all contours. */
  function Vertices(s: Store, q: Point): int {
    Sum(s, TimesIn(q))
  }

  /** Adding a vertex adds just that vertex. */
  lemma AddConserves(s: Store, e: End, pt: Point, q: Point)
    requires Valid(s) && e.poly < |s|
    ensures Vertices(Add(s, e, pt), q) == Vertices(s, q) + if q == pt then 1 else 0
  {
    hide Times, Sum;
    var v := s[Rep(s, e)].verts;
    TimesOne(pt, q);
    TimesConcat([pt], v, q);
    TimesConcat(v, [pt], q);
    AddSum(s, e, pt, TimesIn(q));
  }

  lemma AddLocalMinConserves(s: Store, pt: Point, q: Point)
    ensures Vertices(AddLocalMin(s, pt), q) == Vertices(s, q) + if q == pt then 1 else 0
  {
    hide Times, Sum;
    TimesOne(pt, q);
    AddLocalMinSum(s, pt, TimesIn(q));
  }

  /** Joining moves vertices from one node to another. */
  lemma MergeConserves(s: Store, p: nat, q: nat, side: Side, v: Point)
    requires Valid(s) && p < |s| && q < |s|
    ensures Vertices(Merge(s, p, q, side), v) == Vertices(s, v)
  {
    hide Times, Sum, Shaped;
    var rp, rq := s[p].proxy, s[q].proxy;
    TimesConcat(s[rp].verts, s[rq].verts, v);
    TimesConcat(s[rq].verts, s[rp].verts, v);
    TimesShaped(v);
    MergeSum(s, p, q, side, TimesIn(v));
  }

  /** Edits that add a vertex at one place only. */

  function One(b: bool): nat {
    if b then 1 else 0
  }

  /** The n vertices added are all at `pt`. */
  ghost predicate Adds(s: Store, t: Store, pt: Point, n: nat) {
    forall v :: Vertices(t, v) == Vertices(s, v) + if v == pt then n else 0
  }

  lemma AddsNone(s: Store, pt: Point)
    ensures Adds(s, s, pt, 0)
  {
  }

  lemma AddsOne(s: Store, e: End, pt: Point)
    requires Valid(s) && e.poly < |s|
    ensures Adds(s, Add(s, e, pt), pt, 1)
  {
    hide Vertices, Add;
    forall v
      ensures Vertices(Add(s, e, pt), v) == Vertices(s, v) + if v == pt then 1 else 0
    {
      AddConserves(s, e, pt, v);
    }
  }

  lemma AddsLocalMin(s: Store, pt: Point)
    ensures Adds(s, AddLocalMin(s, pt), pt, 1)
  {
    hide Vertices, AddLocalMin;
    forall v
      ensures Vertices(AddLocalMin(s, pt), v) == Vertices(s, v) + if v == pt then 1 else 0
    {
      AddLocalMinConserves(s, pt, v);
    }
  }

  lemma AddsByMerge(s: Store, p: nat, q: nat, side: Side, pt: Point)
    requires Valid(s) && p < |s| && q < |s|
    ensures Adds(s, Merge(s, p, q, side), pt, 0)
  {
    hide Vertices, Merge;
    forall v
      ensures Vertices(Merge(s, p, q, side), v) == Vertices(s, v)
    {
      MergeConserves(s, p, q, side, v);
    }
  }

  lemma AddsBoth(s: Store, t: Store, u: Store, pt: Point, m: nat, n: nat)
    requires Adds(s, t, pt, m) && Adds(t, u, pt, n)
    ensures Adds(s, u, pt, m + n)
  {
    hide Vertices;
  }

  /** Joining two ends, one of which moves on to `pt` if `moves`, and perhaps starting a contour
      there. */
  lemma MeetAdds(s: Store, p: nat, q: nat, side: Side, moves: bool, starts: bool, pt: Point)
    requires Valid(s) && p < |s| && q < |s|
    ensures var t := if moves then Add(s, End(p, side), pt) else s;
            && Valid(t) && |t| == |s|
            && var u := Merge(t, p, q, side);
               Adds(s, if starts then AddLocalMin(u, pt) else u, pt, One(moves) + One(starts))
  {
    hide Adds, Valid, Add, Merge, AddLocalMin;
    AddKeepsOthers(s, End(p, side), pt);
    AddsNone(s, pt);
    AddsOne(s, End(p, side), pt);
    var t := if moves then Add(s, End(p, side), pt) else s;
    AddsByMerge(t, p, q, side, pt);
    AddsBoth(s, t, Merge(t, p, q, side), pt, One(moves), 0);
    AddsLocalMin(Merge(t, p, q, side), pt);
    AddsBoth(s, Merge(t, p, q, side), AddLocalMin(Merge(t, p, q, side), pt), pt, One(moves), 1);
  }

  /** How often `q` is among the vertices of the result. */
  function ResultVertices(r: seq<ResultContour>, q: Point): nat {
    if r == [] then 0 else ResultVertices(r[..|r| - 1], q) + Times(r[|r| - 1].vertex, q)
  }

  /** The nodes that the result leaves out. */
  function Dropped(s: Store): Store {
    if s == [] then [] else (if Valued(s[0]) then [] else [s[0]]) + Dropped(s[1..])
  }

  lemma {:induction false} ReversedVertices(v: seq<Point>, q: Point)
    ensures Times(Reversed(v), q) == Times(v, q)
    decreases |v|
  {
    hide Times;
    if v == [] {
      assert Reversed(v) == v;
    } else {
      assert Reversed(v) == Reversed(v[1..]) + [v[0]];
      ReversedVertices(v[1..], q);
      assert v == [v[0]] + v[1..];
      TimesConcat(Reversed(v[1..]), [v[0]], q);
      TimesConcat([v[0]], v[1..], q);
    }
  }

  /** Extraction keeps every vertex of every contour that it does not drop as too short. */
  lemma {:induction false} ExtractConserves(s: Store, q: Point)
    ensures Vertices(s, q) == ResultVertices(Extract(s), q) + Vertices(Dropped(s), q)
    decreases |s|
  {
    hide Times;
    if s != [] {
      var r := Extract(s[1..]);
      ExtractConserves(s[1..], q);
      if Valued(s[0]) {
        assert (r + [ContourOf(s[0])])[..|r|] == r;
        assert Dropped(s) == Dropped(s[1..]);
        ReversedVertices(s[0].verts, q);
      } else {
        assert r + [] == r;
        assert ([s[0]] + Dropped(s[1..]))[1..] == Dropped(s[1..]);
      }
    }
  }
}
