/**
 `build_lmt`: the vertices of a contour are put into the edge array, and the same array
 takes up the edges of the bounds that the contour is cut into.
 */
module BuildLmt {
  import opened Base
  import opened Edges
  import opened LocalMinima
  import opened ScanbeamTree
  import opened Cycle
  import opened Sides
  import opened Bounds
  import opened Coverage
  import opened Polygons

  /** An element of the edge array: a contour vertex, and an edge. */
  datatype EdgeSlot = EdgeSlot(vertex: Point, info: EdgeInfo)

  /** The array holds the vertices `w` of the contour at work, and the edges of the table
      from `base` on. */
  ghost predicate InPlace(slots: array<EdgeSlot>, w: seq<Point>, t: Table, base: nat)
    reads slots
  {
    && |w| <= slots.Length && base <= |t| <= base + slots.Length
    && (forall i :: 0 <= i < |w| ==> slots[i].vertex == w[i])
    && (forall i :: 0 <= i < |t| - base ==> slots[i].info == t[base + i])
  }

  /** The heights `after` are those of `before` and of the points `v`. */
  ghost predicate Recorded(v: seq<Point>, before: set<real>, after: set<real>) {
    forall y :: y in after <==> y in before || exists q :: q in v && q.y == y
  }

  lemma RecordedNone(before: set<real>)
    ensures Recorded([], before, before)
  {
  }

  lemma RecordedMore(v: seq<Point>, p: Point, before: set<real>, after: set<real>)
    requires Recorded(v, before, after)
    ensures Recorded(v + [p], before, after + {p.y})
  {
    forall y
      ensures y in after + {p.y} <==> y in before || exists q :: q in v + [p] && q.y == y
    {
      if q :| q in v && q.y == y {
        assert q in v + [p];
      }
      assert p in v + [p];
      assert forall q :: q in v + [p] ==> q in v || q == p;
    }
  }

  lemma KeptNext(v: seq<Point>, i: nat)
    requires i < |v|
    ensures KeptUpTo(v, i + 1) == if Optimal(v, i) then KeptUpTo(v, i) + [v[i]] else KeptUpTo(v, i)
    ensures |KeptUpTo(v, i + 1)| <= |Kept(v)|
  {
    KeptPrefix(v, i + 1, |v|);
  }

  lemma KeptStart(v: seq<Point>)
    ensures KeptUpTo(v, 0) == [] && KeptUpTo(v, |v|) == Kept(v)
  {
  }

  /** Puts the optimal vertices of a contour into the array, and their heights into the
      scanbeam tree. */
  method OptimiseContour(slots: array<EdgeSlot>, v: seq<Point>, entries: nat, tree: Tree)
    returns (m: nat, entries': nat, tree': Tree)
    requires |Kept(v)| <= slots.Length && Ordered(tree) && entries == Size(tree)
    modifies slots
    ensures m == |Kept(v)| && forall i :: 0 <= i < m ==> slots[i].vertex == Kept(v)[i]
    ensures forall i :: 0 <= i < slots.Length ==> slots[i].info == old(slots[i].info)
    ensures Ordered(tree') && entries' == Size(tree')
    ensures Recorded(Kept(v), HeightsOf(tree), HeightsOf(tree'))
  {
    hide KeptUpTo, Kept, Optimal, Recorded, Ordered, Size, HeightsOf, AddToSbtree;
    m, entries', tree' := 0, entries, tree;
    KeptStart(v);
    RecordedNone(HeightsOf(tree));
    for i := 0 to |v|
      invariant m == |KeptUpTo(v, i)| <= slots.Length && forall j :: 0 <= j < m ==> slots[j].vertex == KeptUpTo(v, i)[j]
      invariant forall j :: 0 <= j < slots.Length ==> slots[j].info == old(slots[j].info)
      invariant Ordered(tree') && entries' == Size(tree')
      invariant Recorded(KeptUpTo(v, i), HeightsOf(tree), HeightsOf(tree'))
    {
      KeptNext(v, i);
      if Optimal(v, i) {
        AddKeepsOrder(entries', tree', v[i].y);
        RecordedMore(KeptUpTo(v, i), v[i], HeightsOf(tree), HeightsOf(tree'));
        slots[m] := slots[m].(vertex := v[i]);
        var (n, grown) := AddToSbtree(entries', tree', v[i].y);
        entries', tree' := n, grown;
        m := m + 1;
      }
    }
  }

  ghost predicate VerticesAre(slots: array<EdgeSlot>, w: seq<Point>)
    reads slots
  {
    |w| <= slots.Length && forall i :: 0 <= i < |w| ==> slots[i].vertex == w[i]
  }

  /** Searches for the next local maximum in direction d and counts the edges on the way. */
  method CountEdges(slots: array<EdgeSlot>, d: Direction, m: nat, min: nat, ghost w: seq<Point>) returns (n: nat)
    requires |w| == m && VerticesAre(slots, w) && min < m && IsMin(w, d, min)
    ensures n == |Climb(w, d, min)|
  {
    n := 1;
    var max: nat := Ahead(d, min, m);
    assert Climb(w, d, min) == [min] + Climb(w, d, max);
    while slots[Ahead(d, max, m)].vertex.y > slots[max].vertex.y
      invariant max < m && n + |Climb(w, d, max)| == |Climb(w, d, min)|
      decreases |Higher(w, w[max].y)|
    {
      FewerHigher(w, max, Ahead(d, max, m));
      n := n + 1;
      max := Ahead(d, max, m);
    }
  }

  /** The k-th of n edges of a bound whose first edge goes to place `base` of the table. */
  function EdgeOf(kind: Kind, bot: Point, top: Point, base: nat, k: nat, n: nat): EdgeInfo
    requires bot.y < top.y
  {
    EdgeInfo(
      kind,
      Rising(bot, top),
      if n > 1 && k > 0 then Some(base + k - 1) else None,
      if n > 1 && k < n - 1 then Some(base + k + 1) else None)
  }

  lemma BoundEdgeIs(w: seq<Point>, d: Direction, kind: Kind, min: nat, base: nat, k: nat)
    requires min < |w| && k < |Climb(w, d, min)|
    ensures var c := Climb(w, d, min); var n := |c|;
            && Climbs(w, d, c[k]) && |Bound(w, d, kind, min, base)| == n
            && (k + 1 < n ==> c[k + 1] == Ahead(d, c[k], |w|))
            && Bound(w, d, kind, min, base)[k] == EdgeOf(kind, w[c[k]], w[Ahead(d, c[k], |w|)], base, k, n)
  {
    ClimbSteps(w, d, min);
  }

  /** Writes an edge into the array; the vertices stay. */
  method WriteEdge(slots: array<EdgeSlot>, j: nat, info: EdgeInfo, ghost w: seq<Point>)
    requires j < slots.Length && VerticesAre(slots, w)
    modifies slots
    ensures VerticesAre(slots, w) && slots[j].info == info
    ensures forall i :: 0 <= i < slots.Length && i != j ==> slots[i].info == old(slots[i].info)
  {
    slots[j] := slots[j].(info := info);
  }

  lemma VertexAt(slots: array<EdgeSlot>, w: seq<Point>, i: nat)
    requires VerticesAre(slots, w) && i < |w|
    ensures i < slots.Length && slots[i].vertex == w[i]
  {
  }

  /** Fills in the edges of the bound that climbs from vertex `min`, from place `e` on. */
  method FillBound(slots: array<EdgeSlot>, d: Direction, m: nat, kind: Kind, base: nat, e: nat, min: nat, n: nat,
                   ghost w: seq<Point>)
    requires |w| == m && VerticesAre(slots, w)
    requires min < m && n == |Climb(w, d, min)| && n > 0 && e + n <= slots.Length
    modifies slots
    ensures VerticesAre(slots, w) && |Bound(w, d, kind, min, base + e)| == n
    ensures forall i :: 0 <= i < slots.Length && !(e <= i < e + n) ==> slots[i].info == old(slots[i].info)
    ensures forall j :: e <= j < e + n ==> slots[j].info == Bound(w, d, kind, min, base + e)[j - e]
  {
    hide Bound, Climb, EdgeOf, VerticesAre;
    ghost var c, b := Climb(w, d, min), Bound(w, d, kind, min, base + e);
    BoundEdgeIs(w, d, kind, min, base + e, 0);
    ClimbSteps(w, d, min);
    var v: nat := min;
    for i := 0 to n
      invariant v < m && (i < n ==> v == c[i]) && |b| == n
      invariant VerticesAre(slots, w)
      invariant forall j :: 0 <= j < slots.Length && !(e <= j < e + i) ==> slots[j].info == old(slots[j].info)
      invariant forall j :: e <= j < e + i ==> slots[j].info == b[j - e]
    {
      BoundEdgeIs(w, d, kind, min, base + e, i);
      VertexAt(slots, w, v);
      VertexAt(slots, w, Ahead(d, v, m));
      var bot := slots[v].vertex;
      v := Ahead(d, v, m);
      var top := slots[v].vertex;
      WriteEdge(slots, e + i, EdgeOf(kind, bot, top, base + e, i, n), w);
    }
  }

  function Infos(s: seq<EdgeSlot>): (t: Table)
    ensures |t| == |s| && forall i :: 0 <= i < |s| ==> t[i] == s[i].info
  {
    seq(|s|, i requires 0 <= i < |s| => s[i].info)
  }

  lemma MinInPlace(slots: array<EdgeSlot>, w: seq<Point>, t: Table, base: nat, d: Direction, min: nat)
    requires InPlace(slots, w, t, base) && min < |w|
    ensures VerticesAre(slots, w) && base <= |t| <= base + slots.Length
    ensures forall i :: 0 <= i < |t| - base ==> slots[i].info == t[base + i]
    ensures IsMin(w, d, min) <==>
      slots[Behind(d, min, |w|)].vertex.y >= slots[min].vertex.y
        && slots[Ahead(d, min, |w|)].vertex.y > slots[min].vertex.y
  {
  }

  /** Edges filled in behind those in the table are the table's next edges. */
  lemma Filled(slots: array<EdgeSlot>, w: seq<Point>, t: Table, b: seq<EdgeInfo>, base: nat, e: nat, n: nat)
    requires VerticesAre(slots, w) && |t| == base + e && |b| == n && e + n <= slots.Length
    requires forall i :: 0 <= i < e ==> slots[i].info == t[base + i]
    requires forall j :: e <= j < e + n ==> slots[j].info == b[j - e]
    ensures Infos(slots[e..e + n]) == b && InPlace(slots, w, t + b, base)
  {
  }

  /** There is room in the array for the edges of the next bound. */
  lemma RoomForBound(w: seq<Point>, kind: Kind, t: Table, start: nat, origin: seq<nat>, d: Direction,
                     fmin: nat, rmin: nat, min: nat)
    requires min < |w| && min == (if d == Forward then fmin else rmin) && IsMin(w, d, min)
    requires CutSoFar(w, kind, t, start, origin, fmin, rmin)
    ensures 0 < |Climb(w, d, min)| && |t| + |Climb(w, d, min)| <= start + |w|
  {
    hide Bound;
    MinIsRoot(w, d, min);
    CutBound(w, kind, t, start, origin, d, fmin, rmin, min);
    var t', all := t + Bound(w, d, kind, min, |t|), origin + ClimbSides(w, d, min);
    forall k | 0 <= k < |all|
      ensures all[k] < |w|
    {
      assert IsSide(w, kind, t'[start + k], all[k]);
    }
    FitsIn(all, |w|);
  }

  lemma BuiltSorted(t: Table, b: seq<EdgeInfo>, lmt: seq<Minimum>)
    requires Built(t, lmt)
    ensures LocalMinima.Sorted(t + b, lmt)
  {
    AppendSorted(t, b, lmt);
  }

  /** Adds the bound that climbs from a local minimum to the tables. */
  method BuildBound(slots: array<EdgeSlot>, d: Direction, m: nat, kind: Kind, base: nat, min: nat,
                    t: Table, lmt: seq<Minimum>, ghost w: seq<Point>)
    returns (t': Table, lmt': seq<Minimum>)
    requires |w| == m && InPlace(slots, w, t, base) && min < m && IsMin(w, d, min)
    requires 0 < |Climb(w, d, min)| && |t| - base + |Climb(w, d, min)| <= slots.Length
    requires Built(t, lmt)
    modifies slots
    ensures t' == t + Bound(w, d, kind, min, |t|)
    ensures InPlace(slots, w, t', base) && Built(t', lmt')
  {
    hide Built, Bound, IsMin, InPlace, Climb, LocalMinima.Sorted, Entered;
    MinInPlace(slots, w, t, base, d, min);
    var e := |t| - base;
    var n := CountEdges(slots, d, m, min, w);
    FillBound(slots, d, m, kind, base, e, min, n, w);
    ghost var bound := Bound(w, d, kind, min, |t|);
    Filled(slots, w, t, bound, base, e, n);
    var b := Infos(slots[e..e + n]);
    t' := t + b;
    BuiltSorted(t, b, lmt);
    lmt' := AddBound(t', lmt, slots[min].vertex.y, |t|);
    AppendBuilt(t, lmt, lmt', w, d, kind, min);
  }

  /** One pass over a contour: a bound for every local minimum of its direction. */
  method BuildPass(slots: array<EdgeSlot>, d: Direction, m: nat, kind: Kind, base: nat, t0: Table, lmt0: seq<Minimum>,
                   ghost w: seq<Point>, ghost start: nat, ghost origin0: seq<nat>)
    returns (t: Table, lmt: seq<Minimum>, ghost origin: seq<nat>)
    requires |w| == m && InPlace(slots, w, t0, base) && base <= start && (start - base) + m <= slots.Length
    requires Built(t0, lmt0)
    requires CutSoFar(w, kind, t0, start, origin0, if d == Forward then 0 else m, 0)
    modifies slots
    ensures InPlace(slots, w, t, base) && t0 <= t && Built(t, lmt)
    ensures CutSoFar(w, kind, t, start, origin, m, if d == Forward then 0 else m)
  {
    hide Built, CutSoFar, Bound, IsMin, InPlace, Climb;
    t, lmt, origin := t0, lmt0, origin0;
    for min := 0 to m
      invariant InPlace(slots, w, t, base) && t0 <= t && Built(t, lmt)
      invariant CutSoFar(w, kind, t, start, origin, if d == Forward then min else m, if d == Forward then 0 else min)
    {
      ghost var fmin, rmin := if d == Forward then min else m, if d == Forward then 0 else min;
      MinInPlace(slots, w, t, base, d, min);
      if slots[Behind(d, min, m)].vertex.y >= slots[min].vertex.y
        && slots[Ahead(d, min, m)].vertex.y > slots[min].vertex.y {
        CutBound(w, kind, t, start, origin, d, fmin, rmin, min);
        RoomForBound(w, kind, t, start, origin, d, fmin, rmin, min);
        origin := origin + ClimbSides(w, d, min);
        t, lmt := BuildBound(slots, d, m, kind, base, min, t, lmt, w);
      } else {
        PassOver(w, kind, t, start, origin, d, fmin, rmin, min);
      }
    }
  }

  /** The sides of one polygon in the table. */
  ghost function SidesIn(t: Table, kind: Kind): seq<Segment> {
    if t == [] then []
    else SidesIn(t[..|t| - 1], kind) + (var e := t[|t| - 1]; if e.kind == kind then [e.seg] else [])
  }

  /** What a contour adds to the table. */
  lemma {:induction false} SidesOfCut(w: seq<Point>, kind: Kind, t: Table, start: nat, origin: seq<nat>, n: nat,
                                      k: Kind)
    requires n <= |origin| && start + |origin| <= |t| && Below(origin, |w|)
    requires forall i :: 0 <= i < |origin| ==> IsSide(w, kind, t[start + i], origin[i])
    ensures SidesIn(t[..start + n], k) == SidesIn(t[..start], k) + if k == kind then Pick(w, origin[..n]) else []
    decreases n
  {
    hide SideOf;
    if n == 0 {
      assert origin[..0] == [];
    } else {
      SidesOfCut(w, kind, t, start, origin, n - 1, k);
      var a := t[..start + n];
      assert a[..|a| - 1] == t[..start + n - 1];
      assert IsSide(w, kind, t[start + n - 1], origin[n - 1]);
      PickLast(w, origin, n);
    }
  }

  lemma PickLast(w: seq<Point>, origin: seq<nat>, n: nat)
    requires 0 < n <= |origin| && Below(origin, |w|)
    ensures Below(origin[..n], |w|) && Below(origin[..n - 1], |w|)
    ensures Pick(w, origin[..n]) == Pick(w, origin[..n - 1]) + SideOf(w, origin[n - 1])
  {
    hide SideOf;
    var last := [origin[n - 1]];
    assert origin[..n] == origin[..n - 1] + last;
    assert Below(last, |w|);
    PickConcat(w, origin[..n - 1], last);
    assert last[1..] == [];
    assert Pick(w, last) == SideOf(w, last[0]) + Pick(w, last[1..]);
  }

  /** The sides of the polygon's part of the table, together with those of a contour. */
  ghost predicate Adds(t0: Table, t: Table, kind: Kind, sides: seq<Segment>) {
    forall k :: multiset(SidesIn(t, k)) == multiset(SidesIn(t0, k)) + if k == kind then multiset(sides) else multiset{}
  }

  lemma CutOrigin(w: seq<Point>, kind: Kind, t: Table, start: nat, origin: seq<nat>)
    requires CutSoFar(w, kind, t, start, origin, |w|, |w|)
    ensures Below(origin, |w|) && Distinct(origin) && start + |origin| == |t| && |origin| <= |w|
    ensures forall s :: 0 <= s < |w| && SideOf(w, s) != [] ==> s in origin
  {
    hide Used, SideOf, IsSide;
    forall k | 0 <= k < |origin|
      ensures origin[k] < |w|
    {
      OriginIsSide(w, kind, t[start + k], origin[k]);
    }
    forall s | 0 <= s < |w| && SideOf(w, s) != []
      ensures s in origin
    {
      AllUsed(w, s);
    }
    FitsIn(origin, |w|);
  }

  /** Both passes done, the contour's sides are in the table, each once. */
  lemma CutIsWhole(w: seq<Point>, kind: Kind, t0: Table, t: Table, origin: seq<nat>)
    requires t0 <= t && CutSoFar(w, kind, t, |t0|, origin, |w|, |w|)
    ensures Adds(t0, t, kind, SidesOf(w)) && |t| <= |t0| + |w|
  {
    hide Used, SideOf, IsSide, Pick, SidesIn;
    CutOrigin(w, kind, t, |t0|, origin);
    PickAll(w, origin, |w|);
    assert origin[..|origin|] == origin && t[..|t|] == t && t[..|t0|] == t0;
    forall k
      ensures multiset(SidesIn(t, k))
           == multiset(SidesIn(t0, k)) + if k == kind then multiset(SidesOf(w)) else multiset{}
    {
      SidesOfCut(w, kind, t, |t0|, origin, |origin|, k);
    }
  }

  lemma OriginIsSide(w: seq<Point>, kind: Kind, e: EdgeInfo, s: nat)
    requires IsSide(w, kind, e, s)
    ensures s < |w|
  {
  }

  /** Nothing of a contour is used before its passes. */
  lemma NothingCut(w: seq<Point>, kind: Kind, t: Table)
    ensures CutSoFar(w, kind, t, |t|, [], 0, 0)
  {
  }

  /** Puts one contour into the tables: all its sides that are not horizontal, and the
      heights of the vertices that it keeps. */
  method BuildContour(slots: array<EdgeSlot>, v: seq<Point>, kind: Kind, base: nat, t0: Table, lmt0: seq<Minimum>,
                      entries: nat, tree: Tree)
    returns (t: Table, lmt: seq<Minimum>, entries': nat, tree': Tree)
    requires InPlace(slots, [], t0, base) && |t0| - base + |Kept(v)| <= slots.Length
    requires Built(t0, lmt0) && Ordered(tree) && entries == Size(tree)
    modifies slots
    ensures t0 <= t && |t| <= |t0| + |Kept(v)| && InPlace(slots, [], t, base)
    ensures Built(t, lmt) && Adds(t0, t, kind, SidesOf(v))
    ensures Ordered(tree') && entries' == Size(tree')
    ensures Recorded(Kept(v), HeightsOf(tree), HeightsOf(tree'))
  {
    hide Built, CutSoFar, Kept, SidesOf, Adds;
    ghost var w := Kept(v);
    var m;
    m, entries', tree' := OptimiseContour(slots, v, entries, tree);
    NothingCut(w, kind, t0);
    ghost var origin;
    t, lmt, origin := BuildPass(slots, Forward, m, kind, base, t0, lmt0, w, |t0|, []);
    t, lmt, origin := BuildPass(slots, Reverse, m, kind, base, t, lmt, w, |t0|, origin);
    CutIsWhole(w, kind, t0, t, origin);
    OptimisationKeepsSides(v);
  }

  /** `count_optimal_vertices` */
  method CountOptimalVertices(c: Contour) returns (n: nat)
    requires c.Sized()
    ensures n == if c.count > 0 then |Kept(c.vertex)| else 0
  {
    n := 0;
    if c.count > 0 {
      for i := 0 to c.count
        invariant n == |KeptUpTo(c.vertex, i)|
      {
        if Optimal(c.vertex, i) {
          n := n + 1;
        }
      }
    }
  }

  /** The polygon with its vertex counts restored. */
  function Repaired(p: Polygon): (r: Polygon)
    ensures |r| == |p|
  {
    seq(|p|, c requires 0 <= c < |p| => if p[c].count < 0 then p[c].(count := -p[c].count) else p[c])
  }

  lemma RepairedAt(p: Polygon, c: nat)
    requires c < |p|
    ensures Repaired(p)[c] == if p[c].count < 0 then p[c].(count := -p[c].count) else p[c]
  {
  }

  /** Room for the vertices that the first k contours keep. */
  ghost function RoomFor(p: Polygon, k: nat): nat
    requires k <= |p|
  {
    if k == 0 then 0 else RoomFor(p, k - 1) + if p[k - 1].count > 0 then |Kept(p[k - 1].vertex)| else 0
  }

  lemma {:induction false} RoomGrows(p: Polygon, j: nat, k: nat)
    requires j <= k <= |p|
    ensures RoomFor(p, j) <= RoomFor(p, k)
    decreases k
  {
    if j < k {
      RoomGrows(p, j, k - 1);
    }
  }

  lemma AddsMore(t0: Table, t1: Table, t2: Table, kind: Kind, a: seq<Segment>, b: seq<Segment>)
    requires Adds(t0, t1, kind, a) && Adds(t1, t2, kind, b)
    ensures Adds(t0, t2, kind, a + b)
  {
    forall k
      ensures multiset(SidesIn(t2, k)) == multiset(SidesIn(t0, k)) + if k == kind then multiset(a + b) else multiset{}
    {
      assert multiset(SidesIn(t1, k)) == multiset(SidesIn(t0, k)) + if k == kind then multiset(a) else multiset{};
    }
  }

  lemma AddsNothing(t: Table, kind: Kind)
    ensures Adds(t, t, kind, [])
  {
  }

  lemma NextContour(p: Polygon, k: nat)
    requires k < |p|
    ensures SidesOfPolygon(p[..k + 1]) == SidesOfPolygon(p[..k]) + if p[k].Counts() then SidesOf(p[k].vertex) else []
    ensures KeptOfPolygon(p[..k + 1]) == KeptOfPolygon(p[..k]) + if p[k].Counts() then Kept(p[k].vertex) else []
  {
    assert p[..k + 1][..k] == p[..k];
  }

  /** The size of the edge array: the optimal vertices of all contours that are not flagged. */
  method CountTotalVertices(p: array<Contour>) returns (total: nat)
    requires Polygons.Sized(p[..])
    ensures total == RoomFor(p[..], p.Length)
  {
    total := 0;
    for c := 0 to p.Length
      invariant total == RoomFor(p[..], c)
    {
      var n := CountOptimalVertices(p[c]);
      total := total + n;
    }
  }

  /** The first k contours have been put into the tables. */
  ghost predicate BuiltUpTo(p: Polygon, k: nat, kind: Kind, t0: Table, t: Table, before: set<real>, after: set<real>)
    requires k <= |p|
  {
    && t0 <= t && |t| - |t0| <= RoomFor(p, k)
    && Adds(t0, t, kind, SidesOfPolygon(p[..k]))
    && Recorded(KeptOfPolygon(p[..k]), before, after)
  }

  lemma BuiltNone(p: Polygon, kind: Kind, t: Table, heights: set<real>)
    ensures BuiltUpTo(p, 0, kind, t, t, heights, heights)
  {
    AddsNothing(t, kind);
  }

  lemma BuiltFlagged(p: Polygon, k: nat, kind: Kind, t0: Table, t: Table, before: set<real>, after: set<real>)
    requires k < |p| && p[k].count < 0 && BuiltUpTo(p, k, kind, t0, t, before, after)
    ensures BuiltUpTo(p, k + 1, kind, t0, t, before, after)
  {
    hide Adds, Kept, SidesOf;
    NextContour(p, k);
    assert Adds(t0, t, kind, SidesOfPolygon(p[..k]));
    assert SidesOfPolygon(p[..k]) + [] == SidesOfPolygon(p[..k]);
    assert KeptOfPolygon(p[..k]) + [] == KeptOfPolygon(p[..k]);
  }

  lemma BuiltNext(p: Polygon, k: nat, kind: Kind, t0: Table, t1: Table, t: Table,
                  before: set<real>, between: set<real>, after: set<real>)
    requires k < |p| && p[k].Sized() && p[k].count >= 0 && BuiltUpTo(p, k, kind, t0, t1, before, between)
    requires t1 <= t && |t| <= |t1| + |Kept(p[k].vertex)| && Adds(t1, t, kind, SidesOf(p[k].vertex))
    requires Recorded(Kept(p[k].vertex), between, after)
    ensures BuiltUpTo(p, k + 1, kind, t0, t, before, after)
  {
    hide Adds, Kept, SidesOf;
    NextContour(p, k);
    EmptyKeeps(p[k]);
    AddsMore(t0, t1, t, kind, SidesOfPolygon(p[..k]), SidesOf(p[k].vertex));
    RecordedBoth(KeptOfPolygon(p[..k]), Kept(p[k].vertex), before, between, after);
  }

  lemma RecordedBoth(v: seq<Point>, w: seq<Point>, before: set<real>, between: set<real>, after: set<real>)
    requires Recorded(v, before, between) && Recorded(w, between, after)
    ensures Recorded(v + w, before, after)
  {
    forall y
      ensures y in after <==> y in before || exists q :: q in v + w && q.y == y
    {
      if q :| q in v && q.y == y {
        assert q in v + w;
      }
      if q :| q in w && q.y == y {
        assert q in v + w;
      }
    }
  }

  /** Puts a polygon into the tables.  Flagged contours are left out, and their vertex
      counts restored.  Every side of the others that is not horizontal becomes exactly
      one edge. */
  method BuildLmt(p: array<Contour>, kind: Kind, t0: Table, lmt0: seq<Minimum>, entries: nat, tree: Tree)
    returns (t: Table, lmt: seq<Minimum>, entries': nat, tree': Tree)
    requires Polygons.Sized(p[..]) && Built(t0, lmt0) && Ordered(tree) && entries == Size(tree)
    modifies p
    ensures t0 <= t && Built(t, lmt) && Adds(t0, t, kind, SidesOfPolygon(old(p[..])))
    ensures Ordered(tree') && entries' == Size(tree')
    ensures Recorded(KeptOfPolygon(old(p[..])), HeightsOf(tree), HeightsOf(tree'))
    ensures p[..] == Repaired(old(p[..]))
  {
    hide Built, Adds, Kept, SidesOf, SidesOfPolygon, KeptOfPolygon, BuiltUpTo, Repaired, Recorded, Ordered,
      HeightsOf;
    var total := CountTotalVertices(p);
    var slots := new EdgeSlot[total];
    t, lmt, entries', tree' := t0, lmt0, entries, tree;
    ghost var was := p[..];
    BuiltNone(was, kind, t, HeightsOf(tree));
    BuiltSoFar(was, 0, kind, t0, t, HeightsOf(tree), HeightsOf(tree'));
    for c := 0 to p.Length
      invariant Built(t, lmt) && InPlace(slots, [], t, |t0|)
      invariant BuiltUpTo(was, c, kind, t0, t, HeightsOf(tree), HeightsOf(tree'))
      invariant Ordered(tree') && entries' == Size(tree')
      invariant forall d :: 0 <= d < p.Length ==> p[d] == if d < c then Repaired(was)[d] else was[d]
    {
      BuiltSoFar(was, c, kind, t0, t, HeightsOf(tree), HeightsOf(tree'));
      RepairedAt(was, c);
      if p[c].count < 0 {
        BuiltFlagged(was, c, kind, t0, t, HeightsOf(tree), HeightsOf(tree'));
        p[c] := p[c].(count := -p[c].count);
      } else {
        EmptyKeeps(was[c]);
        RoomGrows(was, c + 1, |was|);
        ghost var t1, between := t, HeightsOf(tree');
        t, lmt, entries', tree' := BuildContour(slots, p[c].vertex, kind, |t0|, t, lmt, entries', tree');
        BuiltNext(was, c, kind, t0, t1, t, HeightsOf(tree), between, HeightsOf(tree'));
      }
    }
    BuiltSoFar(was, |was|, kind, t0, t, HeightsOf(tree), HeightsOf(tree'));
    assert was[..|was|] == was;
  }

  lemma BuiltSoFar(p: Polygon, k: nat, kind: Kind, t0: Table, t: Table, before: set<real>, after: set<real>)
    requires k <= |p| && BuiltUpTo(p, k, kind, t0, t, before, after)
    ensures t0 <= t && |t| - |t0| <= RoomFor(p, k)
    ensures Adds(t0, t, kind, SidesOfPolygon(p[..k]))
    ensures Recorded(KeptOfPolygon(p[..k]), before, after)
  {
  }

  lemma EmptyKeeps(c: Contour)
    requires c.Sized() && c.count >= 0
    ensures |Kept(c.vertex)| == if c.count > 0 then |Kept(c.vertex)| else 0
  {
  }
}
