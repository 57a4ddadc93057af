/**
 Reading a row of edges at any level inside a scanbeam, and what the count of sides must be
 there.
 */
module Levels {
  import opened Base
  import opened Edges
  import opened EdgeTable
  import opened Output
  import opened Strands
  import opened Bundles
  import opened Bundling
  import opened Membership
  import opened BoundaryScan
  import opened Quadrants
  import opened Interior
  import opened SweepState
  import opened Tally
  import opened Nesting
  import opened Turning

  /** What the tables want at a probe. */
  predicate WantedAt(op: Op, t: Table, q: Probe) {
    match q.level
    case JustAbove => WantedAbove(op, t, q.x, q.y)
    case JustBelow => WantedBelow(op, t, q.x, q.y)
  }

  /** Below height h, the sides drawn so far and the rays of the row count 1 where the result is
      wanted, and 0 elsewhere; the single contours lie beside and within one another. */
  ghost predicate Drawn(op: Op, t: Table, s: seq<Strand>, out: Store, h: real) {
    UpTo(out, h) && forall q :: Below(q, h) ==> DrawnAt(op, t, s, out, q)
  }

  ghost predicate DrawnAt(op: Op, t: Table, s: seq<Strand>, out: Store, q: Probe) {
    && Total(op, StartParity(op), s, out, q) == Share(WantedAt(op, t, q))
    && Planar(Grips(op, StartParity(op), s), out, q)
  }

  /** Two rows that are the same but for idle strands count the same. */
  lemma SameTotal(op: Op, p: Flags, s: seq<Strand>, r: seq<Strand>, out: Store, q: Probe)
    requires Busy(s) == Busy(r)
    ensures Total(op, p, s, out, q) == Total(op, p, r, out, q)
  {
    hide Hits, Rays;
    RaysBusy(op, p, s, out, q);
    RaysBusy(op, p, r, out, q);
  }

  lemma DrawnBusy(op: Op, t: Table, s: seq<Strand>, r: seq<Strand>, out: Store, h: real)
    requires Busy(s) == Busy(r) && Drawn(op, t, s, out, h)
    ensures Drawn(op, t, r, out, h)
  {
    hide UpTo, WantedAt, Total, Planar;
    GripsBusy(op, StartParity(op), s);
    GripsBusy(op, StartParity(op), r);
    forall q | Below(q, h)
      ensures DrawnAt(op, t, r, out, q)
    {
      SameTotal(op, StartParity(op), s, r, out, q);
      assert DrawnAt(op, t, s, out, q);
    }
  }

  lemma DrawnButSides(op: Op, t: Table, s: seq<Strand>, r: seq<Strand>, out: Store, h: real)
    requires SameButSides(s, r) && Drawn(op, t, s, out, h)
    ensures Drawn(op, t, r, out, h)
  {
    hide UpTo, WantedAt, Hits, Rays, Planar;
    GripsButSides(op, StartParity(op), s, r);
    forall q | Below(q, h)
      ensures DrawnAt(op, t, r, out, q)
    {
      RaysButSides(op, StartParity(op), s, r, out, q);
      assert DrawnAt(op, t, s, out, q);
    }
  }

  /** A boundary scan leaves what is drawn below it. */
  lemma DrawnAfterScan(op: Op, t: Table, y: real, belows: seq<Strand>, before: Store, aboves: seq<Strand>, out: Store)
    requires Drawn(op, t, belows, before, y) && SameBelow(op, y, StartParity(op), belows, before, aboves, out)
    ensures Drawn(op, t, aboves, out, y)
  {
    hide UpTo, WantedAt, Total, Planar;
    forall q | Below(q, y)
      ensures DrawnAt(op, t, aboves, out, q)
    {
      assert DrawnAt(op, t, belows, before, q);
    }
  }

  /** Nothing is wanted below the first height or above the last. */
  lemma NoneBeyond(op: Op, t: Table, ys: seq<real>, q: Probe)
    requires Heights(t, ys) && (ys == [] || Below(q, ys[0]) || !Below(q, ys[|ys| - 1]))
    ensures !WantedAt(op, t, q)
  {
    hide WantedAt, Inside, StartParity, LeftAtLevel, Heights, Below;
    NoneLeftBeyond(t, ys, q, Clip);
    NoneLeftBeyond(t, ys, q, Subj);
    WantedIsInside(op, t, q);
    assert StartParity(op).Toggle(NO_FLAGS) == StartParity(op);
  }

  lemma NoneLeftBeyond(t: Table, ys: seq<real>, q: Probe, kind: Kind)
    requires Heights(t, ys) && (ys == [] || Below(q, ys[0]) || !Below(q, ys[|ys| - 1]))
    ensures LeftAtLevel(t, kind, q) == {}
  {
    hide LeftAtLevel, Heights, Below, CrossedAtLevel;
    forall id: nat
      ensures id !in LeftAtLevel(t, kind, q)
    {
      LeftIsCrossed(t, kind, q, id);
      if id < |t| {
        NotCrossedBeyond(t, ys, q, id);
      }
    }
    var left: set<nat> := LeftAtLevel(t, kind, q);
    assert left == {};
  }

  lemma LeftIsCrossed(t: Table, kind: Kind, q: Probe, id: nat)
    ensures id in LeftAtLevel(t, kind, q) ==> id < |t| && CrossedAtLevel(t, id, q)
  {
  }

  lemma NotCrossedBeyond(t: Table, ys: seq<real>, q: Probe, id: nat)
    requires Heights(t, ys) && (ys == [] || Below(q, ys[0]) || !Below(q, ys[|ys| - 1])) && id < |t|
    ensures !CrossedAtLevel(t, id, q)
  {
    Extent(ys, t[id].seg.bot.y);
    Extent(ys, t[id].seg.top.y);
  }

  lemma Extent(ys: seq<real>, y: real)
    requires (forall k, l :: 0 <= k < l < |ys| ==> ys[k] < ys[l]) && y in ys
    ensures ys[0] <= y <= ys[|ys| - 1]
  {
    var k :| 0 <= k < |ys| && ys[k] == y;
    assert k == 0 || ys[0] < ys[k];
    assert k == |ys| - 1 || ys[k] < ys[|ys| - 1];
  }

  /** Before the sweep nothing is drawn, and below the first height nothing is wanted. */
  lemma DrawnAtFirst(op: Op, t: Table, ys: seq<real>)
    requires Heights(t, ys) && ys != []
    ensures Drawn(op, t, [], [], ys[0])
  {
    hide WantedAt, Heights, Planar;
    forall q | Below(q, ys[0])
      ensures DrawnAt(op, t, [], [], q)
    {
      NoneBeyond(op, t, ys, q);
      NothingIsPlanar(q);
    }
  }

  /** Everything wanted has been drawn, and every contour turns as its `hole` says. */
  ghost predicate AllDrawn(op: Op, t: Table, out: Store) {
    forall q :: Hits(out, q) == Share(WantedAt(op, t, q)) && HolesAt(out, q)
  }

  /** A closed contour counts 0 or 1 if it is no hole, and 0 or -1 if it is one. */
  ghost predicate HolesAt(out: Store, q: Probe) {
    forall r :: 0 <= r < |out| ==> NodeCounts(out[r], ContourHits(out[r], q))
  }

  lemma HolesOfPlanar(out: Store, q: Probe)
    requires Planar([], out, q)
    ensures HolesAt(out, q)
  {
    hide Nested, ContourHits, Counts;
    forall r | 0 <= r < |out|
      ensures NodeCounts(out[r], ContourHits(out[r], q))
    {
      RaysOfNone(out, r, q);
      assert NodeCounts(out[r], CountWith([], out, r, q));
    }
  }

  lemma HolesAbove(out: Store, q: Probe, h: real)
    requires UpTo(out, h) && !Below(q, h)
    ensures HolesAt(out, q)
  {
    hide UpTo, ContourHits;
    forall r | 0 <= r < |out|
      ensures NodeCounts(out[r], ContourHits(out[r], q))
    {
      NoContourHits(out, r, q, h);
    }
  }

  lemma DrawnAtLast(op: Op, t: Table, ys: seq<real>, out: Store)
    requires Heights(t, ys) && ys != [] && Drawn(op, t, [], out, ys[|ys| - 1])
    ensures AllDrawn(op, t, out)
  {
    hide WantedAt, Heights, Hits, UpTo, HolesAt, Planar;
    var y := ys[|ys| - 1];
    forall q
      ensures Hits(out, q) == Share(WantedAt(op, t, q)) && HolesAt(out, q)
    {
      if Below(q, y) {
        assert DrawnAt(op, t, [], out, q);
        HolesOfPlanar(out, q);
      } else {
        NoHits(out, q, y);
        NoneBeyond(op, t, ys, q);
        HolesAbove(out, q, y);
      }
    }
  }

  lemma NothingToDraw(op: Op, t: Table)
    requires Heights(t, [])
    ensures AllDrawn(op, t, [])
  {
    hide WantedAt, Heights;
    forall q
      ensures Hits([], q) == Share(WantedAt(op, t, q)) && HolesAt([], q)
    {
      NoneBeyond(op, t, [], q);
    }
  }

  /** The edges in order at height y. */
  ghost predicate SortedAt(s: seq<Edge>, y: real) {
    forall i, j :: 0 <= i < j < |s| ==> s[i].info.seg.XAt(y) <= s[j].info.seg.XAt(y)
  }

  lemma {:induction false} FindSplit(s: seq<Edge>, x: real, y: real) returns (i: nat)
    requires SortedAt(s, y)
    ensures LevelSplit(s, x, y, i)
  {
    i := 0;
    while i < |s| && s[i].info.seg.XAt(y) < x
      invariant i <= |s| && forall j :: 0 <= j < i ==> s[j].info.seg.XAt(y) < x
    {
      i := i + 1;
    }
  }

  /** What the ends held by the strands count. */
  function Holding(op: Op, p: Flags, s: seq<Strand>): int
    decreases |s|
  {
    if s == [] then 0
    else (if s[0].out.Some? then Sign(HeldSide(op, p)) else 0) + Holding(op, p.Toggle(s[0].flags), s[1..])
  }

  function Share(b: bool): int {
    if b then 1 else 0
  }

  /** A left end is held wherever the occupancy rises, a right end wherever it falls. */
  lemma {:induction false} HoldingSum(op: Op, p: Flags, s: seq<Strand>)
    requires Matched(op, p, s)
    ensures Holding(op, p, s) == Share(Inside(op, ParityAfter(p, s))) - Share(Inside(op, p))
    decreases |s|
  {
    hide Inside;
    if s != [] {
      HoldingSum(op, p.Toggle(s[0].flags), s[1..]);
    }
  }

  /** Above all vertices, a row's rays to the left of a probe are those of the strands there. */
  lemma {:induction false} RaysAre(op: Op, p: Flags, s: seq<Strand>, out: Store, q: Probe, h: real, i: nat)
    requires Anchored(op, p, s, out) && UpTo(out, h) && !Below(q, h) && i <= |s|
    requires forall j :: 0 <= j < i ==> s[j].line.XAt(q.y) < q.x
    requires forall j :: i <= j < |s| ==> s[j].line.XAt(q.y) >= q.x
    ensures Rays(op, p, s, out, q) == Holding(op, p, s[..i])
    decreases |s|
  {
    hide UpTo, Segment.XAt, Inside;
    if s != [] {
      if s[0].out.Some? {
        EndUpTo(out, End(s[0].out.value, HeldSide(op, p)), h);
      }
      RaysAre(op, p.Toggle(s[0].flags), s[1..], out, q, h, if i == 0 then 0 else i - 1);
      if i > 0 {
        assert s[..i][1..] == s[1..][..i - 1];
      }
    }
  }

  /** At a level where the row is in order, the count is 1 inside and 0 outside. */
  lemma CountAtLevel(op: Op, segs: set<Segment>, p: Flags, s: seq<Edge>, out: Store, q: Probe, h: real, i: nat)
    requires RowHeld(op, segs, p, Aboves(s), out) && UpTo(out, h) && !Below(q, h)
    requires LevelSplit(s, q.x, q.y, i) && !Inside(op, p)
    ensures Total(op, p, Aboves(s), out, q) == Share(Inside(op, ParityAfter(p, Aboves(s[..i]))))
  {
    hide UpTo, Sound, Inside, Matched, Anchored, Segment.XAt, Holding, Hits, Rays, ParityAfter;
    NoHits(out, q, h);
    forall j | 0 <= j < |s|
      ensures Aboves(s)[j].line.XAt(q.y) == s[j].info.seg.XAt(q.y)
    {
    }
    RaysAre(op, p, Aboves(s), out, q, h, i);
    assert Aboves(s) == Aboves(s[..i]) + Aboves(s[i..]);
    assert Aboves(s)[..i] == Aboves(s[..i]);
    MatchedConcat(op, p, Aboves(s[..i]), Aboves(s[i..]));
    HoldingSum(op, p, Aboves(s[..i]));
  }

  /** At such a level contours lie in one another as their ends stand in the row. */
  lemma PlanarAtLevel(op: Op, segs: set<Segment>, p: Flags, s: seq<Edge>, out: Store, q0: Probe, q: Probe, h: real,
                      i: nat)
    requires RowHeld(op, segs, p, Aboves(s), out) && UpTo(out, h) && !Below(q, h) && LevelSplit(s, q.x, q.y, i)
    requires Planar(Grips(op, p, Aboves(s)), out, q0)
    ensures Planar(Grips(op, p, Aboves(s)), out, q)
  {
    hide UpTo, Traced, Owned, Matched, Anchored, Segment.XAt, Planar, Grips, Ends, InRow, Held;
    forall j | 0 <= j < |s|
      ensures Aboves(s)[j].line.XAt(q.y) == s[j].info.seg.XAt(q.y)
    {
    }
    GripsInRow(op, p, Aboves(s), out, q, h, i);
    GripsHeld(op, p, Aboves(s));
    RowIsPlanar(Ends(op, p, Aboves(s)), Grips(op, p, Aboves(s)), out, q0, q, h, |Grips(op, p, Aboves(s)[..i])|);
  }

  /** A level inside the scanbeam. */
  predicate InBeam(q: Probe, yb: real, yt: real) {
    !Below(q, yb) && Below(q, yt)
  }

  predicate CrossedAtLevel(t: Table, id: nat, q: Probe) {
    match q.level
    case JustAbove => CrossedAbove(t, id, q.y)
    case JustBelow => CrossedBelow(t, id, q.y)
  }

  function LeftAtLevel(t: Table, kind: Kind, q: Probe): set<nat> {
    match q.level
    case JustAbove => LeftAbove(t, kind, q.x, q.y)
    case JustBelow => LeftBelow(t, kind, q.x, q.y)
  }

  /** The sides crossed just above the bottom of a scanbeam are crossed at its every level. */
  lemma CrossedThroughout(t: Table, ys: seq<real>, k: nat, id: nat, q: Probe)
    requires Heights(t, ys) && k + 1 < |ys| && id < |t| && InBeam(q, ys[k], ys[k + 1])
    ensures CrossedAbove(t, id, ys[k]) <==> CrossedAtLevel(t, id, q)
  {
    NextHeight(ys, k, t[id].seg.bot.y);
    NextHeight(ys, k, t[id].seg.top.y);
  }

  lemma PartIsLeftAt(t: Table, ys: seq<real>, k: nat, q: Probe, from: set<nat>, part: set<nat>, kind: Kind)
    requires Heights(t, ys) && k + 1 < |ys| && InBeam(q, ys[k], ys[k + 1])
    requires forall id: nat :: id in from <==> id < |t| && CrossedAbove(t, id, ys[k])
    requires part == set id: nat | id in from && id < |t| && t[id].seg.XAt(q.y) < q.x
    ensures OfKind(t, part, kind) == LeftAtLevel(t, kind, q)
  {
    hide Heights, CrossedAbove, CrossedBelow, Segment.XAt;
    forall id: nat
      ensures id in OfKind(t, part, kind) <==> id in LeftAtLevel(t, kind, q)
    {
      if id < |t| {
        CrossedThroughout(t, ys, k, id, q);
      }
    }
  }

  /** Left of a probe, the edges of the row toggle the parity as the sides of the two polygons
      do. */
  lemma UnitsAtLevel(t: Table, ys: seq<real>, k: nat, p: Flags, from: set<nat>, s: seq<Edge>, q: Probe, i: nat)
    requires Heights(t, ys) && k + 1 < |ys| && InBeam(q, ys[k], ys[k + 1])
    requires forall id: nat :: id in from <==> id < |t| && CrossedAbove(t, id, ys[k])
    requires SweepState.Holds(s, from) && Informed(t, s) && LevelSplit(s, q.x, q.y, i)
    ensures UnitParity(p, s[..i])
         == p.Toggle(Flags(Odd(|LeftAtLevel(t, Clip, q)|), Odd(|LeftAtLevel(t, Subj, q)|)))
  {
    hide Heights, CrossedAbove, Segment.XAt, LeftAtLevel;
    var part := set id: nat | id in from && id < |t| && t[id].seg.XAt(q.y) < q.x;
    forall j | 0 <= j < |s|
      ensures s[j].id in part <==> s[j].info.seg.XAt(q.y) < q.x
    {
      assert Ids(s)[j] == s[j].id && s[j].id in multiset(Ids(s));
    }
    PrefixHolds(s, from, i, part);
    UnitParityCounts(t, p, s[..i], part);
    PartIsLeftAt(t, ys, k, q, from, part, Clip);
    PartIsLeftAt(t, ys, k, q, from, part, Subj);
  }

  lemma WantedIsInside(op: Op, t: Table, q: Probe)
    ensures Inside(op, StartParity(op).Toggle(Flags(Odd(|LeftAtLevel(t, Clip, q)|), Odd(|LeftAtLevel(t, Subj, q)|))))
         == WantedAt(op, t, q)
    ensures !Inside(op, StartParity(op))
  {
    hide LeftAbove, LeftBelow;
    ReadingIsSetOperation(op, Odd(|LeftAtLevel(t, Subj, q)|), Odd(|LeftAtLevel(t, Clip, q)|));
  }

  /** Bundles in order make a row in order. */
  lemma {:induction false} FlattenSortedAt(g: seq<seq<Edge>>, y: real)
    requires Abreast(g, y)
    requires forall i, j :: 0 <= i < j < |g| ==> Head(g[i]).info.seg.XAt(y) <= Head(g[j]).info.seg.XAt(y)
    ensures SortedAt(Flatten(g), y)
  {
    hide Segment.XAt;
    if g != [] {
      assert forall i :: 0 <= i < |g[1..]| ==> g[1..][i] == g[i + 1];
      FlattenSortedAt(g[1..], y);
      assert AbreastAt(g[0], y);
      forall e | e in Flatten(g[1..])
        ensures Head(g[0]).info.seg.XAt(y) <= e.info.seg.XAt(y)
      {
        FlattenMember(g[1..], e);
        var i :| 0 <= i < |g[1..]| && e in g[1..][i];
        assert AbreastAt(g[i + 1], y);
      }
      var f := Flatten(g[1..]);
      forall i, j | 0 <= i < j < |g[0] + f|
        ensures (g[0] + f)[i].info.seg.XAt(y) <= (g[0] + f)[j].info.seg.XAt(y)
      {
        assert j >= |g[0]| ==> (g[0] + f)[j] in f;
        assert i < |g[0]| ==> (g[0] + f)[i].info.seg.XAt(y) == Head(g[0]).info.seg.XAt(y);
      }
    }
  }
}
