/**
 `gpc_polygon_clip`: from the two polygons to the result.
 */
module Clipper {
  import opened Base
  import opened Edges
  import opened EdgeTable
  import opened LocalMinima
  import opened ScanbeamTree
  import opened Polygons
  import opened Regions
  import opened Minimax
  import opened Bounds
  import opened BuildLmt
  import opened TableFacts
  import opened Membership
  import opened Quadrants
  import opened Strands
  import opened BoundaryScan
  import opened Closing
  import opened Output
  import opened Results
  import opened ResultRegions
  import opened Tally
  import opened Turning
  import opened Levels
  import opened Sweep
  import opened Requested

  /** The gap around x is classed as the caller's polygons require. */
  ghost predicate GapIsWanted(op: Op, subj: Polygon, clip: Polygon, v: Visit, x: real, i: nat)
    requires |v.classes| == |v.xs| && i <= |v.xs|
  {
    && (i < |v.xs| ==>
          LeftAboveIn(v.classes[i]) == Wanted(op, JustAbove, subj, clip, x, v.y) &&
          LeftBelowIn(v.classes[i]) == Wanted(op, JustBelow, subj, clip, x, v.y))
    && (i > 0 ==>
          RightAboveIn(v.classes[i - 1]) == Wanted(op, JustAbove, subj, clip, x, v.y) &&
          RightBelowIn(v.classes[i - 1]) == Wanted(op, JustBelow, subj, clip, x, v.y))
  }

  /** A boundary scan that classed every edge by the set operation asked for. */
  ghost predicate ClassesAreWanted(op: Op, subj: Polygon, clip: Polygon, v: Visit) {
    && |v.classes| == |v.xs| > 0
    && (forall k {:trigger v.classes[k]} :: 0 < k < |v.xs| ==>
          && RightAboveIn(v.classes[k - 1]) == LeftAboveIn(v.classes[k])
          && RightBelowIn(v.classes[k - 1]) == LeftBelowIn(v.classes[k]))
    && (forall x, i: nat :: Parts(v.xs, x, i) ==> GapIsWanted(op, subj, clip, v, x, i))
  }

  lemma WantedIsRead(op: Op, t: Table, subj: Polygon, clip: Polygon, x: real, y: real)
    requires Represents(t, SubjUsed(op, subj, clip), ClipUsed(op, subj, clip))
    ensures WantedAbove(op, t, x, y) == Wanted(op, JustAbove, subj, clip, x, y)
    ensures WantedBelow(op, t, x, y) == Wanted(op, JustBelow, subj, clip, x, y)
  {
    hide Member, MemberAbove, MemberBelow, Represents, SetOperation, SubjUsed, ClipUsed;
    var s, c := SubjUsed(op, subj, clip), ClipUsed(op, subj, clip);
    MembershipIsMember(t, s, c, Subj, x, y);
    MembershipIsMember(t, s, c, Clip, x, y);
    WantedOfUsed(op, JustAbove, subj, clip, x, y);
    WantedOfUsed(op, JustBelow, subj, clip, x, y);
  }

  lemma VisitIsWanted(op: Op, t: Table, subj: Polygon, clip: Polygon, v: Visit)
    requires Represents(t, SubjUsed(op, subj, clip), ClipUsed(op, subj, clip))
    requires ClassesAreRight(op, t, v) && v.xs != []
    ensures ClassesAreWanted(op, subj, clip, v)
  {
    hide Wanted, WantedAbove, WantedBelow, Represents, LeftAboveIn, LeftBelowIn, RightAboveIn, RightBelowIn;
    forall x, i: nat | Parts(v.xs, x, i)
      ensures GapIsWanted(op, subj, clip, v, x, i)
    {
      assert GapIsRight(op, t, v, x, i);
      WantedIsRead(op, t, subj, clip, x, v.y);
    }
  }

  function Heights(visits: seq<Visit>): (ys: seq<real>)
    ensures |ys| == |visits| && forall k :: 0 <= k < |ys| ==> ys[k] == visits[k].y
  {
    seq(|visits|, k requires 0 <= k < |visits| => visits[k].y)
  }

  /** What the result must be: its contours are closed paths along the sides of the input. */
  ghost predicate GoodResult(subj: Polygon, clip: Polygon, result: seq<ResultContour>) {
    forall c :: c in result ==> |c.vertex| > 2 && ClosedPath(InputSides(subj, clip), c.vertex)
  }

  lemma MoreAlong(small: set<Segment>, big: set<Segment>, v: seq<Point>)
    requires small <= big && ClosedPath(small, v)
    ensures ClosedPath(big, v)
  {
    forall i | 0 <= i < |v|
      ensures OnSide(big, v[i]) && Along(big, v[i], v[if i + 1 == |v| then 0 else i + 1])
    {
      assert OnSide(small, v[i]) && Along(small, v[i], v[if i + 1 == |v| then 0 else i + 1]);
    }
  }

  lemma TableSides(t: Table, subj: Polygon, clip: Polygon)
    requires Represents(t, subj, clip)
    ensures Segments(t) <= InputSides(subj, clip)
  {
    hide Represents, SidesOfPolygon;
    forall s | s in Segments(t)
      ensures s in InputSides(subj, clip)
    {
      var i :| 0 <= i < |t| && t[i].seg == s;
      EdgeIsSide(t, subj, clip, i);
    }
  }

  lemma ExtractIsGood(op: Op, t: Table, subj: Polygon, clip: Polygon, out: Store)
    requires Unflagged(subj) && Unflagged(clip)
    requires Represents(t, SubjUsed(op, subj, clip), ClipUsed(op, subj, clip))
    requires Sound(Segments(t), multiset{}, out)
    ensures GoodResult(subj, clip, Extract(out))
  {
    hide Represents, Sound, SubjUsed, ClipUsed, ClosedPath, InputSides, Extract, Unflagged;
    TableSides(t, SubjUsed(op, subj, clip), ClipUsed(op, subj, clip));
    UsedSides(op, subj, clip);
    forall c | c in Extract(out)
      ensures |c.vertex| > 2 && ClosedPath(InputSides(subj, clip), c.vertex)
    {
      ResultIsTraced(Segments(t), out, c);
      MoreAlong(Segments(t), InputSides(subj, clip), c.vertex);
    }
  }

  /** Before anything is built. */
  lemma NothingBuilt()
    ensures Built([], [])
  {
    assert forall y :: Starting([], y) == {};
  }

  /** The polygon is put into the tables if it has contours. */
  method BuildIfAny(p: array<Contour>, kind: Kind, t0: Table, lmt0: seq<Minimum>, entries: nat, tree: Tree)
    returns (t: Table, lmt: seq<Minimum>, entries': nat, tree': Tree)
    requires Polygons.Sized(p[..]) && Built(t0, lmt0) && Ordered(tree) && entries == Size(tree)
    modifies p
    ensures t0 <= t && Built(t, lmt) && Adds(t0, t, kind, SidesOfPolygon(old(p[..])))
    ensures Ordered(tree') && entries' == Size(tree')
    ensures Recorded(KeptOfPolygon(old(p[..])), HeightsOf(tree), HeightsOf(tree'))
    ensures p[..] == Repaired(old(p[..]))
  {
    if p.Length > 0 {
      t, lmt, entries', tree' := BuildLmt.BuildLmt(p, kind, t0, lmt0, entries, tree);
    } else {
      t, lmt, entries', tree' := t0, lmt0, entries, tree;
      AddsNothing(t0, kind);
      RecordedNone(HeightsOf(tree));
      assert p[..] == [];
    }
  }

  lemma TablesRepresent(t1: Table, t: Table, subj: Polygon, clip: Polygon)
    requires Adds([], t1, Subj, SidesOfPolygon(subj)) && Adds(t1, t, Clip, SidesOfPolygon(clip))
    ensures Represents(t, subj, clip)
  {
    hide SidesOfPolygon;
    assert forall k :: SidesIn([], k) == [];
    assert multiset(SidesIn(t1, Subj)) == multiset(SidesIn([], Subj)) + multiset(SidesOfPolygon(subj));
    assert multiset(SidesIn(t1, Clip)) == multiset(SidesIn([], Clip)) + multiset{};
    assert multiset(SidesIn(t, Subj)) == multiset(SidesIn(t1, Subj)) + multiset{};
    assert multiset(SidesIn(t, Clip)) == multiset(SidesIn(t1, Clip)) + multiset(SidesOfPolygon(clip));
  }

  lemma HeightsRecorded(ys: seq<real>, subj: Polygon, clip: Polygon, between: set<real>, hs: set<real>)
    requires Recorded(KeptOfPolygon(subj), {}, between) && Recorded(KeptOfPolygon(clip), between, hs)
    requires Listing(ys, hs)
    ensures RecordedHeights(ys, subj, clip)
  {
    hide KeptOfPolygon;
  }

  /** An edge that starts lowest has no predecessor. */
  lemma {:induction false} Lowest(t: Table, k: nat) returns (i: nat)
    requires 0 < k <= |t|
    ensures i < k && forall j :: 0 <= j < k ==> t[i].seg.bot.y <= t[j].seg.bot.y
    decreases k
  {
    i := k - 1;
    if k > 1 {
      var j := Lowest(t, k - 1);
      if t[j].seg.bot.y < t[i].seg.bot.y {
        i := j;
      }
    }
  }

  lemma LowestStarts(t: Table, i: nat)
    requires Chained(t) && i < |t| && forall j :: 0 <= j < |t| ==> t[i].seg.bot.y <= t[j].seg.bot.y
    ensures t[i].pred.None?
  {
    assert ChainedAt(t, i);
    assert t[i].pred.Some? ==> ChainedAt(t, t[i].pred.value);
  }

  /** If no bound starts anywhere, there are no edges. */
  lemma NoMinimaNoEdges(t: Table)
    requires Built(t, [])
    ensures t == []
  {
    BuiltIsMinima(t, []);
    if t != [] {
      var i := Lowest(t, |t|);
      LowestStarts(t, i);
    }
  }

  lemma NothingKept(p: Polygon)
    requires SidesOfPolygon(p) == []
    ensures KeptOfPolygon(p) == []
  {
    if KeptOfPolygon(p) != [] {
      var s := PolygonKeptEnds(p, KeptOfPolygon(p)[0]);
    }
  }

  /** If there are no edges, no heights are recorded. */
  lemma NoEdgesNoHeights(subj: Polygon, clip: Polygon)
    requires Represents([], subj, clip)
    ensures RecordedHeights([], subj, clip)
  {
    hide SidesOfPolygon, KeptOfPolygon;
    assert SidesIn([], Subj) == [] && SidesIn([], Clip) == [];
    assert |multiset(SidesOfPolygon(subj))| == 0 && |multiset(SidesOfPolygon(clip))| == 0;
    NothingKept(subj);
    NothingKept(clip);
  }

  lemma UsedIs(op: Op, subj: Polygon, clip: Polygon)
    ensures UsesMinimax(op, subj, clip) ==>
      && SubjUsed(op, subj, clip) == (if op == Int then Flagged(subj, clip) else subj)
      && ClipUsed(op, subj, clip) == Flagged(clip, subj)
    ensures !UsesMinimax(op, subj, clip) ==> SubjUsed(op, subj, clip) == subj && ClipUsed(op, subj, clip) == clip
  {
  }

  /** The two may be the same polygon, of which no contour is flagged. */
  lemma SameUsed(op: Op, p: Polygon)
    requires Unflagged(p)
    ensures SubjUsed(op, p, p) == p && ClipUsed(op, p, p) == p
  {
    FlaggedBySelf(p);
  }

  lemma EmptyTree()
    ensures Ordered(Nil) && Size(Nil) == 0 && HeightsOf(Nil) == {}
  {
  }

  lemma AllSpanned(op: Op, subj: Polygon, clip: Polygon, ys: seq<real>)
    requires RecordedHeights(ys, SubjUsed(op, subj, clip), ClipUsed(op, subj, clip))
    ensures forall l, x, y :: Wanted(op, l, subj, clip, x, y) ==> ys != [] && ys[0] <= y <= ys[|ys| - 1]
  {
    hide Wanted, RecordedHeights;
    forall l, x, y | Wanted(op, l, subj, clip, x, y)
      ensures ys != [] && ys[0] <= y <= ys[|ys| - 1]
    {
      WantedIsSpanned(op, l, subj, clip, ys, x, y);
    }
  }

  /** The result's contours turn once around every point that the set operation on the caller's
      polygons has, and not at all around any other; so the result has just these points. */
  ghost predicate Exact(op: Op, subj: Polygon, clip: Polygon, result: seq<ResultContour>) {
    forall q :: ExactAt(op, subj, clip, result, q)
  }

  ghost predicate ExactAt(op: Op, subj: Polygon, clip: Polygon, result: seq<ResultContour>, q: Probe) {
    && Turns(result, q) == Share(Wanted(op, q.level, subj, clip, q.x, q.y))
    && Member(q.level, AsPolygon(result), q.x, q.y) == Wanted(op, q.level, subj, clip, q.x, q.y)
  }

  /** The `hole` flags are right: contours that are no holes turn once around what is within
      them, holes once the other way.  So a wanted point lies within just one hole less than other
      contours, and any other point within as many holes as others. */
  ghost predicate HolesAreRight(op: Op, subj: Polygon, clip: Polygon, result: seq<ResultContour>) {
    forall q :: HolesAreRightAt(op, subj, clip, result, q)
  }

  ghost predicate HolesAreRightAt(op: Op, subj: Polygon, clip: Polygon, result: seq<ResultContour>, q: Probe) {
    && (forall c :: c in result ==> TurnsAsFlagged(c, q))
    && Surrounding(result, false, q) - Surrounding(result, true, q)
       == Share(Wanted(op, q.level, subj, clip, q.x, q.y))
  }

  /** Everywhere, just above and just below every height, the contours turn around what the set
      operation on the two polygons has, and around nothing else. */
  lemma DrawnIsExact(op: Op, t: Table, subj: Polygon, clip: Polygon, out: Store)
    requires Represents(t, SubjUsed(op, subj, clip), ClipUsed(op, subj, clip))
    requires Sound(Segments(t), multiset{}, out) && AllDrawn(op, t, out)
    ensures Exact(op, subj, clip, Extract(out))
  {
    hide Represents, SubjUsed, ClipUsed, Sound, Member, Wanted, WantedAbove, WantedBelow, Finished, Hits, Extract,
      Turns;
    SoundIsFinished(Segments(t), out);
    forall q
      ensures ExactAt(op, subj, clip, Extract(out), q)
    {
      ResultTurns(out, q);
      TurnsParity(Extract(out), q);
      assert Hits(out, q) == Share(WantedAt(op, t, q));
      WantedIsRead(op, t, subj, clip, q.x, q.y);
    }
  }

  /** What the output nodes record of holes goes over to the result. */
  lemma HolesOfResult(op: Op, t: Table, subj: Polygon, clip: Polygon, out: Store)
    requires Sound(Segments(t), multiset{}, out) && AllDrawn(op, t, out)
    requires Exact(op, subj, clip, Extract(out))
    ensures HolesAreRight(op, subj, clip, Extract(out))
  {
    hide Sound, Wanted, Hits, Extract, Turns, Exact, TurnsAsFlagged, Surrounding, WantedAt;
    SoundIsFinished(Segments(t), out);
    forall q
      ensures HolesAreRightAt(op, subj, clip, Extract(out), q)
    {
      assert HolesAt(out, q);
      forall c | c in Extract(out)
        ensures TurnsAsFlagged(c, q)
      {
        NodeTurns(out, c, q);
      }
      TurnsAreSurrounding(Extract(out), q);
      ExactTurns(op, subj, clip, Extract(out), q);
    }
  }

  lemma ExactTurns(op: Op, subj: Polygon, clip: Polygon, result: seq<ResultContour>, q: Probe)
    requires Exact(op, subj, clip, result)
    ensures Turns(result, q) == Share(Wanted(op, q.level, subj, clip, q.x, q.y))
  {
    assert ExactAt(op, subj, clip, result, q);
  }

  lemma NodeTurns(out: Store, c: ResultContour, q: Probe)
    requires Finished(out) && HolesAt(out, q) && c in Extract(out)
    ensures TurnsAsFlagged(c, q)
  {
    hide ContourTurns, ContourHits, Extract;
    var r := ExtractFrom(out, c);
    assert FinishedNode(out[r]);
    ClosedContour(out[r], q);
    assert NodeCounts(out[r], ContourHits(out[r], q));
  }

  /** What `hole` means at a contour's border.  If, from one probe to another, one contour alone
      changes from not turning to turning, then it is a hole exactly if the first is wanted, and
      exactly if the second, within the contour, is not. */
  lemma HoleIsUnwanted(op: Op, subj: Polygon, clip: Polygon, result: seq<ResultContour>, k: nat, q: Probe, q': Probe)
    requires Exact(op, subj, clip, result) && HolesAreRight(op, subj, clip, result) && k < |result|
    requires forall i :: 0 <= i < |result| && i != k ==>
               ContourTurns(result[i].vertex, q) == ContourTurns(result[i].vertex, q')
    requires ContourTurns(result[k].vertex, q) == 0 && ContourTurns(result[k].vertex, q') != 0
    ensures result[k].hole == Wanted(op, q.level, subj, clip, q.x, q.y)
    ensures result[k].hole == !Wanted(op, q'.level, subj, clip, q'.x, q'.y)
  {
    hide Exact, Wanted, ContourTurns, Turns, Surrounding;
    ExactTurns(op, subj, clip, result, q);
    ExactTurns(op, subj, clip, result, q');
    TurnsDiffer(result, k, q, q');
    assert HolesAreRightAt(op, subj, clip, result, q') && result[k] in result;
    assert TurnsAsFlagged(result[k], q');
  }

  lemma NothingIsExact(op: Op, subj: Polygon, clip: Polygon)
    requires forall l, x, y :: !Wanted(op, l, subj, clip, x, y)
    ensures Exact(op, subj, clip, []) && HolesAreRight(op, subj, clip, [])
  {
    hide Wanted;
    forall q
      ensures ExactAt(op, subj, clip, [], q) && HolesAreRightAt(op, subj, clip, [], q)
    {
      assert AsPolygon([]) == [];
      MemberSplits(q.level, [], q.x, q.y);
      assert !Wanted(op, q.level, subj, clip, q.x, q.y);
    }
  }

  /** What clipping must yield.  The result is exact, its holes are just those that are flagged,
      and every contour of it is a closed path along the sides of the input. */
  ghost predicate Clipped(op: Op, subj: Polygon, clip: Polygon, result: seq<ResultContour>) {
    && Exact(op, subj, clip, result)
    && HolesAreRight(op, subj, clip, result)
    && GoodResult(subj, clip, result)
  }

  /** How clipping must go about it.  The sweep visits just the heights of the vertices that
      matter; there it classes every edge as the set operation requires, and nothing is wanted
      beyond. */
  ghost predicate Visited(op: Op, subj: Polygon, clip: Polygon, visits: seq<Visit>) {
    && (forall v :: v in visits ==> ClassesAreWanted(op, subj, clip, v))
    && (visits != [] ==>
          RecordedHeights(Heights(visits), SubjUsed(op, subj, clip), ClipUsed(op, subj, clip)))
    && (forall l, x, y :: Wanted(op, l, subj, clip, x, y) ==>
          visits != [] && visits[0].y <= y <= visits[|visits| - 1].y)
  }

  lemma TrivialResult(op: Op, subj: Polygon, clip: Polygon)
    requires Trivial(op, subj, clip)
    ensures Clipped(op, subj, clip, []) && Visited(op, subj, clip, [])
  {
    forall l, x, y
      ensures !Wanted(op, l, subj, clip, x, y)
    {
      NothingWanted(op, l, subj, clip, x, y);
    }
    NothingIsExact(op, subj, clip);
  }

  lemma NoEdgesResult(op: Op, subj: Polygon, clip: Polygon)
    requires Represents([], SubjUsed(op, subj, clip), ClipUsed(op, subj, clip))
    ensures Clipped(op, subj, clip, []) && Visited(op, subj, clip, [])
  {
    hide Wanted, SubjUsed, ClipUsed, RecordedHeights;
    NoEdgesNoHeights(SubjUsed(op, subj, clip), ClipUsed(op, subj, clip));
    AllSpanned(op, subj, clip, []);
    NothingIsExact(op, subj, clip);
  }

  lemma SweptResult(op: Op, t: Table, subj: Polygon, clip: Polygon, ys: seq<real>, out: Store, visits: seq<Visit>)
    requires Unflagged(subj) && Unflagged(clip)
    requires Represents(t, SubjUsed(op, subj, clip), ClipUsed(op, subj, clip))
    requires RecordedHeights(ys, SubjUsed(op, subj, clip), ClipUsed(op, subj, clip)) && ys != []
    requires Sound(Segments(t), multiset{}, out) && AllDrawn(op, t, out)
    requires |visits| == |ys| && VisitedRightly(op, t, ys, visits)
    ensures Clipped(op, subj, clip, Extract(out)) && Visited(op, subj, clip, visits)
  {
    hide Wanted, SubjUsed, ClipUsed, RecordedHeights, GoodResult, ClassesAreRight, ClassesAreWanted, Sound,
      Represents, Unflagged, AllDrawn, Exact, HolesAreRight;
    ExtractIsGood(op, t, subj, clip, out);
    DrawnIsExact(op, t, subj, clip, out);
    HolesOfResult(op, t, subj, clip, out);
    assert Heights(visits) == ys;
    AllSpanned(op, subj, clip, ys);
    forall v | v in visits
      ensures ClassesAreWanted(op, subj, clip, v)
    {
      VisitIsWanted(op, t, subj, clip, v);
    }
  }

  /** From the finished tables to the result. */
  method ClipTables(op: Op, t: Table, lmt: seq<Minimum>, entries: nat, tree: Tree, ghost subj: Polygon,
                    ghost clip: Polygon, ghost between: set<real>)
    returns (result: seq<ResultContour>, ghost visits: seq<Visit>, ghost out: Store, ghost stages: seq<Stage>)
    requires Unflagged(subj) && Unflagged(clip) && Built(t, lmt) && Ordered(tree) && entries == Size(tree)
    requires Represents(t, SubjUsed(op, subj, clip), ClipUsed(op, subj, clip))
    requires Recorded(KeptOfPolygon(SubjUsed(op, subj, clip)), {}, between)
    requires Recorded(KeptOfPolygon(ClipUsed(op, subj, clip)), between, HeightsOf(tree))
    ensures Clipped(op, subj, clip, result)
    ensures Visited(op, subj, clip, visits) && (visits == [] ==> result == [])
    ensures Shown(out, result) && (visits != [] ==> Accounted(op, t, Heights(visits), stages, out))
  {
    hide Unflagged, Represents, RecordedHeights, Recorded, Built, ClassesAreRight, SubjUsed, ClipUsed, Chained,
      Even, EdgeTable.Heights, Minima, Sound, AllDrawn, Listing, Ordered, HeightsOf, Size, Extract, Clipped, Visited,
      KeptOfPolygon, Shown, Accounted, VisitedRightly;
    if lmt == [] {
      NoMinimaNoEdges(t);
      NoEdgesResult(op, subj, clip);
      NothingShows();
      return [], [], [], [];
    }
    ghost var s, c := SubjUsed(op, subj, clip), ClipUsed(op, subj, clip);
    var ys := ScanbeamTable(entries, tree);
    HeightsRecorded(ys, s, c, between, HeightsOf(tree));
    TableIsEven(t, s, c);
    HeightsOfTable(t, ys, s, c);
    BuiltIsMinima(t, lmt);
    assert Chained(t) by { BuiltIsChained(t, lmt); }
    MinimumIsHeight(t, ys, lmt, 0);
    var polys;
    polys, visits, stages := RunSweep(op, t, ys, lmt);
    SweptResult(op, t, subj, clip, ys, polys, visits);
    ExtractShows(polys);
    HeightsVisited(op, t, ys, visits);
    result, out := Extract(polys), polys;
  }

  lemma HeightsVisited(op: Op, t: Table, ys: seq<real>, visits: seq<Visit>)
    requires VisitedRightly(op, t, ys, visits) && |visits| == |ys|
    ensures Heights(visits) == ys
  {
    hide ClassesAreRight;
  }

  lemma BuiltIsChained(t: Table, lmt: seq<Minimum>)
    requires Built(t, lmt)
    ensures Chained(t)
  {
  }

  /** The edge table of a run, and what its scanbeams worked on. */
  datatype Run = Run(table: Table, stages: seq<Stage>)

  /** Every vertex of the output contours, as often as it occurs, and every closing of one, as a hole
      or not, comes from an edge of a boundary or from a crossing, by the occupancies around it. */
  ghost predicate AccountedFor(op: Op, subj: Polygon, clip: Polygon, visits: seq<Visit>, run: Run, out: Store) {
    visits != [] ==>
      && Represents(run.table, SubjUsed(op, subj, clip), ClipUsed(op, subj, clip))
      && Accounted(op, run.table, Heights(visits), run.stages, out)
  }

  /** A contour whose own two ends meet at a boundary is a hole exactly if just below the boundary, to
      the left of the edge where they meet, nothing is wanted. */
  lemma HoleAboveUnwanted(op: Op, subj: Polygon, clip: Polygon, visits: seq<Visit>, run: Run, out: Store, k: nat,
                          m: Meeting)
    returns (j: nat)
    requires AccountedFor(op, subj, clip, visits, run, out) && k < |run.stages| && k < |visits|
    requires m in BoundaryMeets(op, run.table, visits[k].y, run.stages[k].row)
    ensures j < |run.stages[k].row| && m.pt == Point(run.stages[k].row[j].xb, visits[k].y)
    ensures forall x :: SplitsAt(run.stages[k].row, x, j) ==>
                          m.hole == !Wanted(op, JustBelow, subj, clip, x, visits[k].y)
  {
    hide Represents, Closes, RunCorners, RunMeets, Wanted, WantedBelow, WantedAbove, ParityAfter, Inside, SubjUsed,
      ClipUsed;
    var t, y, row := run.table, visits[k].y, run.stages[k].row;
    var around := Arounds(op, StartParity(op), Belows(t, y, row), Aboves(row));
    j := ScanMeetsAt(y, row, around, |row|, m);
    assert RowAt(op, t, Heights(visits)[k], row);
    forall x | SplitsAt(row, x, j)
      ensures m.hole == !Wanted(op, JustBelow, subj, clip, x, y)
    {
      GapRead(op, t, y, row, [], x, j);
      WantedIsRead(op, t, subj, clip, x, y);
    }
  }

  /** Clips the subject polygon against the clip polygon, which may be the same.  The
      polygons are left as they were. */
  method PolygonClip(op: Op, subj: array<Contour>, clip: array<Contour>)
    returns (result: seq<ResultContour>, ghost visits: seq<Visit>, ghost out: Store, ghost run: Run)
    requires Unflagged(subj[..]) && Unflagged(clip[..])
    modifies subj, clip
    ensures subj[..] == old(subj[..]) && clip[..] == old(clip[..])
    ensures Clipped(op, old(subj[..]), old(clip[..]), result)
    ensures Visited(op, old(subj[..]), old(clip[..]), visits) && (visits == [] ==> result == [])
    ensures Shown(out, result) && AccountedFor(op, old(subj[..]), old(clip[..]), visits, run, out)
  {
    hide Unflagged, Represents, Recorded, Built, Adds, SubjUsed, ClipUsed, Flagged, Ordered, HeightsOf, Size,
      Polygons.Sized, Repaired, Clipped, Visited, SidesOfPolygon, KeptOfPolygon, Shown, Accounted;
    ghost var p, q := subj[..], clip[..];
    if (subj.Length == 0 && clip.Length == 0)
      || (subj.Length == 0 && (op == Int || op == Diff)) || (clip.Length == 0 && op == Int) {
      TrivialResult(op, p, q);
      NothingShows();
      return [], [], [], Run([], []);
    }
    if (op == Int || op == Diff) && subj.Length > 0 && clip.Length > 0 {
      MinimaxTest(subj, clip, op);
    }
    UsedIs(op, p, q);
    if subj == clip {
      SameUsed(op, p);
    }
    UsedIsRepaired(op, p, q);
    ghost var s, c := SubjUsed(op, p, q), ClipUsed(op, p, q);
    assert subj[..] == s && clip[..] == c;
    NothingBuilt();
    EmptyTree();
    var t1, lmt1, entries1, tree1 := BuildIfAny(subj, Subj, [], [], 0, Nil);
    assert clip[..] == c;
    var t, lmt, entries, tree := BuildIfAny(clip, Clip, t1, lmt1, entries1, tree1);
    TablesRepresent(t1, t, s, c);
    ghost var stages;
    result, visits, out, stages := ClipTables(op, t, lmt, entries, tree, p, q, HeightsOf(tree1));
    run := Run(t, stages);
  }
}
