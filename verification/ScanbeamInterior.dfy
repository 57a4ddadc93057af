/**
 The inside of a scanbeam, worked through with an eye on what has been drawn: up to the
 height reached, the sides of the output contours are just those that the set operation
 wants.
 */
module ScanbeamInterior {
  import opened Base
  import opened Edges
  import opened EdgeTable
  import opened Output
  import opened Strands
  import opened Bundles
  import opened Crossings
  import opened IntersectionTable
  import opened Exchange
  import opened BeamOrder
  import opened Interior
  import opened SweepState
  import opened Tally
  import opened Turning
  import opened Levels
  import opened Conservation
  import opened Corners
  import opened Closing
  import CrossingTally
  import CrossingTurning

  /** What the row holds inside the scanbeam. */
  ghost predicate InPlay(t: Table, ys: seq<real>, b: nat, s: seq<Edge>) {
    && Heights(t, ys) && b + 1 < |ys| && ys[b] < ys[b + 1]
    && SweepState.Holds(s, CrossedIds(t, ys[b])) && Informed(t, s)
    && forall e :: e in s ==> Spans(Segments(t), ys[b], ys[b + 1], e)
  }

  /** The sides crossed just above a height. */
  function CrossedIds(t: Table, y: real): set<nat> {
    set id: nat | id < |t| && CrossedAbove(t, id, y)
  }

  lemma Rises(t: Table, ys: seq<real>, b: nat, s: seq<Edge>)
    requires InPlay(t, ys, b, s)
    ensures b + 1 < |ys| && ys[b] < ys[b + 1]
  {
  }

  lemma InPlayReordered(t: Table, ys: seq<real>, b: nat, s: seq<Edge>, r: seq<Edge>)
    requires InPlay(t, ys, b, s) && Reordered(s, r)
    ensures InPlay(t, ys, b, r)
  {
    hide Heights, CrossedIds;
    HoldsReordered(s, r, CrossedIds(t, ys[b]));
    assert forall i :: 0 <= i < |s| ==> s[i].id < |t| && s[i].info == t[s[i].id];
    forall f | f in r
      ensures f.id < |t| && f.info == t[f.id] && Spans(Segments(t), ys[b], ys[b + 1], f)
    {
      var e :| e in s && SameButPointers(e, f);
      var i :| 0 <= i < |s| && s[i] == e;
    }
    assert forall i :: 0 <= i < |r| ==> r[i] in r;
  }

  /** A row of bundles in order at a level: its count there is what is wanted. */
  lemma BundlesDrawn(op: Op, t: Table, ys: seq<real>, b: nat, row: seq<seq<Edge>>, out: Store, h: real, q: Probe,
                     q0: Probe)
    requires AreBundles(row) && UnitBundles(row) && InPlay(t, ys, b, Flatten(row))
    requires RowHeld(op, Segments(t), StartParity(op), Aboves(Heads(row)), out)
    requires UpTo(out, h) && !Below(q, h) && InBeam(q, ys[b], ys[b + 1])
    requires Planar(Grips(op, StartParity(op), Aboves(Heads(row))), out, q0)
    requires forall i, j :: 0 <= i < j < |row| ==> Head(row[i]).info.seg.XAt(q.y) <= Head(row[j]).info.seg.XAt(q.y)
    ensures DrawnAt(op, t, Aboves(Heads(row)), out, q)
  {
    hide RowHeld, UpTo, Total, Inside, WantedAt, LeftAtLevel, Heights, SweepState.Holds, Informed, LevelSplit,
      IsBundle, UnitBundle, ParityAfter, Segment.XAt, Spans, InBeam, Aboves, SortedAt, CrossedAbove,
      Planar;
    var f, p, segs := Flatten(row), StartParity(op), Segments(t);
    HeadsSpeak(row);
    SameBusyRow(op, segs, p, Aboves(f), Aboves(Heads(row)), out);
    SameTotal(op, p, Aboves(f), Aboves(Heads(row)), out, q);
    BundlesAbreast(segs, ys[b], ys[b + 1], row, q.y);
    FlattenSortedAt(row, q.y);
    var i := FindSplit(f, q.x, q.y);
    SplitBalanced(p, row, q.x, q.y, i);
    UnitsAtLevel(t, ys, b, p, CrossedIds(t, ys[b]), f, q, i);
    WantedIsInside(op, t, q);
    CountAtLevel(op, segs, p, f, out, q, h, i);
    GripsBusy(op, p, Aboves(f));
    GripsBusy(op, p, Aboves(Heads(row)));
    PlanarAtLevel(op, segs, p, f, out, q0, q, h, i);
  }

  /** From the last crossing taken to the next one, the heads stand in order. */
  lemma HeadsSortedAt(segs: set<Segment>, yb: real, yt: real, h: seq<Edge>, row: seq<seq<Edge>>, cur: seq<nat>,
                      it: seq<Crossing>, k: nat, y: real)
    requires AreBundles(row) && Placed(h, Heads(row), cur) && Arranged(|h|, it, k, cur) && k <= |it|
    requires forall e :: e in h ==> Spans(segs, yb, yt, e)
    requires Beam(Lines(h), yt - yb) && Complete(Lines(h), yt - yb, it)
    requires 0.0 <= y - yb <= TurnAt(it, k, yt - yb) && (k > 0 ==> it[k - 1].point.y <= y - yb)
    ensures forall i, j :: 0 <= i < j < |row| ==> Head(row[i]).info.seg.XAt(y) <= Head(row[j]).info.seg.XAt(y)
  {
    hide Complete, Beam, Arranged, IsBundle, Segment.XAt;
    RowSortedAt(Lines(h), yt - yb, it, k, cur, y - yb);
    forall i | 0 <= i < |row|
      ensures Head(row[i]).info.seg.XAt(y) == LineAt(Lines(h)[cur[i]], y - yb)
    {
      assert SameButPointers(h[cur[i]], Heads(row)[i]) && h[cur[i]] in h;
      PointOnSegment(h[cur[i]].info.seg, yb, y - yb);
      assert yb + (y - yb) == y;
    }
  }

  /** The height reached when k records have been taken. */
  function Reached(yb: real, it: seq<Crossing>, k: nat): real
    requires k <= |it|
  {
    if k == 0 then yb else yb + it[k - 1].point.y
  }

  /** What is known of the interior's row throughout. */
  ghost predicate Fixed(t: Table, ys: seq<real>, b: nat, aet: seq<Edge>, it: seq<Crossing>) {
    && InPlay(t, ys, b, aet) && AreBundles(Group(aet))
    && var l := Lines(Heads(Group(aet)));
       && (forall e :: e in Heads(Group(aet)) ==> Spans(Segments(t), ys[b], ys[b + 1], e))
       && Beam(l, ys[b + 1] - ys[b]) && Complete(l, ys[b + 1] - ys[b], it)
  }

  lemma DrawnIsPlanar(op: Op, t: Table, s: seq<Strand>, out: Store, h: real, q: Probe)
    requires Drawn(op, t, s, out, h) && Below(q, h)
    ensures Planar(Grips(op, StartParity(op), s), out, q)
  {
    assert DrawnAt(op, t, s, out, q);
  }

  /** Between two crossings nothing happens, and what is drawn there is right. */
  lemma DrawOn(op: Op, t: Table, ys: seq<real>, b: nat, aet: seq<Edge>, it: seq<Crossing>, k: nat,
               row: seq<seq<Edge>>, cur: seq<nat>, out: Store)
    requires Fixed(t, ys, b, aet, it) && k <= |it|
    requires Working(op, Segments(t), StartParity(op), aet, it, k, row, cur, out)
    requires Drawn(op, t, Aboves(Heads(row)), out, Reached(ys[b], it, k))
    ensures Drawn(op, t, Aboves(Heads(row)), out, ys[b] + TurnAt(it, k, ys[b + 1] - ys[b]))
  {
    hide RowHeld, Sided, DrawnAt, UpTo, Complete, Beam, Group, Arranged, IsBundle, UnitBundle, Spans, InPlay,
      Reordered, Aboves;
    Rises(t, ys, b, aet);
    var yb, dy := ys[b], ys[b + 1] - ys[b];
    var from, to := Reached(yb, it, k), yb + TurnAt(it, k, dy);
    var h := Heads(Group(aet));
    TurnsAscend(Lines(h), dy, it, k);
    UpToHigher(out, from, to);
    var q0 := Probe(JustBelow, 0.0, from);
    DrawnIsPlanar(op, t, Aboves(Heads(row)), out, from, q0);
    InPlayReordered(t, ys, b, aet, Flatten(row));
    forall q | Below(q, to)
      ensures DrawnAt(op, t, Aboves(Heads(row)), out, q)
    {
      if !Below(q, from) {
        HeadsSortedAt(Segments(t), yb, ys[b + 1], h, row, cur, it, k, q.y);
        BundlesDrawn(op, t, ys, b, row, out, from, q, q0);
      }
    }
  }

  /** At a crossing nothing is changed below it. */
  lemma DrawCrossing(op: Op, t: Table, h: seq<Edge>, x: nat, out: Store, pt: Point)
    requires x + 1 < |h|
    requires RowHeld(op, Segments(t), StartParity(op), Aboves(h), out) && Sided(StartParity(op), Aboves(h))
    requires h[x].info.seg in Segments(t) && h[x + 1].info.seg in Segments(t)
    requires h[x].info.seg.Contains(pt) && h[x + 1].info.seg.Contains(pt)
    requires Drawn(op, t, Aboves(h), out, pt.y)
    ensures Valid(out) && CrossingStep.PointersOk(out, h[x]) && CrossingStep.PointersOk(out, h[x + 1])
    ensures var (out', f0, f1) := CrossingStep.Cross(op, out, h[x], h[x + 1], pt);
            Drawn(op, t, Aboves(h[..x] + [f1, f0] + h[x + 2..]), out', pt.y)
  {
    hide RowHeld, Sided, CrossingStep.Cross, UpTo, WantedAt, Total, Aboves, Segment.Contains, Planar, Grips;
    var p, segs := StartParity(op), Segments(t);
    var a, b := Aboves(h[..x]), Aboves(h[x + 2..]);
    AbovesSplit(h, x);
    CrossHeads(op, segs, p, h, x, out, pt);
    var (out', f0, f1) := CrossingStep.Cross(op, out, h[x], h[x + 1], pt);
    AbovesExchanged(h, x, f0, f1);
    CrossingTally.CrossRowTallied(op, segs, p, a, h[x], h[x + 1], b, out, pt, Probe(JustBelow, 0.0, pt.y));
    forall q | Below(q, pt.y)
      ensures DrawnAt(op, t, Aboves(h[..x] + [f1, f0] + h[x + 2..]), out', q)
    {
      assert DrawnAt(op, t, Aboves(h), out, q);
      CrossingTally.CrossRowTallied(op, segs, p, a, h[x], h[x + 1], b, out, pt, q);
      CrossingTurning.CrossRowTurned(op, segs, p, a, h[x], h[x + 1], b, out, pt, q);
    }
  }

  /** One record: the crossing is drawn. */
  lemma DrawStep(op: Op, t: Table, ys: seq<real>, b: nat, aet: seq<Edge>, it: seq<Crossing>, k: nat,
                 row: seq<seq<Edge>>, cur: seq<nat>, out: Store, x: nat)
    requires Fixed(t, ys, b, aet, it) && k < |it|
    requires Working(op, Segments(t), StartParity(op), aet, it, k, row, cur, out)
    requires Drawn(op, t, Aboves(Heads(row)), out, ys[b] + TurnAt(it, k, ys[b + 1] - ys[b]))
    requires x + 1 < |row| && x + 1 < |cur| && cur[x] == it[k].left && cur[x + 1] == it[k].right
    ensures row[x] != [] && row[x + 1] != []
    ensures var e0, e1 := Head(row[x]), Head(row[x + 1]);
            var pt := Point(it[k].point.x, it[k].point.y + ys[b]);
            && Valid(out) && CrossingStep.PointersOk(out, e0) && CrossingStep.PointersOk(out, e1)
            && var (out', f0, f1) := CrossingStep.Cross(op, out, e0, e1, pt);
               && AreBundles(SwapBundles(row, x, f0, f1))
               && Drawn(op, t, Aboves(Heads(SwapBundles(row, x, f0, f1))), out', Reached(ys[b], it, k + 1))
  {
    hide RowHeld, Sided, Complete, Beam, CrossingStep.Cross, Reordered, IsBundle, UnitBundle, Arranged, Group,
      Aboves, SwapBundles, Spans, Drawn, InPlay;
    Rises(t, ys, b, aet);
    var h := Heads(Group(aet));
    var hr := Heads(row);
    var pt := Point(it[k].point.x, it[k].point.y + ys[b]);
    PointOnBoth(Segments(t), ys[b], ys[b + 1], h, it, k);
    assert hr[x].info == h[cur[x]].info && hr[x + 1].info == h[cur[x + 1]].info;
    DrawCrossing(op, t, hr, x, out, pt);
    var (out', f0, f1) := CrossingStep.Cross(op, out, hr[x], hr[x + 1], pt);
    SwapBundlesHeads(row, x, f0, f1);
  }

  lemma DrawStarts(op: Op, t: Table, aet: seq<Edge>, out: Store, yb: real)
    requires AreBundles(Group(aet)) && Drawn(op, t, Aboves(aet), out, yb)
    ensures Drawn(op, t, Aboves(Heads(Group(aet))), out, yb)
  {
    hide Drawn, Group, IsBundle, Aboves;
    HeadsSpeak(Group(aet));
    FlattenGroup(aet);
    DrawnBusy(op, t, Aboves(aet), Aboves(Heads(Group(aet))), out, yb);
  }

  lemma DrawEnds(op: Op, t: Table, row: seq<seq<Edge>>, out: Store, h: real)
    requires AreBundles(row) && Drawn(op, t, Aboves(Heads(row)), out, h)
    ensures Drawn(op, t, Aboves(Flatten(row)), out, h)
  {
    hide Drawn, IsBundle, Aboves;
    HeadsSpeak(row);
    DrawnBusy(op, t, Aboves(Heads(row)), Aboves(Flatten(row)), out, h);
  }

  /** The parity to the left of line i, where the lines stand in the order `o`. */
  function ParityLeft(p: Flags, h: seq<Edge>, o: seq<nat>, i: nat): Flags
    decreases |o|
  {
    if o == [] || o[0] == i || o[0] >= |h| then p else ParityLeft(p.Toggle(h[o[0]].above), h, o[1..], i)
  }

  /** How many vertices record k adds, by the occupancies around its crossing. */
  function RecordCorners(op: Op, p: Flags, h: seq<Edge>, it: seq<Crossing>, k: nat): nat
    requires k < |it|
  {
    var i, j := it[k].left, it[k].right;
    if i < |h| && j < |h| then
      CornersBetween(op, ParityLeft(p, h, Order(|h|, it, k), i), h[i].above, h[j].above)
    else 0
  }

  /** How often the first k records add the vertex `v`. */
  function TableCorners(op: Op, p: Flags, yb: real, h: seq<Edge>, it: seq<Crossing>, k: nat, v: Point): nat
    requires k <= |it|
  {
    if k == 0 then 0
    else
      var pt := it[k - 1].point;
      TableCorners(op, p, yb, h, it, k - 1, v) +
      if v == Point(pt.x, pt.y + yb) then RecordCorners(op, p, h, it, k - 1) else 0
  }

  /** Where record k lets the two ends of one contour meet. */
  function RecordMeets(op: Op, p: Flags, yb: real, h: seq<Edge>, it: seq<Crossing>, k: nat): set<Meeting>
    requires k < |it|
  {
    var i, j, pt := it[k].left, it[k].right, it[k].point;
    if i < |h| && j < |h| then
      var q := ParityLeft(p, h, Order(|h|, it, k), i);
      var lower := q.Toggle(h[i].above);
      CrossMeets(Point(pt.x, pt.y + yb), Inside(op, q), Inside(op, lower), Inside(op, lower.Toggle(h[j].above)))
    else {}
  }

  function TableMeets(op: Op, p: Flags, yb: real, h: seq<Edge>, it: seq<Crossing>, k: nat): set<Meeting>
    requires k <= |it|
  {
    if k == 0 then {} else TableMeets(op, p, yb, h, it, k - 1) + RecordMeets(op, p, yb, h, it, k - 1)
  }

  lemma {:induction false} ParityLeftIs(p: Flags, h: seq<Edge>, row: seq<Edge>, cur: seq<nat>, x: nat)
    requires |row| == |cur| && x < |cur|
    requires forall q :: 0 <= q < |cur| ==> cur[q] < |h| && row[q].above == h[cur[q]].above
    requires forall q :: 0 <= q < x ==> cur[q] != cur[x]
    ensures ParityLeft(p, h, cur, cur[x]) == ParityAfter(p, Aboves(row[..x]))
    decreases x
  {
    if x > 0 {
      ParityLeftIs(p.Toggle(row[0].above), h, row[1..], cur[1..], x - 1);
      assert Aboves(row[..x])[1..] == Aboves(row[1..][..x - 1]);
    }
  }

  /** One record adds what it should. */
  lemma RecordAdds(op: Op, segs: set<Segment>, yb: real, yt: real, aet: seq<Edge>, it: seq<Crossing>, k: nat,
                   row: seq<seq<Edge>>, cur: seq<nat>, out: Store, x: nat)
    requires yb < yt && AreBundles(Group(aet)) && forall e :: e in Heads(Group(aet)) ==> Spans(segs, yb, yt, e)
    requires var l := Lines(Heads(Group(aet))); Beam(l, yt - yb) && Complete(l, yt - yb, it)
    requires Working(op, segs, StartParity(op), aet, it, k, row, cur, out) && k < |it|
    requires cur == Order(|cur|, it, k)
    requires x + 1 < |row| && x + 1 < |cur| && cur[x] == it[k].left && cur[x + 1] == it[k].right
    requires row[x] != [] && row[x + 1] != []
    ensures Swap(cur, x) == Order(|cur|, it, k + 1)
    ensures var e0, e1 := Head(row[x]), Head(row[x + 1]); var pt := Point(it[k].point.x, it[k].point.y + yb);
            && Valid(out) && CrossingStep.PointersOk(out, e0) && CrossingStep.PointersOk(out, e1)
            && Adds(out, CrossingStep.Cross(op, out, e0, e1, pt).0, pt,
                    RecordCorners(op, StartParity(op), Heads(Group(aet)), it, k))
            && Closes(out, CrossingStep.Cross(op, out, e0, e1, pt).0,
                      RecordMeets(op, StartParity(op), yb, Heads(Group(aet)), it, k))
  {
    hide RowHeld, Sided, Complete, Beam, CrossingStep.Cross, Reordered, IsBundle, UnitBundle, Arranged, Group, Aboves,
      Spans, Adds, CornersBetween, ParityAfter, Exchanged, Valid, Closes, CrossMeets, Inside;
    var p, h, hr := StartParity(op), Heads(Group(aet)), Heads(row);
    var pt := Point(it[k].point.x, it[k].point.y + yb);
    PointOnBoth(segs, yb, yt, h, it, k);
    SwapExchanges(|h|, it, k, cur, x);
    assert hr[x].info == h[cur[x]].info && hr[x + 1].info == h[cur[x + 1]].info;
    assert hr[x].above == h[cur[x]].above && hr[x + 1].above == h[cur[x + 1]].above;
    AbovesSplit(hr, x);
    CrossRowAdds(op, segs, p, Aboves(hr[..x]), hr[x], hr[x + 1], Aboves(hr[x + 2..]), out, pt);
    CrossRowCloses(op, segs, p, Aboves(hr[..x]), hr[x], hr[x + 1], Aboves(hr[x + 2..]), out, pt);
    forall q | 0 <= q < x
      ensures cur[q] != cur[x]
    {
      Distinct(|h|, it, k, cur, q, x);
    }
    ParityLeftIs(p, h, hr, cur, x);
  }

  /** The state when k records are worked off. */
  ghost predicate Worked(op: Op, t: Table, ys: seq<real>, b: nat, aet: seq<Edge>, before: Store, it: seq<Crossing>,
                         k: nat, row: seq<seq<Edge>>, cur: seq<nat>, out: Store) {
    && Fixed(t, ys, b, aet, it) && k <= |it| && AreBundles(row)
    && Working(op, Segments(t), StartParity(op), aet, it, k, row, cur, out)
    && Drawn(op, t, Aboves(Heads(row)), out, Reached(ys[b], it, k))
    && cur == Order(|cur|, it, k)
    && AddedBy(op, ys[b], Heads(Group(aet)), before, it, k, out)
    && Closes(before, out, TableMeets(op, StartParity(op), ys[b], Heads(Group(aet)), it, k))
  }

  ghost predicate AddedBy(op: Op, yb: real, h: seq<Edge>, before: Store, it: seq<Crossing>, k: nat, out: Store)
    requires k <= |it|
  {
    forall v :: Vertices(out, v) == Vertices(before, v) + TableCorners(op, StartParity(op), yb, h, it, k, v)
  }

  lemma AddedNext(op: Op, yb: real, h: seq<Edge>, before: Store, it: seq<Crossing>, k: nat, out: Store, out': Store)
    requires k < |it| && AddedBy(op, yb, h, before, it, k, out)
    requires Adds(out, out', Point(it[k].point.x, it[k].point.y + yb), RecordCorners(op, StartParity(op), h, it, k))
    ensures AddedBy(op, yb, h, before, it, k + 1, out')
  {
    hide Vertices, RecordCorners;
  }

  lemma WorkedAtFirst(op: Op, t: Table, ys: seq<real>, b: nat, aet: seq<Edge>, it: seq<Crossing>, cur: seq<nat>,
                      out: Store)
    requires InPlay(t, ys, b, aet) && InteriorPre(op, Segments(t), StartParity(op), ys[b], ys[b + 1], aet, out)
    requires Drawn(op, t, Aboves(aet), out, ys[b])
    requires |cur| == |Group(aet)| && forall i :: 0 <= i < |cur| ==> cur[i] == i
    requires Complete(Lines(Selection(aet)), ys[b + 1] - ys[b], it)
    ensures Worked(op, t, ys, b, aet, out, it, 0, Group(aet), cur, out)
  {
    hide InteriorPre, Crossings.Beam, Complete, Group, IsBundle, Drawn, InPlay, Aboves, UnitBundles, Spans, Working,
      Selection, Order, AddedBy, Closes;
    Rises(t, ys, b, aet);
    InteriorStarts(op, Segments(t), StartParity(op), ys[b], ys[b + 1], aet, out, it, cur);
    DrawStarts(op, t, aet, out, ys[b]);
    OrderAtFirst(it, cur);
    ClosesNone(out);
    AddedAtFirst(op, ys[b], Heads(Group(aet)), it, out);
  }

  lemma OrderAtFirst(it: seq<Crossing>, cur: seq<nat>)
    requires forall i :: 0 <= i < |cur| ==> cur[i] == i
    ensures cur == Order(|cur|, it, 0)
  {
  }

  lemma AddedAtFirst(op: Op, yb: real, h: seq<Edge>, it: seq<Crossing>, out: Store)
    ensures AddedBy(op, yb, h, out, it, 0, out)
  {
  }

  /** One record. */
  lemma WorkedNext(op: Op, t: Table, ys: seq<real>, b: nat, aet: seq<Edge>, before: Store, it: seq<Crossing>,
                   k: nat, row: seq<seq<Edge>>, cur: seq<nat>, out: Store, x: nat, y: nat)
    requires Worked(op, t, ys, b, aet, before, it, k, row, cur, out) && k < |it|
    requires x < |cur| && y < |cur| && cur[x] == it[k].left && cur[y] == it[k].right
    ensures y == x + 1 && y < |row| && row[x] != [] && row[y] != [] && b < |ys|
    ensures var e0, e1 := Head(row[x]), Head(row[y]); var pt := Point(it[k].point.x, it[k].point.y + ys[b]);
            && Valid(out) && CrossingStep.PointersOk(out, e0) && CrossingStep.PointersOk(out, e1)
            && var (out', f0, f1) := CrossingStep.Cross(op, out, e0, e1, pt);
               Worked(op, t, ys, b, aet, before, it, k + 1, SwapBundles(row, x, f0, f1), Swap(cur, x), out')
  {
    hide Working, Crossings.Beam, Complete, CrossingStep.Cross, Valid, Group, IsBundle, Drawn, InPlay, Aboves,
      SwapBundles, Swap, UnitBundles, Spans, Vertices, RecordCorners, AddedBy, Order, Adds, Closes,
      RecordMeets;
    Rises(t, ys, b, aet);
    var segs, p, yb, yt := Segments(t), StartParity(op), ys[b], ys[b + 1];
    DrawOn(op, t, ys, b, aet, it, k, row, cur, out);
    BothPlaced(op, segs, p, yt - yb, aet, it, k, row, cur, out);
    WorkStep(op, segs, p, yb, yt, aet, it, k, row, cur, out, x);
    PlacedOnce(op, segs, p, aet, it, k, row, cur, out, x + 1, y);
    DrawStep(op, t, ys, b, aet, it, k, row, cur, out, x);
    var (out', f0, f1) :=
      CrossingStep.Cross(op, out, Head(row[x]), Head(row[y]), Point(it[k].point.x, it[k].point.y + yb));
    RecordAdds(op, segs, yb, yt, aet, it, k, row, cur, out, x);
    AddedNext(op, yb, Heads(Group(aet)), before, it, k, out, out');
    ClosesBoth(before, out, out', TableMeets(op, p, yb, Heads(Group(aet)), it, k),
      RecordMeets(op, p, yb, Heads(Group(aet)), it, k));
  }

  lemma WorkedFinds(op: Op, t: Table, ys: seq<real>, b: nat, aet: seq<Edge>, before: Store, it: seq<Crossing>,
                    k: nat, row: seq<seq<Edge>>, cur: seq<nat>, out: Store)
    requires Worked(op, t, ys, b, aet, before, it, k, row, cur, out) && k < |it|
    ensures it[k].left in cur && it[k].right in cur
  {
    hide Working, Complete, Group, IsBundle, Drawn, InPlay, Aboves, Spans, AddedBy, Closes;
    Rises(t, ys, b, aet);
    BothPlaced(op, Segments(t), StartParity(op), ys[b + 1] - ys[b], aet, it, k, row, cur, out);
  }

  lemma WorkedAtLast(op: Op, t: Table, ys: seq<real>, b: nat, aet: seq<Edge>, before: Store, it: seq<Crossing>,
                     row: seq<seq<Edge>>, cur: seq<nat>, out: Store)
    requires Worked(op, t, ys, b, aet, before, it, |it|, row, cur, out)
    ensures b + 1 < |ys|
    ensures RowHeld(op, Segments(t), StartParity(op), Aboves(Flatten(row)), out)
    ensures ParityAfter(StartParity(op), Aboves(Flatten(row))) == ParityAfter(StartParity(op), Aboves(aet))
    ensures TopSorted(Flatten(row)) && BalancedAt(StartParity(op), Flatten(row), ys[b + 1])
    ensures Reordered(aet, Flatten(row)) && Drawn(op, t, Aboves(Flatten(row)), out, ys[b + 1])
  {
    hide Working, Complete, Group, IsBundle, Drawn, Aboves, Spans, AddedBy, Closes, RowHeld, TopSorted, BalancedAt,
      Reordered, ParityAfter, Heights, SweepState.Holds, Informed;
    DrawOn(op, t, ys, b, aet, it, |it|, row, cur, out);
    InteriorEnds(op, Segments(t), StartParity(op), ys[b], ys[b + 1], aet, it, row, cur, out);
    DrawEnds(op, t, row, out, ys[b + 1]);
    assert ys[b] + (ys[b + 1] - ys[b]) == ys[b + 1];
  }

  /** Works through the inside of scanbeam b.  Every record of the intersection table
      exchanges two bundles that are neighbours at that moment; at the end the row is in
      order at the top, the ends of the open contours are held as before, all that is wanted in
      the scanbeam has been drawn, and every record has added the vertices that the occupancies
      around its crossing call for.  `it` is the intersection table. */
  method ProcessInterior(op: Op, yb: real, yt: real, aet: seq<Edge>, out: Store, ghost t: Table, ghost ys: seq<real>,
                         ghost b: nat)
    returns (aet': seq<Edge>, out': Store, ghost it: seq<Crossing>)
    requires InteriorPre(op, Segments(t), StartParity(op), yb, yt, aet, out)
    requires InPlay(t, ys, b, aet) && yb == ys[b] && yt == ys[b + 1]
    requires Drawn(op, t, Aboves(aet), out, yb)
    ensures RowHeld(op, Segments(t), StartParity(op), Aboves(aet'), out')
    ensures ParityAfter(StartParity(op), Aboves(aet')) == ParityAfter(StartParity(op), Aboves(aet))
    ensures TopSorted(aet') && BalancedAt(StartParity(op), aet', yt) && Reordered(aet, aet')
    ensures Drawn(op, t, Aboves(aet'), out', yt)
    ensures Complete(Lines(Heads(Group(aet))), yt - yb, it)
    ensures forall v :: Vertices(out', v) ==
              Vertices(out, v) + TableCorners(op, StartParity(op), yb, Heads(Group(aet)), it, |it|, v)
    ensures Closes(out, out', TableMeets(op, StartParity(op), yb, Heads(Group(aet)), it, |it|))
  {
    hide Worked, InteriorPre, Complete, CrossingStep.Cross, Valid, Group, Drawn, InPlay, Aboves, SwapBundles, Swap,
      BalancedAt, Vertices, TableCorners, Closes, TableMeets, TopSorted, Reordered, RowHeld, ParityAfter, Selection;
    var row := Group(aet);
    var cur: seq<nat> := seq(|row|, i requires 0 <= i < |row| => i);
    SelectedBeam(op, Segments(t), StartParity(op), yb, yt, aet, out);
    var table := BuildIntersectionTable(Lines(Selection(aet)), yt - yb);
    it := table;
    WorkedAtFirst(op, t, ys, b, aet, it, cur, out);
    out' := out;
    for k := 0 to |table|
      invariant it == table && Worked(op, t, ys, b, aet, out, it, k, row, cur, out')
    {
      WorkedFinds(op, t, ys, b, aet, out, it, k, row, cur, out');
      var x :| 0 <= x < |cur| && cur[x] == table[k].left;
      var y :| 0 <= y < |cur| && cur[y] == table[k].right;
      WorkedNext(op, t, ys, b, aet, out, it, k, row, cur, out', x, y);
      var (out1, f0, f1) :=
        CrossingStep.Cross(op, out', Head(row[x]), Head(row[y]), Point(table[k].point.x, table[k].point.y + yb));
      row, cur, out' := SwapBundles(row, x, f0, f1), Swap(cur, x), out1;
    }
    WorkedAtLast(op, t, ys, b, aet, out, it, row, cur, out');
    WorkedTable(op, t, ys, b, aet, out, it, row, cur, out');
    aet' := Flatten(row);
  }

  lemma SelectedBeam(op: Op, segs: set<Segment>, p: Flags, yb: real, yt: real, aet: seq<Edge>, out: Store)
    requires InteriorPre(op, segs, p, yb, yt, aet, out)
    ensures Beam(Lines(Selection(aet)), yt - yb)
  {
    hide InteriorPre, Beam, Selection, Group, Working, Spans;
    var cur := seq(|Group(aet)|, i requires 0 <= i < |Group(aet)| => i);
    InteriorStarts(op, segs, p, yb, yt, aet, out, [], cur);
  }

  lemma WorkedTable(op: Op, t: Table, ys: seq<real>, b: nat, aet: seq<Edge>, before: Store, it: seq<Crossing>,
                    row: seq<seq<Edge>>, cur: seq<nat>, out: Store)
    requires Worked(op, t, ys, b, aet, before, it, |it|, row, cur, out)
    ensures b + 1 < |ys| && Complete(Lines(Heads(Group(aet))), ys[b + 1] - ys[b], it)
    ensures forall v :: Vertices(out, v) ==
              Vertices(before, v) + TableCorners(op, StartParity(op), ys[b], Heads(Group(aet)), it, |it|, v)
    ensures Closes(before, out, TableMeets(op, StartParity(op), ys[b], Heads(Group(aet)), it, |it|))
  {
    hide Working, Complete, Group, IsBundle, Drawn, Aboves, Spans, Vertices, TableCorners, Heights, Closes,
      TableMeets;
  }
}
