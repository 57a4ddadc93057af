/**
 The whole sweep of `gpc_polygon_clip`, from the tables to the output contours.
 */
module Sweep {
  import opened Base
  import opened Edges
  import opened EdgeTable
  import opened LocalMinima
  import opened Output
  import opened Strands
  import opened Bundling
  import opened ActiveTable
  import opened Membership
  import opened Boundary
  import opened BoundaryScan
  import opened Quadrants
  import opened Interior
  import opened SweepState
  import opened Tally
  import opened Levels
  import opened ScanbeamInterior
  import opened Bundles
  import opened Crossings
  import opened IntersectionTable
  import opened Conservation
  import opened Closing

  /** The edges of `ids` that are in the row stand there in the order of `ids`, and none stands
      behind an edge that it should precede. */
  ghost predicate InTheirOrder(s: seq<Edge>, ids: seq<nat>) {
    && (forall a, b, i, j ::
          0 <= a < b < |ids| && 0 <= i < |s| && 0 <= j < |s| && s[i].id == ids[a] && s[j].id == ids[b] ==> i < j)
    && (forall i, j :: 0 <= j < i < |s| && s[i].id in ids ==> NotRightOf(s[j], s[i]))
  }

  lemma NotBehind(s: seq<Edge>, ids: seq<nat>, j: nat, i: nat)
    requires InTheirOrder(s, ids) && j < i < |s| && s[i].id in ids
    ensures NotRightOf(s[j], s[i])
  {
  }

  /** What is known of a bound that is put in: those of its minimum that are in come before it. */
  ghost predicate NextBound(s: seq<Edge>, ids: seq<nat>, e: Edge, k: nat) {
    && k <= |s| && e.id !in ids && (forall i :: 0 <= i < |s| ==> s[i].id != e.id)
    && (forall i :: 0 <= i < |s| && s[i].id in ids ==> NotRightOf(s[i], e))
    && (forall i :: 0 <= i < k ==> NotRightOf(s[i], e))
    && (k < |s| ==> !NotRightOf(s[k], e))
  }

  lemma BehindItsBounds(s: seq<Edge>, ids: seq<nat>, e: Edge, k: nat, i: nat)
    requires BottomSorted(s) && InTheirOrder(s, ids) && NextBound(s, ids, e, k) && i < |s| && s[i].id in ids
    ensures i < k
  {
    hide InTheirOrder;
    if k < i {
      NotBehind(s, ids, k, i);
    }
  }

  /** A bound is put in behind the bounds of its minimum that are in already. */
  lemma InsertInOrder(s: seq<Edge>, ids: seq<nat>, e: Edge, k: nat)
    requires BottomSorted(s) && InTheirOrder(s, ids) && NextBound(s, ids, e, k)
    ensures InTheirOrder(s[..k] + [e] + s[k..], ids + [e.id])
  {
    hide BottomSorted, NotRightOf;
    var r, more := s[..k] + [e] + s[k..], ids + [e.id];
    forall a, b, i, j | 0 <= a < b < |more| && 0 <= i < |r| && 0 <= j < |r| && r[i].id == more[a] && r[j].id == more[b]
      ensures i < j
    {
      InsertedPosition(s, ids, e, k, a, i);
      InsertedPosition(s, ids, e, k, b, j);
    }
    forall i, j | 0 <= j < i < |r| && r[i].id in more
      ensures NotRightOf(r[j], r[i])
    {
      var a :| 0 <= a < |more| && more[a] == r[i].id;
      InsertedPosition(s, ids, e, k, a, i);
      AddedAt(s, e, k, j);
    }
  }

  lemma InsertedPosition(s: seq<Edge>, ids: seq<nat>, e: Edge, k: nat, a: nat, i: nat)
    requires BottomSorted(s) && InTheirOrder(s, ids) && NextBound(s, ids, e, k) && i <= |s| && a <= |ids|
    requires (s[..k] + [e] + s[k..])[i].id == (ids + [e.id])[a]
    ensures if a == |ids| then i == k && (s[..k] + [e] + s[k..])[i] == e
            else i < k && (s[..k] + [e] + s[k..])[i] == s[i] && s[i].id == ids[a] && s[i].id in ids
  {
    hide BottomSorted, NotRightOf, InTheirOrder;
    AddedAt(s, e, k, i);
    if a < |ids| {
      assert (ids + [e.id])[a] == ids[a] && ids[a] in ids;
      BehindItsBounds(s, ids, e, k, if i < k then i else i - 1);
    }
  }

  /** Inserts the bounds of a local minimum: they enter the row in their order. */
  method InsertMinimum(op: Op, t: Table, m: Minimum, aet: seq<Edge>, ghost out: Store) returns (aet': seq<Edge>)
    requires Chained(t) && MinimumAt(t, m)
    requires AtBoundary(op, t, m.y, Arriving(t, m.y), aet, out)
    ensures AtBoundary(op, t, m.y, Present(t, m.y), aet', out)
    ensures Busy(Belows(t, m.y, aet')) == Busy(Belows(t, m.y, aet))
    ensures InTheirOrder(aet', m.bounds)
    ensures LeftToRight(aet) ==> LeftToRight(aet')
    ensures forall e :: e in aet' ==> e in aet || Begins(t, e)
  {
    hide AtBoundary, Chained, Present, Starting, Arriving, Belows, Busy, BottomSorted, NewEdge, InTheirOrder,
      LeftToRight, Begins;
    aet' := aet;
    ghost var ids := Arriving(t, m.y);
    forall id: nat
      ensures id in ids <==> id in Present(t, m.y) && id !in Starting(t, m.y)
    {
      ArrivingDef(t, m.y, id);
    }
    NoneInOrder(aet);
    for k := 0 to |m.bounds|
      invariant AtBoundary(op, t, m.y, ids, aet', out)
      invariant Busy(Belows(t, m.y, aet')) == Busy(Belows(t, m.y, aet))
      invariant forall id :: id in ids <==> id in Arriving(t, m.y) || id in m.bounds[..k]
      invariant InTheirOrder(aet', m.bounds[..k])
      invariant LeftToRight(aet) ==> LeftToRight(aet')
      invariant forall e :: e in aet' ==> e in aet || Begins(t, e)
    {
      var id := m.bounds[k];
      BoundStarts(t, m, k);
      BoundarySorted(op, t, m.y, ids, aet', out);
      var was := aet';
      ghost var p;
      aet', p := AddEdgeToAet(aet', NewEdge(op, t, id));
      InsertKeepsBoundary(op, t, m.y, ids, was, out, id, p);
      InsertBusy(op, t, m.y, was, id, p);
      NewEdgeBegins(op, t, id);
      BoundInOrder(op, t, m, k, ids, was, out, p);
      ids := ids + {id};
      assert m.bounds[..k + 1] == m.bounds[..k] + [id];
    }
    assert m.bounds[..|m.bounds|] == m.bounds;
    AllPresent(t, m, ids);
  }

  lemma NewEdgeBegins(op: Op, t: Table, id: nat)
    requires id < |t|
    ensures Begins(t, NewEdge(op, t, id))
  {
  }

  lemma NoneInOrder(s: seq<Edge>)
    ensures InTheirOrder(s, [])
  {
  }

  lemma BoundInOrder(op: Op, t: Table, m: Minimum, k: nat, ids: set<nat>, s: seq<Edge>, out: Store, p: nat)
    requires Chained(t) && MinimumAt(t, m) && k < |m.bounds| && m.bounds[k] < |t| && p <= |s|
    requires AtBoundary(op, t, m.y, ids, s, out) && m.bounds[k] !in ids
    requires InTheirOrder(s, m.bounds[..k])
    requires var e := NewEdge(op, t, m.bounds[k]);
             (forall i :: 0 <= i < p ==> NotRightOf(s[i], e)) && (p < |s| ==> !NotRightOf(s[p], e))
    ensures InTheirOrder(s[..p] + [NewEdge(op, t, m.bounds[k])] + s[p..], m.bounds[..k] + [m.bounds[k]])
  {
    hide RowHeld, ReadsBelow, InTheirOrder, BottomSorted, Present;
    var b, e := m.bounds[..k], NewEdge(op, t, m.bounds[k]);
    BoundStarts(t, m, k);
    forall i | 0 <= i < |s|
      ensures s[i].id != e.id && (s[i].id in b ==> NotRightOf(s[i], e))
    {
      assert StandsAt(t, m.y, s[i]);
      assert Ids(s)[i] == s[i].id && s[i].id in multiset(Ids(s)) && s[i].id in ids;
      if s[i].id in b {
        var a :| 0 <= a < |b| && b[a] == s[i].id;
        BoundStarts(t, m, a);
        assert InOrder(t[m.bounds[a]].seg, t[m.bounds[k]].seg);
      }
    }
    InsertInOrder(s, b, e, p);
  }

  lemma InsertBusy(op: Op, t: Table, y: real, aet: seq<Edge>, id: nat, k: nat)
    requires Chained(t) && id in Starting(t, y) && k <= |aet|
    ensures Busy(Belows(t, y, aet[..k] + [NewEdge(op, t, id)] + aet[k..])) == Busy(Belows(t, y, aet))
  {
    hide Chained, NewEdge;
    var e := NewEdge(op, t, id);
    var a, x, b := Belows(t, y, aet[..k]), BelowStrand(t, y, e), Belows(t, y, aet[k..]);
    NewEdgeStands(op, t, y, id);
    BelowsInsert(t, y, aet, e, k);
    BusyConcat(a + [x], b);
    BusyConcat(a, [x]);
    BusyConcat(a, b);
    assert Busy([x]) == [];
  }

  lemma BoundarySorted(op: Op, t: Table, y: real, ids: set<nat>, aet: seq<Edge>, out: Store)
    requires AtBoundary(op, t, y, ids, aet, out)
    ensures BottomSorted(aet)
  {
  }

  lemma BoundStarts(t: Table, m: Minimum, k: nat)
    requires MinimumAt(t, m) && k < |m.bounds|
    ensures m.bounds[k] < |t| && m.bounds[k] in Starting(t, m.y) && m.bounds[k] !in m.bounds[..k]
  {
    var b := m.bounds;
    assert b == b[..k] + [b[k]] + b[k + 1..];
    assert multiset(b)[b[k]] == multiset(b[..k])[b[k]] + 1 + multiset(b[k + 1..])[b[k]];
    assert multiset(Starting(t, m.y))[b[k]] <= 1;
  }

  lemma AllPresent(t: Table, m: Minimum, ids: set<nat>)
    requires Chained(t) && MinimumAt(t, m)
    requires forall id :: id in ids <==> id in Arriving(t, m.y) || id in m.bounds[..|m.bounds|]
    ensures ids == Present(t, m.y)
  {
    assert m.bounds[..|m.bounds|] == m.bounds;
    forall id: nat
      ensures id in m.bounds <==> id in Starting(t, m.y)
      ensures id in Starting(t, m.y) ==> id in Present(t, m.y)
    {
      assert id in m.bounds <==> id in multiset(m.bounds);
      assert id < |t| ==> ChainedAt(t, id);
    }
  }

  /** Before the first boundary nothing is active. */
  lemma FirstBoundary(op: Op, t: Table, ys: seq<real>)
    requires Chained(t) && Heights(t, ys) && ys != []
    ensures AtBoundary(op, t, ys[0], Arriving(t, ys[0]), [], [])
  {
    hide Arriving, RowHeld, Chained, Heights, ReadsBelow;
    forall id: nat
      ensures id !in Arriving(t, ys[0])
    {
      ArrivingIsLater(t, ys, id);
    }
    assert Arriving(t, ys[0]) == {};
    assert Belows(t, ys[0], []) == [];
    EmptyRow(op, Segments(t), StartParity(op));
    NothingBelow(t, ys, StartParity(op));
  }

  /** No side lies below the first height. */
  lemma NothingBelow(t: Table, ys: seq<real>, p: Flags)
    requires Heights(t, ys) && ys != []
    ensures ReadsBelow(t, p, ys[0], [])
  {
    forall x, kind
      ensures LeftBelow(t, kind, x, ys[0]) == {}
    {
      forall id: nat | id < |t|
        ensures !CrossedBelow(t, id, ys[0])
      {
        FirstHeight(ys, t[id].seg.bot.y);
      }
    }
    assert p.Toggle(NO_FLAGS) == p;
    forall x, i: nat | SplitsAt([], x, i)
      ensures ParityAfter(p, Belows(t, ys[0], [][..i]))
           == p.Toggle(Flags(MemberBelow(t, Clip, x, ys[0]), MemberBelow(t, Subj, x, ys[0])))
    {
      assert Belows(t, ys[0], [][..i]) == [];
      assert |LeftBelow(t, Clip, x, ys[0])| == 0 && |LeftBelow(t, Subj, x, ys[0])| == 0;
    }
  }

  lemma EmptyRow(op: Op, segs: set<Segment>, p: Flags)
    ensures RowHeld(op, segs, p, [], []) && ParityAfter(p, []) == p
  {
  }

  lemma ArrivingIsLater(t: Table, ys: seq<real>, id: nat)
    requires Chained(t) && Heights(t, ys) && ys != []
    ensures id !in Arriving(t, ys[0])
  {
    if id < |t| {
      assert ChainedAt(t, id);
      FirstHeight(ys, t[id].seg.bot.y);
      if t[id].pred.Some? {
        var j := t[id].pred.value;
        assert ChainedAt(t, j);
        FirstHeight(ys, t[j].seg.bot.y);
      }
    }
  }

  lemma FirstHeight(ys: seq<real>, y: real)
    requires (forall k, l :: 0 <= k < l < |ys| ==> ys[k] < ys[l]) && y in ys
    ensures ys[0] <= y <= ys[|ys| - 1]
  {
    var k :| 0 <= k < |ys| && ys[k] == y;
    assert k == 0 || ys[0] < ys[k];
    assert k == |ys| - 1 || ys[k] < ys[|ys| - 1];
  }

  /** At the last boundary every edge ends, and with it the last open contour. */
  lemma LastBoundary(op: Op, t: Table, ys: seq<real>, yt: real, aet: seq<Edge>, bundled: seq<Edge>,
                     scanned: seq<Edge>, kept: seq<Edge>, before: Store, out: Store)
    requires Chained(t) && Heights(t, ys) && ys != []
    requires AtBoundary(op, t, ys[|ys| - 1], Present(t, ys[|ys| - 1]), aet, before)
    requires Handed(ys[|ys| - 1], yt, aet, bundled, scanned, kept)
    requires RowHeld(op, Segments(t), StartParity(op), Aboves(scanned), out) && Sided(StartParity(op), Aboves(scanned))
    ensures kept == [] && Sound(Segments(t), multiset{}, out)
    ensures Busy(Aboves(scanned)) == []
  {
    hide RowHeld, Sided, Present, Linked, Balanced, ReadsBelow;
    var y := ys[|ys| - 1];
    var ids := Present(t, y);
    assert Informed(t, aet) by { assert forall i :: 0 <= i < |aet| ==> StandsAt(t, y, aet[i]); }
    KeptHolds(t, y, yt, ids, aet, bundled, scanned, kept);
    NoneGoesOn(t, ys);
    assert |Ids(kept)| == |multiset(Ids(kept))| == 0;
    forall i | 0 <= i < |scanned| && !GoesOn(y, scanned[i])
      ensures scanned[i].above == NO_FLAGS
    {
      assert SameButPointers(bundled[i], scanned[i]) && SameButBundles(aet[i], bundled[i]);
    }
    LiveRowHeld(op, Segments(t), StartParity(op), y, scanned, out);
    NothingHeld(op, Segments(t), StartParity(op), out);
  }

  lemma NoneGoesOn(t: Table, ys: seq<real>)
    requires Chained(t) && Heights(t, ys) && ys != []
    ensures GoingOn(t, ys[|ys| - 1], Present(t, ys[|ys| - 1])) == {}
  {
    hide Present, Chained;
    var y := ys[|ys| - 1];
    GoingOnCrosses(t, y);
    forall id: nat
      ensures id !in GoingOn(t, y, Present(t, y))
    {
      if id < |t| {
        FirstHeight(ys, t[id].seg.top.y);
      }
    }
  }

  lemma NothingHeld(op: Op, segs: set<Segment>, p: Flags, out: Store)
    requires RowHeld(op, segs, p, Aboves([]), out)
    ensures Sound(segs, multiset{}, out)
  {
  }

  /** The cursor stands at the first minimum from height `y` on. */
  ghost predicate CursorAt(lmt: seq<Minimum>, m: nat, y: real) {
    && m <= |lmt|
    && (forall n :: 0 <= n < m ==> lmt[n].y < y)
    && (forall n :: m <= n < |lmt| ==> lmt[n].y >= y)
  }

  /** If no bound starts at `y`, the edges that arrive are all there are. */
  lemma NoneStarts(t: Table, lmt: seq<Minimum>, y: real, m: nat)
    requires Minima(t, lmt) && CursorAt(lmt, m, y) && !(m < |lmt| && lmt[m].y == y)
    ensures Arriving(t, y) == Present(t, y)
  {
    forall n | 0 <= n < |lmt|
      ensures lmt[n].y != y
    {
      assert m < n ==> lmt[m].y < lmt[n].y;
    }
    assert forall id: nat :: id !in Starting(t, y);
  }

  /** Every minimum sits at a scanbeam boundary. */
  lemma MinimumIsHeight(t: Table, ys: seq<real>, lmt: seq<Minimum>, m: nat)
    requires Heights(t, ys) && Minima(t, lmt) && m < |lmt|
    ensures lmt[m].y in ys
  {
    assert MinimumAt(t, lmt[m]);
    BoundStarts(t, lmt[m], 0);
  }

  /** The first scanbeam has a minimum, as an edge that starts lowest starts a bound. */
  lemma FirstScanbeam(t: Table, ys: seq<real>, lmt: seq<Minimum>)
    requires Chained(t) && Heights(t, ys) && Minima(t, lmt) && ys != []
    ensures lmt != [] && lmt[0].y == ys[0]
  {
    assert ys[0] in ys;
    var i :| 0 <= i < |t| && (t[i].seg.bot.y == ys[0] || t[i].seg.top.y == ys[0]);
    forall j | 0 <= j < |t|
      ensures ys[0] <= t[j].seg.bot.y
    {
      FirstHeight(ys, t[j].seg.bot.y);
    }
    assert ChainedAt(t, i) && (t[i].pred.Some? ==> ChainedAt(t, t[i].pred.value));
    var m :| 0 <= m < |lmt| && lmt[m].y == t[i].seg.bot.y;
    assert lmt[0].y <= lmt[m].y;
    MinimumIsHeight(t, ys, lmt, 0);
    FirstHeight(ys, lmt[0].y);
  }

  lemma BoundaryNonEmpty(op: Op, t: Table, ys: seq<real>, k: nat, aet: seq<Edge>, out: Store)
    requires Chained(t) && Heights(t, ys) && k < |ys|
    requires AtBoundary(op, t, ys[k], Present(t, ys[k]), aet, out)
    ensures aet != [] && BottomSorted(aet)
  {
    NeverEmpty(t, ys, ys[k]);
    assert |multiset(Ids(aet))| == |Present(t, ys[k])|;
  }

  /** The stages of one boundary, put together. */
  lemma HandOn(yb: real, yt: real, aet: seq<Edge>, bundled: seq<Edge>, scanned: seq<Edge>, kept: seq<Edge>)
    requires BundledAt(yb, aet, bundled)
    requires |scanned| == |bundled| && (forall i :: 0 <= i < |bundled| ==> SameButPointers(bundled[i], scanned[i]))
    requires var live := Live(yb, scanned);
      && |kept| == |live|
      && forall i :: 0 <= i < |live| ==> SameAbove(live[i], kept[i]) && kept[i].xt == TopX(yt, live[i])
    ensures Handed(yb, yt, aet, bundled, scanned, kept)
  {
  }

  lemma InteriorSpans(op: Op, segs: set<Segment>, p: Flags, yb: real, yt: real, aet: seq<Edge>, out: Store)
    requires InteriorPre(op, segs, p, yb, yt, aet, out)
    ensures forall e :: e in aet ==> Spans(segs, yb, yt, e)
  {
  }

  /** The cursor into the local minima table keeps up with the scanbeam table. */
  lemma CursorKeepsUp(t: Table, ys: seq<real>, lmt: seq<Minimum>, k: nat, m: nat)
    requires Heights(t, ys) && Minima(t, lmt) && k + 1 < |ys| && m <= |lmt|
    requires forall n :: 0 <= n < m ==> lmt[n].y <= ys[k]
    requires m < |lmt| ==> lmt[m].y > ys[k]
    ensures CursorAt(lmt, m, ys[k + 1])
  {
    forall n | m <= n < |lmt|
      ensures lmt[n].y >= ys[k + 1]
    {
      assert n == m || lmt[m].y < lmt[n].y;
      MinimumIsHeight(t, ys, lmt, n);
      NextHeight(ys, k, lmt[n].y);
    }
  }

  lemma CursorPassed(t: Table, lmt: seq<Minimum>, m: nat, y: real)
    requires Minima(t, lmt) && CursorAt(lmt, m, y)
    ensures var m' := if m < |lmt| && lmt[m].y == y then m + 1 else m;
            (forall n :: 0 <= n < m' ==> lmt[n].y <= y) && (m' < |lmt| ==> lmt[m'].y > y)
  {
  }

  /** The state of the sweep before scanbeam `k`. */
  ghost predicate Before(op: Op, t: Table, ys: seq<real>, lmt: seq<Minimum>, k: nat, m: nat, aet: seq<Edge>,
                         out: Store) {
    if k < |ys| then
      && AtBoundary(op, t, ys[k], Arriving(t, ys[k]), aet, out) && CursorAt(lmt, m, ys[k])
      && Drawn(op, t, Belows(t, ys[k], aet), out, ys[k])
    else aet == [] && Sound(Segments(t), multiset{}, out) && AllDrawn(op, t, out)
  }

  lemma BeforeFirst(op: Op, t: Table, ys: seq<real>, lmt: seq<Minimum>)
    requires Chained(t) && Heights(t, ys) && Minima(t, lmt)
    ensures Before(op, t, ys, lmt, 0, 0, [], [])
  {
    if ys != [] {
      FirstBoundary(op, t, ys);
      DrawnAtFirst(op, t, ys);
      assert Belows(t, ys[0], []) == [];
      forall n | 0 <= n < |lmt|
        ensures lmt[n].y >= ys[0]
      {
        MinimumIsHeight(t, ys, lmt, n);
        FirstHeight(ys, lmt[n].y);
      }
    } else {
      EmptyRow(op, Segments(t), StartParity(op));
      NothingToDraw(op, t);
    }
  }

  /** Bundling changes nothing that the lower row reads. */
  lemma BundledReadsBelow(t: Table, p: Flags, y: real, aet: seq<Edge>, s: seq<Edge>)
    requires ReadsBelow(t, p, y, aet) && BundledAt(y, aet, s) && Belows(t, y, s) == Belows(t, y, aet)
    ensures ReadsBelow(t, p, y, s)
  {
    hide Linked, Balanced, ParityAfter, MemberBelow, Live;
    assert forall i :: 0 <= i < |aet| ==> SameButBundles(aet[i], s[i]);
    forall x, i: nat | SplitsAt(s, x, i)
      ensures ParityAfter(p, Belows(t, y, s[..i]))
              == p.Toggle(Flags(MemberBelow(t, Clip, x, y), MemberBelow(t, Subj, x, y)))
    {
      assert SplitsAt(aet, x, i);
      SplitPrefix(t, y, s, i);
      SplitPrefix(t, y, aet, i);
    }
  }

  /** The boundary scan classes every edge as the polygons require. */
  lemma BoundaryIsRight(op: Op, t: Table, y: real, aet: seq<Edge>, s: seq<Edge>, out: Store, classes: seq<VertexClass>)
    requires Chained(t) && AtBoundary(op, t, y, Present(t, y), aet, out) && BundledAt(y, aet, s)
    requires Belows(t, y, s) == Belows(t, y, aet) && |classes| == |s|
    requires forall k :: 0 <= k < |s| ==> Classed(op, StartParity(op), Belows(t, y, s), Aboves(s), classes, k)
    ensures ClassesAreRight(op, t, Visit(y, Xs(s), classes))
  {
    hide RowHeld, Linked, Balanced, Classed, ReadsAbove, ReadsBelow, StandsAt, SweepState.Holds, Present,
      ClassesAreRight;
    BundledReads(op, t, y, StartParity(op), aet, s);
    BundledReadsBelow(t, StartParity(op), y, aet, s);
    ScanIsRight(op, t, y, s, classes);
  }

  /** What a scanbeam works on: the row that is scanned at its boundary, the row inside it, and the
      intersection table. */
  datatype Stage = Stage(row: seq<Edge>, kept: seq<Edge>, table: seq<Crossing>)

  /** The row as it is scanned: the edges present, each at its place, in order, bundled, and reading
      membership above and below the boundary. */
  ghost predicate RowAt(op: Op, t: Table, y: real, s: seq<Edge>) {
    && SweepState.Holds(s, Present(t, y)) && (forall i :: 0 <= i < |s| ==> StandsAt(t, y, s[i])) && BottomSorted(s)
    && Marked(Live(y, s)) && Balanced(NO_FLAGS, Live(y, s))
    && ReadsAbove(t, StartParity(op), y, s) && ReadsBelow(t, StartParity(op), y, s)
  }

  /** The row inside a scanbeam, the edges crossed there, in order at the bottom and bundled, and the
      table of its crossings. */
  ghost predicate BeamAt(t: Table, ys: seq<real>, k: nat, s: seq<Edge>, table: seq<Crossing>) {
    && InPlay(t, ys, k, s) && BottomSorted(s) && Bundled(s) && Headed(false, s) && Balanced(NO_FLAGS, s)
    && Complete(Lines(Heads(Group(s))), ys[k + 1] - ys[k], table)
  }

  /** How often a boundary and the scanbeam above it add the vertex `v`. */

  function BoundaryCorners(op: Op, t: Table, y: real, s: seq<Edge>, v: Point): nat {
    ScanCorners(y, s, Arounds(op, StartParity(op), Belows(t, y, s), Aboves(s)), |s|, v)
  }

  function BeamCorners(op: Op, y: real, s: seq<Edge>, table: seq<Crossing>, v: Point): nat {
    TableCorners(op, StartParity(op), y, Heads(Group(s)), table, |table|, v)
  }

  function RunCorners(op: Op, t: Table, ys: seq<real>, stages: seq<Stage>, v: Point): nat
    requires |stages| <= |ys|
  {
    if stages == [] then 0
    else
      var k := |stages| - 1;
      RunCorners(op, t, ys, stages[..k], v) + BoundaryCorners(op, t, ys[k], stages[k].row, v)
      + if k + 1 < |ys| then BeamCorners(op, ys[k], stages[k].kept, stages[k].table, v) else 0
  }

  /** Where boundaries and scanbeams let the two ends of one contour meet. */

  function BoundaryMeets(op: Op, t: Table, y: real, s: seq<Edge>): set<Meeting> {
    ScanMeets(y, s, Arounds(op, StartParity(op), Belows(t, y, s), Aboves(s)), |s|)
  }

  function BeamMeets(op: Op, y: real, s: seq<Edge>, table: seq<Crossing>): set<Meeting> {
    TableMeets(op, StartParity(op), y, Heads(Group(s)), table, |table|)
  }

  function RunMeets(op: Op, t: Table, ys: seq<real>, stages: seq<Stage>): set<Meeting>
    requires |stages| <= |ys|
  {
    if stages == [] then {}
    else
      var k := |stages| - 1;
      RunMeets(op, t, ys, stages[..k]) + BoundaryMeets(op, t, ys[k], stages[k].row)
      + if k + 1 < |ys| then BeamMeets(op, ys[k], stages[k].kept, stages[k].table) else {}
  }

  /** Every vertex comes from an edge of a boundary or a crossing of a scanbeam that calls for it, and
      every closed contour was closed, as a hole or not, by such an edge or crossing. */
  ghost predicate Accounted(op: Op, t: Table, ys: seq<real>, stages: seq<Stage>, out: Store) {
    && |stages| <= |ys|
    && (forall k :: 0 <= k < |stages| ==> RowAt(op, t, ys[k], stages[k].row))
    && (forall k :: 0 <= k < |stages| && k + 1 < |ys| ==> BeamAt(t, ys, k, stages[k].kept, stages[k].table))
    && (forall v :: Vertices(out, v) == RunCorners(op, t, ys, stages, v))
    && Closes([], out, RunMeets(op, t, ys, stages))
  }

  /** What a boundary and the scanbeam above it add. */
  ghost predicate ScanAdds(op: Op, t: Table, y: real, s: seq<Edge>, out: Store, out': Store) {
    && RowAt(op, t, y, s)
    && (forall v :: Vertices(out', v) == Vertices(out, v) + BoundaryCorners(op, t, y, s, v))
    && Closes(out, out', BoundaryMeets(op, t, y, s))
  }

  ghost predicate BeamAdds(op: Op, t: Table, ys: seq<real>, k: nat, s: seq<Edge>, table: seq<Crossing>, out: Store,
                           out': Store) {
    && k < |ys| && BeamAt(t, ys, k, s, table)
    && (forall v :: Vertices(out', v) == Vertices(out, v) + BeamCorners(op, ys[k], s, table, v))
    && Closes(out, out', BeamMeets(op, ys[k], s, table))
  }

  lemma NothingAccounted(op: Op, t: Table, ys: seq<real>)
    ensures Accounted(op, t, ys, [], [])
  {
    ClosesNone([]);
  }

  lemma StageAccounted(op: Op, t: Table, ys: seq<real>, stages: seq<Stage>, stage: Stage, out: Store, scanned: Store,
                       out': Store)
    requires Accounted(op, t, ys, stages, out) && |stages| < |ys|
    requires ScanAdds(op, t, ys[|stages|], stage.row, out, scanned)
    requires if |stages| + 1 < |ys| then BeamAdds(op, t, ys, |stages|, stage.kept, stage.table, scanned, out')
             else out' == scanned
    ensures Accounted(op, t, ys, stages + [stage], out')
  {
    hide RowAt, BeamAt, Vertices, BoundaryCorners, BeamCorners, BoundaryMeets, BeamMeets, Closes;
    var more, n := stages + [stage], |stages|;
    assert more[..n] == stages;
    var meets, here := RunMeets(op, t, ys, stages), BoundaryMeets(op, t, ys[n], stage.row);
    ClosesBoth([], out, scanned, meets, here);
    if n + 1 < |ys| {
      ClosesBoth([], scanned, out', meets + here, BeamMeets(op, ys[n], stage.kept, stage.table));
    } else {
      assert meets + here + {} == meets + here;
    }
    forall k | 0 <= k < |more|
      ensures RowAt(op, t, ys[k], more[k].row)
      ensures k + 1 < |ys| ==> BeamAt(t, ys, k, more[k].kept, more[k].table)
    {
      assert k < n ==> more[k] == stages[k];
    }
  }

  /** The boundaries visited so far. */
  ghost predicate VisitedRightly(op: Op, t: Table, ys: seq<real>, visits: seq<Visit>) {
    && |visits| <= |ys|
    && forall k :: 0 <= k < |visits| ==>
         visits[k].y == ys[k] && visits[k].xs != [] && ClassesAreRight(op, t, visits[k])
  }

  lemma NothingVisited(op: Op, t: Table, ys: seq<real>)
    ensures VisitedRightly(op, t, ys, [])
  {
  }

  lemma NextVisited(op: Op, t: Table, ys: seq<real>, visits: seq<Visit>, visit: Visit)
    requires VisitedRightly(op, t, ys, visits) && |visits| < |ys|
    requires visit.y == ys[|visits|] && visit.xs != [] && ClassesAreRight(op, t, visit)
    ensures VisitedRightly(op, t, ys, visits + [visit])
  {
    hide ClassesAreRight;
  }

  lemma BundledRowAt(op: Op, t: Table, y: real, aet: seq<Edge>, s: seq<Edge>, out: Store)
    requires Chained(t) && AtBoundary(op, t, y, Present(t, y), aet, out) && BundledAt(y, aet, s)
    requires Belows(t, y, s) == Belows(t, y, aet) && Marked(Live(y, s))
    ensures RowAt(op, t, y, s)
  {
    hide RowHeld, Linked, Balanced, ReadsAbove, ReadsBelow, Present, Live, Marked;
    BundledReads(op, t, y, StartParity(op), aet, s);
    BundledReadsBelow(t, StartParity(op), y, aet, s);
    forall i | 0 <= i < |s|
      ensures StandsAt(t, y, s[i]) && s[i].id == aet[i].id && s[i].xb == aet[i].xb
    {
      assert SameButBundles(aet[i], s[i]) && StandsAt(t, y, aet[i]);
    }
    assert Ids(s) == Ids(aet);
  }

  lemma ScanAdded(op: Op, t: Table, y: real, s: seq<Edge>, out: Store, out': Store)
    requires RowAt(op, t, y, s)
    requires var around := Arounds(op, StartParity(op), Belows(t, y, s), Aboves(s));
             && (forall v :: Vertices(out', v) == Vertices(out, v) + ScanCorners(y, s, around, |s|, v))
             && Closes(out, out', ScanMeets(y, s, around, |s|))
    ensures ScanAdds(op, t, y, s, out, out')
  {
  }

  /** The boundary of scanbeam `k`: bundling, the scan, and deletion. */
  method ProcessBoundary(op: Op, t: Table, ys: seq<real>, k: nat, yt: real, p: Flags, aet: seq<Edge>, out: Store)
    returns (kept: seq<Edge>, parity: Flags, out': Store, ghost visit: Visit, ghost row: seq<Edge>)
    requires Chained(t) && Even(t) && Heights(t, ys) && k < |ys| && p == StartParity(op)
    requires AtBoundary(op, t, ys[k], Present(t, ys[k]), aet, out)
    requires Drawn(op, t, Belows(t, ys[k], aet), out, ys[k])
    requires k + 1 < |ys| ==> yt == ys[k + 1]
    ensures parity == p
    ensures k + 1 < |ys| ==>
      && InteriorPre(op, Segments(t), p, ys[k], ys[k + 1], kept, out')
      && SweepState.Holds(kept, GoingOn(t, ys[k], Present(t, ys[k]))) && Informed(t, kept)
      && ParityAfter(p, Aboves(kept)) == p
      && Drawn(op, t, Aboves(kept), out', ys[k])
    ensures k + 1 == |ys| ==> kept == [] && Sound(Segments(t), multiset{}, out') && AllDrawn(op, t, out')
    ensures visit.y == ys[k] && visit.xs != [] && ClassesAreRight(op, t, visit)
    ensures ScanAdds(op, t, ys[k], row, out, out')
  {
    hide AtBoundary, Sound, Chained, Even, Heights, Handed, ScanPre, InteriorPre, BundledAt, Present, RowHeld,
      Sided, SweepState.Holds, Informed, GoingOn, ClassesAreRight, Classed, Drawn, AllDrawn, SameBelow, UpTo,
      Aboves, Belows, RowAt, ScanCorners, Vertices, Tidy, Marked, Closes, ScanMeets, ScanAdds, SameButPointers,
      SameAbove, Live, Retained, ParityAfter;
    BoundaryNonEmpty(op, t, ys, k, aet, out);
    var bundled := CreateBundles(ys[k], aet);
    BundledIsReady(op, t, ys[k], aet, bundled, out);
    var cf, scanned;
    ghost var classes;
    DrawnUpTo(op, t, Belows(t, ys[k], aet), out, ys[k]);
    scanned, parity, cf, out', classes := ScanBoundary(op, ys[k], p, bundled, out, t);
    DrawnAfterScan(op, t, ys[k], Belows(t, ys[k], aet), out, Aboves(scanned), out');
    BoundaryIsRight(op, t, ys[k], aet, bundled, out, classes);
    BundledRowAt(op, t, ys[k], aet, bundled, out);
    ScanAdded(op, t, ys[k], bundled, out, out');
    row := bundled;
    visit := Visit(ys[k], Xs(bundled), classes);
    assert |visit.xs| == |aet|;
    kept := DeleteTerminating(ys[k], yt, scanned);
    HandOn(ys[k], yt, aet, bundled, scanned, kept);
    if k + 1 < |ys| {
      KeptIsReady(op, t, ys, k, aet, bundled, scanned, kept, out, out');
      DrawnBusy(op, t, Aboves(scanned), Aboves(kept), out', ys[k]);
    } else {
      LastBoundary(op, t, ys, yt, aet, bundled, scanned, kept, out, out');
      DrawnBusy(op, t, Aboves(scanned), [], out', ys[k]);
      DrawnAtLast(op, t, ys, out');
    }
  }

  lemma DrawnUpTo(op: Op, t: Table, s: seq<Strand>, out: Store, h: real)
    requires Drawn(op, t, s, out, h)
    ensures UpTo(out, h)
  {
  }

  /** The edges kept are in play inside the scanbeam. */
  lemma KeptInPlay(op: Op, t: Table, ys: seq<real>, k: nat, p: Flags, kept: seq<Edge>, out: Store)
    requires Chained(t) && Heights(t, ys) && k + 1 < |ys|
    requires SweepState.Holds(kept, GoingOn(t, ys[k], Present(t, ys[k]))) && Informed(t, kept)
    requires InteriorPre(op, Segments(t), p, ys[k], ys[k + 1], kept, out)
    ensures InPlay(t, ys, k, kept)
  {
    hide Chained, Heights, Present, GoingOn, CrossedAbove, SweepState.Holds, Informed, RowHeld, Sided, Spans;
    GoingOnCrosses(t, ys[k]);
    assert CrossedIds(t, ys[k]) == GoingOn(t, ys[k], Present(t, ys[k]));
  }

  /** Moving up to the next boundary leaves what is drawn. */
  lemma NextDrawn(op: Op, t: Table, ys: seq<real>, k: nat, kept: seq<Edge>, crossed: seq<Edge>, next: seq<Edge>,
                  out: Store)
    requires Chained(t) && Heights(t, ys) && k + 1 < |ys| && Informed(t, kept)
    requires forall e :: e in kept ==> Spans(Segments(t), ys[k], ys[k + 1], e)
    requires Reordered(kept, crossed) && MovedUp(op, t, ys[k + 1], crossed, next)
    requires Drawn(op, t, Aboves(crossed), out, ys[k + 1])
    ensures Drawn(op, t, Belows(t, ys[k + 1], next), out, ys[k + 1])
  {
    hide Chained, Heights, Spans, Drawn, NextEdge, AboveStrand, BelowStrand, StandsAt, SameButPointers;
    BeamRises(t, ys, k);
    MovedStands(op, t, ys[k], ys[k + 1], kept, crossed, next);
    DrawnButSides(op, t, Aboves(crossed), Belows(t, ys[k + 1], next), out, ys[k + 1]);
  }

  /** The inside of scanbeam `k`, up to the next boundary. */
  method ProcessScanbeam(op: Op, t: Table, ghost ys: seq<real>, ghost k: nat, yb: real, yt: real, aet: seq<Edge>,
                         out: Store)
    returns (next: seq<Edge>, out': Store, ghost it: seq<Crossing>)
    requires Chained(t) && Heights(t, ys) && k + 1 < |ys| && yb == ys[k] && yt == ys[k + 1]
    requires InteriorPre(op, Segments(t), StartParity(op), yb, yt, aet, out)
    requires SweepState.Holds(aet, GoingOn(t, yb, Present(t, yb))) && Informed(t, aet)
    requires ParityAfter(StartParity(op), Aboves(aet)) == StartParity(op)
    requires Drawn(op, t, Aboves(aet), out, yb)
    ensures AtBoundary(op, t, yt, Arriving(t, yt), next, out')
    ensures Drawn(op, t, Belows(t, yt, next), out', yt)
    ensures BeamAdds(op, t, ys, k, aet, it, out, out')
  {
    hide AtBoundary, Chained, Heights, InteriorPre, Present, Arriving, RowHeld, SweepState.Holds, Informed, GoingOn,
      Spans, Reordered, TopSorted, BalancedAt, Drawn, InPlay, Aboves, Belows, BeamAt, TableCorners, Vertices, Complete,
      Closes, TableMeets;
    InteriorSpans(op, Segments(t), StartParity(op), yb, yt, aet, out);
    KeptInPlay(op, t, ys, k, StartParity(op), aet, out);
    var crossed;
    crossed, out', it := ProcessInterior(op, yb, yt, aet, out, t, ys, k);
    BeamInPlace(op, t, ys, k, aet, out, it);
    next := PrepareNext(op, t, yt, crossed);
    NextIsReady(op, t, ys, k, aet, crossed, next, out');
    NextDrawn(op, t, ys, k, aet, crossed, next, out');
  }

  lemma BeamInPlace(op: Op, t: Table, ys: seq<real>, k: nat, s: seq<Edge>, out: Store, it: seq<Crossing>)
    requires InPlay(t, ys, k, s) && InteriorPre(op, Segments(t), StartParity(op), ys[k], ys[k + 1], s, out)
    requires Complete(Lines(Heads(Group(s))), ys[k + 1] - ys[k], it)
    ensures BeamAt(t, ys, k, s, it)
  {
    hide InPlay, Complete, Group, RowHeld, Sided, Bundled, Headed, Balanced;
  }

  /** The whole sweep.  At its end no end of any contour is held: every contour was
      closed by joining its own two ends, which also settled whether it is a hole, and
      all its sides are horizontal or run along sides of the input.  Every boundary was
      visited, and classed as the polygons require, and at every level the sides of the
      contours are just those that the polygons require.  The vertices are, each as often as it
      occurs, those that the occupancies around edges and crossings call for. */
  method RunSweep(op: Op, t: Table, ys: seq<real>, lmt: seq<Minimum>)
    returns (out: Store, ghost visits: seq<Visit>, ghost stages: seq<Stage>)
    requires Chained(t) && Even(t) && Heights(t, ys) && Minima(t, lmt)
    ensures Sound(Segments(t), multiset{}, out) && AllDrawn(op, t, out)
    ensures |visits| == |ys| && VisitedRightly(op, t, ys, visits)
    ensures |stages| == |ys| && Accounted(op, t, ys, stages, out)
  {
    hide AtBoundary, Sound, Chained, Even, Heights, Minima, InteriorPre, Present, Arriving, RowHeld, Sided,
      ClassesAreRight, Drawn, AllDrawn, Aboves, Belows, Busy, SweepState.Holds, Informed, GoingOn, MinimumAt,
      CursorAt, StartParity, Accounted, ScanAdds, BeamAdds, LeftToRight, InTheirOrder,
      VisitedRightly;
    out, visits, stages := [], [], [];
    NothingAccounted(op, t, ys);
    NothingVisited(op, t, ys);
    var aet: seq<Edge> := [];
    var parity := StartParity(op);
    var scanbeam, localMin := 0, 0;
    var yt := 0.0;
    BeforeFirst(op, t, ys, lmt);
    while scanbeam < |ys|
      invariant 0 <= scanbeam <= |ys| && 0 <= localMin <= |lmt|
      invariant parity == StartParity(op)
      invariant Before(op, t, ys, lmt, scanbeam, localMin, aet, out)
      invariant |visits| == |stages| == scanbeam
      invariant VisitedRightly(op, t, ys, visits) && Accounted(op, t, ys, stages, out)
      decreases |ys| - scanbeam
    {
      var k := scanbeam;
      var yb := ys[scanbeam];
      scanbeam := scanbeam + 1;
      if scanbeam < |ys| {
        yt := ys[scanbeam];
      }
      CursorPassed(t, lmt, localMin, yb);
      if localMin < |lmt| && lmt[localMin].y == yb {
        AnyMinimum(t, lmt, localMin);
        ghost var arriving := aet;
        aet := InsertMinimum(op, t, lmt[localMin], aet, out);
        DrawnBusy(op, t, Belows(t, yb, arriving), Belows(t, yb, aet), out, yb);
        localMin := localMin + 1;
      } else {
        NoneStarts(t, lmt, yb, localMin);
      }
      ghost var visit, row;
      ghost var before, it: seq<Crossing> := out, [];
      aet, parity, out, visit, row := ProcessBoundary(op, t, ys, k, yt, parity, aet, out);
      NextVisited(op, t, ys, visits, visit);
      visits := visits + [visit];
      ghost var kept, scanned := aet, out;
      if scanbeam < |ys| {
        CursorKeepsUp(t, ys, lmt, k, localMin);
        aet, out, it := ProcessScanbeam(op, t, ys, k, yb, yt, aet, out);
      }
      StageAccounted(op, t, ys, stages, Stage(row, kept, it), before, scanned, out);
      stages := stages + [Stage(row, kept, it)];
    }
  }

  lemma AnyMinimum(t: Table, lmt: seq<Minimum>, m: nat)
    requires Minima(t, lmt) && m < |lmt|
    ensures MinimumAt(t, lmt[m])
  {
  }
}
