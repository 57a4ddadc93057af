/**
 The inside of a scanbeam: the intersection table is worked off record by record, each
 one exchanging two neighbouring bundles of the active edge table.
 */
module Interior {
  import opened Base
  import opened Edges
  import opened Output
  import opened Strands
  import opened Bundles
  import opened Bundling
  import opened Crossings
  import opened IntersectionTable
  import opened Exchange
  import CrossingStep

  /** The edges that take part in the intersection table. */
  function Selection(s: seq<Edge>): seq<Edge> {
    if s == [] then []
    else (if s[0].stateAbove == BundleHead || s[0].above.Any() then [s[0]] else []) + Selection(s[1..])
  }

  function Lines(h: seq<Edge>): (l: seq<Line>)
    ensures |l| == |h|
  {
    seq(|h|, i requires 0 <= i < |h| => Line(h[i].xb, h[i].xt, h[i].info.seg.dx))
  }

  /** An edge that spans the scanbeam from `yb` to `yt`. */
  ghost predicate Spans(segs: set<Segment>, yb: real, yt: real, e: Edge) {
    var g := e.info.seg;
    && g in segs && g.bot.y <= yb && yt <= g.top.y
    && e.xb == g.XAt(yb) && e.xt == g.XAt(yt)
    && (e.stateAbove == Unbundled ==> e.above.Any())
  }

  /** What the interior needs of the active edge table. */
  ghost predicate InteriorPre(op: Op, segs: set<Segment>, p: Flags, yb: real, yt: real, aet: seq<Edge>, out: Store) {
    && yb < yt
    && RowHeld(op, segs, p, Aboves(aet), out) && Sided(p, Aboves(aet))
    && Bundled(aet) && Headed(false, aet) && Balanced(NO_FLAGS, aet) && BottomSorted(aet)
    && forall e :: e in aet ==> Spans(segs, yb, yt, e)
  }

  lemma HeadsOfGroup(s: seq<Edge>)
    requires s != []
    ensures Heads(Group(s)) ==
      (if s[0].stateAbove == BundleTail && s[1..] != [] then [] else [s[0]]) + Heads(Group(s[1..]))
  {
    var rest := Group(s[1..]);
    if s[0].stateAbove == BundleTail && s[1..] != [] {
      HeadsOfJoined([s[0]], rest);
    } else {
      HeadsOfMore([s[0]], rest);
    }
  }

  lemma HeadsOfJoined(a: seq<Edge>, rest: seq<seq<Edge>>)
    requires rest != [] && forall i :: 0 <= i < |rest| ==> rest[i] != []
    ensures Heads([a + rest[0]] + rest[1..]) == Heads(rest)
  {
    assert Head(a + rest[0]) == Head(rest[0]);
  }

  lemma HeadsOfMore(b: seq<Edge>, rest: seq<seq<Edge>>)
    requires b != [] && forall i :: 0 <= i < |rest| ==> rest[i] != []
    ensures Heads([b] + rest) == [Head(b)] + Heads(rest)
  {
  }

  lemma {:induction false} SelectionIsHeads(s: seq<Edge>)
    requires Bundled(s)
    requires forall e :: e in s && e.stateAbove == Unbundled ==> e.above.Any()
    ensures Selection(s) == Heads(Group(s))
  {
    if s != [] {
      assert BundledPlace(s, 0);
      BundledTail(s);
      SelectionIsHeads(s[1..]);
      HeadsOfGroup(s);
    }
  }

  lemma SortedParts(a: seq<Edge>, b: seq<Edge>)
    requires BottomSorted(a + b)
    ensures BottomSorted(b) && forall e, f :: e in a && f in b ==> e.xb <= f.xb
  {
    assert forall i :: 0 <= i < |a| ==> (a + b)[i] == a[i];
    assert forall i :: 0 <= i < |b| ==> (a + b)[|a| + i] == b[i];
  }

  lemma SortedCons(e: Edge, s: seq<Edge>)
    requires BottomSorted(s) && forall f :: f in s ==> e.xb <= f.xb
    ensures BottomSorted([e] + s)
  {
  }

  /** Heads are in order at the bottom if the row is. */
  lemma {:induction false} HeadsBottomSorted(g: seq<seq<Edge>>)
    requires AreBundles(g) && BottomSorted(Flatten(g))
    ensures BottomSorted(Heads(g))
  {
    if g != [] {
      hide BottomSorted, IsBundle;
      var b, rest := g[0], g[1..];
      SortedParts(b, Flatten(rest));
      HeadsBottomSorted(rest);
      forall f | f in Heads(rest)
        ensures Head(b).xb <= f.xb
      {
        HeadInRow(rest, f);
      }
      SortedCons(Head(b), Heads(rest));
      HeadsOfMore(b, rest);
      assert g == [b] + rest;
    }
  }

  lemma HeadInRow(g: seq<seq<Edge>>, f: Edge)
    requires (forall i :: 0 <= i < |g| ==> g[i] != []) && f in Heads(g)
    ensures f in Flatten(g)
  {
    var i :| 0 <= i < |g| && Heads(g)[i] == f;
    assert f in g[i];
    FlattenMember(g, f);
  }

  /** The head of the bundle toggles as much as its edges do, and is marked as a head unless it
      is alone. */
  ghost predicate UnitBundle(b: seq<Edge>) {
    && b != [] && Head(b).above == UnitParity(NO_FLAGS, b)
    && (Head(b).stateAbove == BundleHead <==> |b| > 1)
  }

  ghost predicate UnitBundles(g: seq<seq<Edge>>) {
    forall i :: 0 <= i < |g| ==> UnitBundle(g[i])
  }

  lemma {:induction false} GroupUnits(owed: Flags, open: bool, s: seq<Edge>)
    requires Bundled(s) && Headed(open, s) && Balanced(owed, s)
    ensures s != [] ==>
      && Head(Group(s)[0]).above == UnitParity(owed, Group(s)[0])
      && (Head(Group(s)[0]).stateAbove == BundleHead <==> open || |Group(s)[0]| > 1)
    ensures forall i :: 0 < i < |Group(s)| ==> UnitBundle(Group(s)[i])
    ensures s == [] ==> Group(s) == []
    decreases |s|
  {
    if s != [] {
      assert BundledPlace(s, 0);
      BundledTail(s);
      var units := owed.Toggle(Unit(s[0].info.kind));
      var rest := Group(s[1..]);
      if s[0].stateAbove == BundleTail {
        GroupUnits(units, true, s[1..]);
        assert ([s[0]] + rest[0])[1..] == rest[0];
        assert Head([s[0]] + rest[0]) == Head(rest[0]);
      } else {
        GroupUnits(NO_FLAGS, false, s[1..]);
        assert UnitParity(owed, [s[0]]) == UnitParity(units, [s[0]][1..]);
        assert rest != [] ==> UnitBundle(rest[0]);
      }
    }
  }

  lemma {:induction false} UnitParityShift(p: Flags, q: Flags, s: seq<Edge>)
    ensures UnitParity(p.Toggle(q), s) == p.Toggle(UnitParity(q, s))
    decreases |s|
  {
    if s != [] {
      var u := Unit(s[0].info.kind);
      assert p.Toggle(q).Toggle(u) == p.Toggle(q.Toggle(u));
      UnitParityShift(p, q.Toggle(u), s[1..]);
    }
  }

  lemma BundleParity(p: Flags, b: seq<Edge>)
    requires IsBundle(b) && UnitBundle(b)
    ensures ParityAfter(p, Aboves(b)) == UnitParity(p, b)
  {
    var tails := b[..|b| - 1];
    assert b == tails + [Head(b)];
    AbovesConcat(tails, [Head(b)]);
    ParityAfterConcat(p, Aboves(tails), Aboves([Head(b)]));
    IdleRow(Aboves(tails));
    IdleParity(p, Aboves(tails));
    UnitParityShift(p, NO_FLAGS, b);
    assert p.Toggle(NO_FLAGS) == p;
    assert ParityAfter(p, Aboves([Head(b)])) == p.Toggle(Head(b).above);
  }

  lemma IdleParity(p: Flags, s: seq<Strand>)
    requires Busy(s) == []
    ensures ParityAfter(p, s) == p
  {
    BusyRow(Int, p, s, []);
  }

  lemma RiseIsSlope(s: Segment, yb: real, yt: real)
    ensures s.XAt(yt) - s.XAt(yb) == s.dx * (yt - yb)
  {
  }

  /** The first i edges stand to the left of x at height y, the others do not. */
  predicate LevelSplit(s: seq<Edge>, x: real, y: real, i: nat) {
    && i <= |s|
    && (forall j :: 0 <= j < i ==> s[j].info.seg.XAt(y) < x)
    && (forall j :: i <= j < |s| ==> s[j].info.seg.XAt(y) >= x)
  }

  /** The edges of each bundle stand at the same place at height y. */
  ghost predicate Abreast(g: seq<seq<Edge>>, y: real) {
    forall i :: 0 <= i < |g| ==> AbreastAt(g[i], y)
  }

  ghost predicate AbreastAt(b: seq<Edge>, y: real) {
    b != [] && forall j :: 0 <= j < |b| ==> b[j].info.seg.XAt(y) == Head(b).info.seg.XAt(y)
  }

  /** Two sides that meet at the bottom and at the top of a scanbeam coincide. */
  lemma MeetTwice(s: Segment, r: Segment, yb: real, yt: real, y: real)
    requires yb < yt && s.XAt(yb) == r.XAt(yb) && s.XAt(yt) == r.XAt(yt)
    ensures s.XAt(y) == r.XAt(y)
  {
    hide Segment.XAt;
    RiseIsSlope(s, yb, yt);
    RiseIsSlope(r, yb, yt);
    RiseIsSlope(s, yb, y);
    RiseIsSlope(r, yb, y);
    SameFactor(s.dx, r.dx, yt - yb);
  }

  lemma SameFactor(d: real, e: real, h: real)
    requires h > 0.0 && d * h == e * h
    ensures d == e
  {
    assert (d - e) * h == d * h - e * h;
  }

  lemma BundlesAbreast(segs: set<Segment>, yb: real, yt: real, g: seq<seq<Edge>>, y: real)
    requires yb < yt && AreBundles(g) && forall e :: e in Flatten(g) ==> Spans(segs, yb, yt, e)
    ensures Abreast(g, y)
  {
    hide Segment.XAt;
    forall i | 0 <= i < |g|
      ensures AbreastAt(g[i], y)
    {
      var b := g[i];
      assert IsBundle(b);
      forall j | 0 <= j < |b|
        ensures b[j].info.seg.XAt(y) == Head(b).info.seg.XAt(y)
      {
        assert b[j] in g[i] && Head(b) in g[i];
        FlattenMember(g, b[j]);
        FlattenMember(g, Head(b));
        MeetTwice(b[j].info.seg, Head(b).info.seg, yb, yt, y);
      }
    }
  }

  /** A split never falls inside a bundle. */
  lemma {:induction false} SplitBalanced(p: Flags, g: seq<seq<Edge>>, x: real, y: real, i: nat)
    requires AreBundles(g) && UnitBundles(g) && Abreast(g, y) && LevelSplit(Flatten(g), x, y, i)
    ensures i <= |Flatten(g)|
    ensures ParityAfter(p, Aboves(Flatten(g)[..i])) == UnitParity(p, Flatten(g)[..i])
    decreases |g|
  {
    hide Segment.XAt;
    var f := Flatten(g);
    if i == 0 {
      assert f[..i] == [];
    } else {
      var b, r := g[0], Flatten(g[1..]);
      assert IsBundle(b) && UnitBundle(b) && AbreastAt(b, y) && f == b + r;
      var u := UnitParity(p, b);
      BundleParity(p, b);
      assert forall j :: 0 <= j < |b| ==> f[j] == b[j];
      assert i >= |b|;
      assert forall j :: 0 <= j < |r| ==> r[j] == f[|b| + j];
      var j := i - |b|;
      assert f[..i] == b + r[..j];
      assert Abreast(g[1..], y) by { assert forall m :: 0 <= m < |g[1..]| ==> g[1..][m] == g[m + 1]; }
      SplitBalanced(u, g[1..], x, y, j);
      AbovesConcat(b, r[..j]);
      ParityAfterConcat(p, Aboves(b), Aboves(r[..j]));
      UnitParityConcat(p, b, r[..j]);
    }
  }

  /** Wherever the row is split at height y, the flags to the left toggle as much as the edges do. */
  ghost predicate BalancedAt(p: Flags, s: seq<Edge>, y: real) {
    forall x, i: nat :: LevelSplit(s, x, y, i) ==> ParityAfter(p, Aboves(s[..i])) == UnitParity(p, s[..i])
  }

  lemma PointOnSegment(s: Segment, yb: real, y: real)
    ensures s.XAt(yb + y) == s.XAt(yb) + s.dx * y
  {
  }

  /** The bundle `b` with its head replaced. */
  function WithHead(b: seq<Edge>, h: Edge): (r: seq<Edge>)
    requires b != []
    ensures r != [] && Head(r) == h
  {
    b[..|b| - 1] + [h]
  }

  lemma {:induction false} SameKinds(p: Flags, s: seq<Edge>, t: seq<Edge>)
    requires |s| == |t| && forall i :: 0 <= i < |s| ==> s[i].info.kind == t[i].info.kind
    ensures UnitParity(p, s) == UnitParity(p, t)
    decreases |s|
  {
    if s != [] {
      SameKinds(p.Toggle(Unit(s[0].info.kind)), s[1..], t[1..]);
    }
  }

  lemma WithHeadIsBundle(b: seq<Edge>, h: Edge)
    requires IsBundle(b) && SameButPointers(Head(b), h)
    ensures IsBundle(WithHead(b, h)) && Reordered(b, WithHead(b, h))
    ensures UnitBundle(b) ==> UnitBundle(WithHead(b, h))
  {
    var r := WithHead(b, h);
    SameKinds(NO_FLAGS, b, r);
    assert forall i :: 0 <= i < |b| - 1 ==> r[i] == b[i];
    assert Ids(r) == Ids(b);
    forall f | f in r
      ensures exists e :: e in b && SameButPointers(e, f)
    {
      if f == h {
        assert Head(b) in b;
      } else {
        assert f in b && SameButPointers(f, f);
      }
    }
  }

  /** Neighbouring bundles change places, taking their tails along. */
  function SwapBundles(row: seq<seq<Edge>>, k: nat, f0: Edge, f1: Edge): (r: seq<seq<Edge>>)
    requires k + 1 < |row| && row[k] != [] && row[k + 1] != []
    ensures |r| == |row|
  {
    row[..k] + [WithHead(row[k + 1], f1)] + [WithHead(row[k], f0)] + row[k + 2..]
  }

  lemma ReorderedParts(a: seq<Edge>, x: seq<Edge>, y: seq<Edge>, b: seq<Edge>, x': seq<Edge>, y': seq<Edge>)
    requires Reordered(x, x') && Reordered(y, y')
    ensures Reordered(a + x + y + b, a + y' + x' + b)
  {
    var s, t := a + x + y + b, a + y' + x' + b;
    assert Ids(s) == Ids(a) + Ids(x) + Ids(y) + Ids(b);
    assert Ids(t) == Ids(a) + Ids(y') + Ids(x') + Ids(b);
    forall f | f in t
      ensures exists e :: e in s && SameButPointers(e, f)
    {
      if f in x' {
        var e :| e in x && SameButPointers(e, f);
        assert e in s;
      } else if f in y' {
        var e :| e in y && SameButPointers(e, f);
        assert e in s;
      } else {
        assert f in s && SameButPointers(f, f);
      }
    }
  }

  lemma FlattenAround(l: seq<seq<Edge>>, x: seq<Edge>, y: seq<Edge>, r: seq<seq<Edge>>)
    ensures Flatten(l + [x] + [y] + r) == Flatten(l) + x + y + Flatten(r)
  {
    FlattenOne(x);
    FlattenOne(y);
    hide Flatten;
    FlattenConcat(l + [x] + [y], r);
    FlattenConcat(l + [x], [y]);
    FlattenConcat(l, [x]);
  }

  lemma FlattenOne(x: seq<Edge>)
    ensures Flatten([x]) == x
  {
    assert [x][1..] == [] && Flatten([]) == [];
  }

  lemma SwapBundlesHeads(row: seq<seq<Edge>>, k: nat, f0: Edge, f1: Edge)
    requires AreBundles(row) && k + 1 < |row|
    requires SameButPointers(Head(row[k]), f0) && SameButPointers(Head(row[k + 1]), f1)
    ensures var row' := SwapBundles(row, k, f0, f1);
            && AreBundles(row') && Heads(row') == Heads(row)[..k] + [f1, f0] + Heads(row)[k + 2..]
            && (UnitBundles(row) ==> UnitBundles(row'))
  {
    hide IsBundle, UnitBundle;
    WithHeadIsBundle(row[k], f0);
    WithHeadIsBundle(row[k + 1], f1);
  }

  lemma CutOut(row: seq<seq<Edge>>, k: nat)
    requires k + 1 < |row|
    ensures row == row[..k] + [row[k]] + [row[k + 1]] + row[k + 2..]
  {
  }

  lemma SwapBundlesReorders(row: seq<seq<Edge>>, k: nat, f0: Edge, f1: Edge)
    requires AreBundles(row) && k + 1 < |row|
    requires SameButPointers(Head(row[k]), f0) && SameButPointers(Head(row[k + 1]), f1)
    ensures Reordered(Flatten(row), Flatten(SwapBundles(row, k, f0, f1)))
  {
    hide IsBundle, Reordered, WithHead, Flatten;
    var b0, b1 := row[k], row[k + 1];
    var c0, c1 := WithHead(b0, f0), WithHead(b1, f1);
    WithHeadIsBundle(b0, f0);
    WithHeadIsBundle(b1, f1);
    var l, r := row[..k], row[k + 2..];
    CutOut(row, k);
    FlattenAround(l, b0, b1, r);
    FlattenAround(l, c1, c0, r);
    ReorderedParts(Flatten(l), b0, b1, Flatten(r), c0, c1);
  }

  /** The state while the intersection table is worked off: `row` are the bundles in
      their current order, `cur` the places where they stood at the bottom. */
  ghost predicate Working(op: Op, segs: set<Segment>, p: Flags, aet: seq<Edge>, it: seq<Crossing>, k: nat,
                          row: seq<seq<Edge>>, cur: seq<nat>, out: Store)
    requires AreBundles(Group(aet))
  {
    var h := Heads(Group(aet));
    && AreBundles(row) && UnitBundles(row) && |row| == |h|
    && Arranged(|h|, it, k, cur)
    && Placed(h, Heads(row), cur)
    && RowHeld(op, segs, p, Aboves(Heads(row)), out) && Sided(p, Aboves(Heads(row)))
    && ParityAfter(p, Aboves(Heads(row))) == ParityAfter(p, Aboves(aet))
    && Reordered(aet, Flatten(row))
  }

  /** The table's point, lifted to its height, lies on both edges. */
  lemma PointOnBoth(segs: set<Segment>, yb: real, yt: real, h: seq<Edge>, it: seq<Crossing>, k: nat)
    requires yb < yt && forall e :: e in h ==> Spans(segs, yb, yt, e)
    requires Beam(Lines(h), yt - yb) && Complete(Lines(h), yt - yb, it) && k < |it|
    ensures it[k].left < |h| && it[k].right < |h|
    ensures var pt := Point(it[k].point.x, it[k].point.y + yb);
            var s0, s1 := h[it[k].left].info.seg, h[it[k].right].info.seg;
            s0 in segs && s1 in segs && s0.Contains(pt) && s1.Contains(pt)
  {
    hide Beam, Complete, Ratio;
    var l := Lines(h);
    RecordIsCross(l, yt - yb, it, k);
    InvertedCross(l, yt - yb, it[k].left, it[k].right);
    CrossOnBoth(l, yt - yb, it[k].left, it[k].right);
    PointOnSegment(h[it[k].left].info.seg, yb, it[k].point.y);
    PointOnSegment(h[it[k].right].info.seg, yb, it[k].point.y);
    assert h[it[k].left] in h && h[it[k].right] in h;
  }

  lemma AbovesSplit(h: seq<Edge>, x: nat)
    requires x + 1 < |h|
    ensures Aboves(h) == Aboves(h[..x]) + [AboveStrand(h[x]), AboveStrand(h[x + 1])] + Aboves(h[x + 2..])
  {
  }

  lemma AbovesExchanged(h: seq<Edge>, x: nat, f0: Edge, f1: Edge)
    requires x + 1 < |h|
    ensures Aboves(h[..x] + [f1, f0] + h[x + 2..])
         == Aboves(h[..x]) + [AboveStrand(f1), AboveStrand(f0)] + Aboves(h[x + 2..])
  {
  }

  /** Crossing two neighbouring heads keeps the row of heads held. */
  lemma CrossHeads(op: Op, segs: set<Segment>, p: Flags, h: seq<Edge>, x: nat, out: Store, pt: Point)
    requires x + 1 < |h|
    requires RowHeld(op, segs, p, Aboves(h), out) && Sided(p, Aboves(h))
    requires h[x].info.seg in segs && h[x + 1].info.seg in segs
    requires h[x].info.seg.Contains(pt) && h[x + 1].info.seg.Contains(pt)
    ensures Valid(out) && CrossingStep.PointersOk(out, h[x]) && CrossingStep.PointersOk(out, h[x + 1])
    ensures var (out', f0, f1) := CrossingStep.Cross(op, out, h[x], h[x + 1], pt);
            var h' := h[..x] + [f1, f0] + h[x + 2..];
            && RowHeld(op, segs, p, Aboves(h'), out') && Sided(p, Aboves(h'))
            && ParityAfter(p, Aboves(h')) == ParityAfter(p, Aboves(h))
  {
    hide RowHeld, Sided, CrossingStep.Cross;
    AbovesSplit(h, x);
    CrossingStep.CrossRow(op, segs, p, Aboves(h[..x]), h[x], h[x + 1], Aboves(h[x + 2..]), out, pt);
    var (out', f0, f1) := CrossingStep.Cross(op, out, h[x], h[x + 1], pt);
    AbovesExchanged(h, x, f0, f1);
  }

  /** Each head in `row` is the one that stood at the place `cur` says. */
  ghost predicate Placed(h: seq<Edge>, row: seq<Edge>, cur: seq<nat>) {
    |row| == |cur| == |h| && forall q :: 0 <= q < |h| ==> cur[q] < |h| && SameButPointers(h[cur[q]], row[q])
  }

  lemma SwapPlaced(h: seq<Edge>, row: seq<Edge>, cur: seq<nat>, x: nat, f0: Edge, f1: Edge)
    requires Placed(h, row, cur) && x + 1 < |h|
    requires SameButPointers(row[x], f0) && SameButPointers(row[x + 1], f1)
    ensures Placed(h, row[..x] + [f1, f0] + row[x + 2..], Swap(cur, x))
  {
  }

  /** One record: its two bundles are neighbours; they are crossed and change places. */
  lemma WorkStep(op: Op, segs: set<Segment>, p: Flags, yb: real, yt: real, aet: seq<Edge>,
                 it: seq<Crossing>, k: nat, row: seq<seq<Edge>>, cur: seq<nat>, out: Store, x: nat)
    requires yb < yt && AreBundles(Group(aet)) && forall e :: e in Heads(Group(aet)) ==> Spans(segs, yb, yt, e)
    requires var l := Lines(Heads(Group(aet))); Beam(l, yt - yb) && Complete(l, yt - yb, it)
    requires Working(op, segs, p, aet, it, k, row, cur, out)
    requires k < |it| && x < |cur| && cur[x] == it[k].left
    ensures x + 1 < |row| && row[x] != [] && row[x + 1] != [] && cur[x + 1] == it[k].right
    ensures var e0, e1 := Head(row[x]), Head(row[x + 1]);
            var pt := Point(it[k].point.x, it[k].point.y + yb);
            && Valid(out) && CrossingStep.PointersOk(out, e0) && CrossingStep.PointersOk(out, e1)
            && var (out', f0, f1) := CrossingStep.Cross(op, out, e0, e1, pt);
               Working(op, segs, p, aet, it, k + 1, SwapBundles(row, x, f0, f1), Swap(cur, x), out')
  {
    hide RowHeld, Sided, Complete, Beam, CrossingStep.Cross, Reordered, IsBundle, UnitBundle, InOrder, Group,
      Aboves, SwapBundles, Swap, Spans;
    var h := Heads(Group(aet));
    var pt := Point(it[k].point.x, it[k].point.y + yb);
    PointOnBoth(segs, yb, yt, h, it, k);
    Adjacent(Lines(h), yt - yb, it, k, cur, x);
    var hr := Heads(row);
    assert hr[x].info == h[cur[x]].info && hr[x + 1].info == h[cur[x + 1]].info;
    CrossHeads(op, segs, p, hr, x, out, pt);
    var (out', f0, f1) := CrossingStep.Cross(op, out, hr[x], hr[x + 1], pt);
    SwapBundlesHeads(row, x, f0, f1);
    SwapBundlesReorders(row, x, f0, f1);
    SwapArranges(Lines(h), yt - yb, it, k, cur, x);
    SwapPlaced(h, hr, cur, x, f0, f1);
    ReorderedTrans(aet, Flatten(row), Flatten(SwapBundles(row, x, f0, f1)));
  }

  lemma InteriorStarts(op: Op, segs: set<Segment>, p: Flags, yb: real, yt: real, aet: seq<Edge>, out: Store,
                       it: seq<Crossing>, cur: seq<nat>)
    requires InteriorPre(op, segs, p, yb, yt, aet, out)
    requires |cur| == |Group(aet)| && forall i :: 0 <= i < |cur| ==> cur[i] == i
    ensures yb < yt && AreBundles(Group(aet)) && Selection(aet) == Heads(Group(aet))
    ensures forall e :: e in aet ==> Spans(segs, yb, yt, e)
    ensures forall e :: e in Heads(Group(aet)) ==> Spans(segs, yb, yt, e)
    ensures Beam(Lines(Heads(Group(aet))), yt - yb)
    ensures Working(op, segs, p, aet, it, 0, Group(aet), cur, out)
  {
    hide RowHeld, Sided, Bundled, Headed, Group, Balanced, BottomSorted, IsBundle, UnitBundle, Beam, Arranged, Placed,
      Reordered, Flatten, Aboves, Selection, ParityAfter, Busy;
    var g := Group(aet);
    var h := Heads(g);
    GroupIsBundles(aet);
    GroupsAreUnits(aet);
    assert forall e :: e in aet && e.stateAbove == Unbundled ==> e.above.Any();
    SelectionIsHeads(aet);
    FlattenGroup(aet);
    HeadsSpeak(g);
    SameBusyRow(op, segs, p, Aboves(aet), Aboves(h), out);
    forall i | 0 <= i < |h|
      ensures h[i] in aet
    {
      HeadInRow(g, h[i]);
    }
    HeadsBottomSorted(g);
    BeamOfSpans(segs, yb, yt, h);
    ArrangedAtFirst(|h|, it, cur);
    PlacedAtFirst(h, cur);
    ReorderedSelf(aet);
  }

  lemma GroupsAreUnits(s: seq<Edge>)
    requires Bundled(s) && Headed(false, s) && Balanced(NO_FLAGS, s)
    ensures UnitBundles(Group(s))
  {
    GroupUnits(NO_FLAGS, false, s);
  }

  lemma PlacedAtFirst(h: seq<Edge>, cur: seq<nat>)
    requires |cur| == |h| && forall i :: 0 <= i < |cur| ==> cur[i] == i
    ensures Placed(h, h, cur)
  {
  }

  lemma ReorderedSelf(s: seq<Edge>)
    ensures Reordered(s, s)
  {
    assert forall e: Edge :: SameButPointers(e, e);
  }

  lemma BeamOfSpans(segs: set<Segment>, yb: real, yt: real, h: seq<Edge>)
    requires yb < yt && BottomSorted(h) && forall i :: 0 <= i < |h| ==> Spans(segs, yb, yt, h[i])
    ensures Beam(Lines(h), yt - yb)
  {
    forall i | 0 <= i < |h|
      ensures h[i].xt - h[i].xb == h[i].info.seg.dx * (yt - yb)
    {
      RiseIsSlope(h[i].info.seg, yb, yt);
    }
  }

  lemma InteriorEnds(op: Op, segs: set<Segment>, p: Flags, yb: real, yt: real, aet: seq<Edge>, it: seq<Crossing>,
                     row: seq<seq<Edge>>, cur: seq<nat>, out: Store)
    requires AreBundles(Group(aet)) && Complete(Lines(Heads(Group(aet))), yt - yb, it)
    requires yb < yt && forall e :: e in aet ==> Spans(segs, yb, yt, e)
    requires Working(op, segs, p, aet, it, |it|, row, cur, out)
    ensures RowHeld(op, segs, p, Aboves(Flatten(row)), out)
    ensures ParityAfter(p, Aboves(Flatten(row))) == ParityAfter(p, Aboves(aet))
    ensures TopSorted(Flatten(row)) && BalancedAt(p, Flatten(row), yt) && Reordered(aet, Flatten(row))
  {
    hide RowHeld, Sided, Group, IsBundle, Complete, InOrder, LevelSplit, Abreast, UnitBundle;
    HeadsSpeak(row);
    SameBusyRow(op, segs, p, Aboves(Flatten(row)), Aboves(Heads(row)), out);
    OrderedAtTop(Lines(Heads(Group(aet))), yt - yb, it, cur);
    forall i, j | 0 <= i < j < |row|
      ensures Head(row[i]).xt <= Head(row[j]).xt
    {
      assert Heads(row)[i] == Head(row[i]) && Heads(row)[j] == Head(row[j]);
    }
    FlattenTopSorted(row);
    SpansReordered(segs, yb, yt, aet, Flatten(row));
    BundlesAbreast(segs, yb, yt, row, yt);
    forall x, i: nat | LevelSplit(Flatten(row), x, yt, i)
      ensures i <= |Flatten(row)| && ParityAfter(p, Aboves(Flatten(row)[..i])) == UnitParity(p, Flatten(row)[..i])
    {
      SplitBalanced(p, row, x, yt, i);
    }
  }

  lemma SpansReordered(segs: set<Segment>, yb: real, yt: real, s: seq<Edge>, r: seq<Edge>)
    requires Reordered(s, r) && forall e :: e in s ==> Spans(segs, yb, yt, e)
    ensures forall f :: f in r ==> Spans(segs, yb, yt, f)
  {
    forall f | f in r
      ensures Spans(segs, yb, yt, f)
    {
      var e :| e in s && SameButPointers(e, f);
    }
  }

  lemma BothPlaced(op: Op, segs: set<Segment>, p: Flags, dy: real, aet: seq<Edge>, it: seq<Crossing>, k: nat,
                   row: seq<seq<Edge>>, cur: seq<nat>, out: Store)
    requires AreBundles(Group(aet)) && Working(op, segs, p, aet, it, k, row, cur, out)
    requires Complete(Lines(Heads(Group(aet))), dy, it) && k < |it|
    ensures it[k].left in cur && it[k].right in cur
    ensures |row| == |cur|
  {
    RecordIsCross(Lines(Heads(Group(aet))), dy, it, k);
  }

  lemma PlacedOnce(op: Op, segs: set<Segment>, p: Flags, aet: seq<Edge>, it: seq<Crossing>, k: nat,
                   row: seq<seq<Edge>>, cur: seq<nat>, out: Store, x: nat, y: nat)
    requires AreBundles(Group(aet)) && Working(op, segs, p, aet, it, k, row, cur, out)
    requires x < |cur| && y < |cur| && cur[x] == cur[y]
    ensures x == y && |row| == |cur|
  {
    if x != y {
      Distinct(|cur|, it, k, cur, x, y);
    }
  }
}
