/**
 What every single contour counts: a closed one 0 or 1 if it is no hole, and 0 or -1 if it is
 one.  Of the contours that are still open, their two ends and the rays of these tell which it
 will be.
 */
module Turning {
  import opened Base
  import opened Output
  import opened Strands
  import opened Tally
  import opened Nesting

  /** A held end, and the line that it will follow. */
  datatype Grip = Grip(end: End, line: Segment)

  function GripOf(o: Option<nat>, side: Side, line: Segment): seq<Grip> {
    if o.None? then [] else [Grip(End(o.value, side), line)]
  }

  /** The ends that a row holds, from left to right. */
  function Grips(op: Op, p: Flags, s: seq<Strand>): seq<Grip>
    decreases |s|
  {
    if s == [] then []
    else GripOf(s[0].out, HeldSide(op, p), s[0].line) + Grips(op, p.Toggle(s[0].flags), s[1..])
  }

  function MarkOf(g: Grip, out: Store): Mark {
    Mark(if g.end.poly < |out| then out[g.end.poly].proxy else 0, g.end.side)
  }

  function Marks(gs: seq<Grip>, out: Store): (m: seq<Mark>)
    ensures |m| == |gs| && forall i :: 0 <= i < |gs| ==> m[i] == MarkOf(gs[i], out)
  {
    seq(|gs|, i requires 0 <= i < |gs| => MarkOf(gs[i], out))
  }

  ghost function GripRay(g: Grip, out: Store, q: Probe): int {
    Ray(g.line, out, Some(g.end.poly), g.end.side, q)
  }

  /** The ray of an end of contour `r`. */
  ghost function RayOf(g: Grip, out: Store, r: nat, q: Probe): int {
    if MarkOf(g, out).rep == r then GripRay(g, out, q) else 0
  }

  ghost function RaysOf(gs: seq<Grip>, out: Store, r: nat, q: Probe): int {
    if gs == [] then 0 else RayOf(gs[0], out, r, q) + RaysOf(gs[1..], out, r, q)
  }

  /** What contour `r` counts, together with the rays of its ends. */
  ghost function CountWith(gs: seq<Grip>, out: Store, r: nat, q: Probe): int
    requires r < |out|
  {
    ContourHits(out[r], q) + RaysOf(gs, out, r, q)
  }

  ghost function AllCounts(gs: seq<Grip>, out: Store, q: Probe): (w: seq<int>)
    ensures |w| == |out| && forall r :: 0 <= r < |out| ==> w[r] == CountWith(gs, out, r, q)
  {
    seq(|out|, r requires 0 <= r < |out| => CountWith(gs, out, r, q))
  }

  /** What a closed contour may count. */
  predicate NodeCounts(c: Poly, n: int) {
    c.closed ==> Counts(if c.hole == Some(true) then Right else Left, n)
  }

  ghost predicate ClosedCount(gs: seq<Grip>, out: Store, q: Probe) {
    forall r :: 0 <= r < |out| ==> NodeCounts(out[r], CountWith(gs, out, r, q))
  }

  ghost predicate Planar(gs: seq<Grip>, out: Store, q: Probe) {
    Nested(Marks(gs, out), AllCounts(gs, out, q)) && ClosedCount(gs, out, q)
  }

  lemma {:induction false} RaysOfConcat(a: seq<Grip>, b: seq<Grip>, out: Store, r: nat, q: Probe)
    ensures RaysOf(a + b, out, r, q) == RaysOf(a, out, r, q) + RaysOf(b, out, r, q)
    decreases |a|
  {
    hide RayOf;
    if a == [] {
      assert a + b == b;
    } else {
      assert (a + b)[1..] == a[1..] + b;
      RaysOfConcat(a[1..], b, out, r, q);
    }
  }

  lemma RaysOfAround(a: seq<Grip>, g: Grip, b: seq<Grip>, out: Store, r: nat, q: Probe)
    ensures RaysOf(a + [g] + b, out, r, q) == RaysOf(a, out, r, q) + RayOf(g, out, r, q) + RaysOf(b, out, r, q)
  {
    hide RayOf;
    RaysOfConcat(a + [g], b, out, r, q);
    RaysOfConcat(a, [g], out, r, q);
    assert [g][1..] == [];
  }

  lemma RaysOfBoth(a: seq<Grip>, g: Grip, h: Grip, b: seq<Grip>, out: Store, r: nat, q: Probe)
    ensures RaysOf(a + [g, h] + b, out, r, q)
         == RaysOf(a + b, out, r, q) + RayOf(g, out, r, q) + RayOf(h, out, r, q)
  {
    hide RayOf, RaysOf;
    assert a + [g, h] + b == a + [g] + ([h] + b);
    RaysOfAround(a, g, [h] + b, out, r, q);
    RaysOfAround([], h, b, out, r, q);
    assert [] + [h] + b == [h] + b;
    RaysOfConcat(a, b, out, r, q);
    RaysOfNone(out, r, q);
  }

  lemma RaysOfNone(out: Store, r: nat, q: Probe)
    ensures RaysOf([], out, r, q) == 0
  {
  }

  /** The end stays where it is, and its contour is called r' if it was called r. */
  ghost predicate Stays(g: Grip, out: Store, out': Store) {
    && Valid(out) && Valid(out') && g.end.poly < |out| <= |out'|
    && EndVertex(out', g.end) == EndVertex(out, g.end)
  }

  ghost predicate AllStay(gs: seq<Grip>, out: Store, out': Store) {
    forall g :: g in gs ==> Stays(g, out, out')
  }

  ghost predicate Held(gs: seq<Grip>, held: multiset<End>) {
    forall g :: g in gs ==> g.end in held
  }

  lemma HeldStay(gs: seq<Grip>, rest: multiset<End>, held: multiset<End>, out: Store, out': Store)
    requires Owned(held, out) && rest <= held && Held(gs, rest)
    requires Valid(out) && Valid(out') && |out| <= |out'| && Undisturbed(rest, out, out')
    ensures AllStay(gs, out, out')
  {
    hide EndVertex;
    forall g | g in gs
      ensures Stays(g, out, out')
    {
      OwnsEach(held, out, g.end);
    }
  }

  lemma StaysRay(g: Grip, out: Store, out': Store, q: Probe)
    requires Stays(g, out, out')
    ensures GripRay(g, out', q) == GripRay(g, out, q)
  {
  }

  /** No node changes its representative. */
  ghost predicate SameNodes(out: Store, out': Store) {
    && |out| <= |out'|
    && forall r :: 0 <= r < |out| ==> out'[r].proxy == out[r].proxy
  }

  lemma {:induction false} RaysOfFrame(gs: seq<Grip>, out: Store, out': Store, r: nat, q: Probe)
    requires AllStay(gs, out, out') && SameNodes(out, out')
    ensures RaysOf(gs, out', r, q) == RaysOf(gs, out, r, q)
  {
    hide GripRay, Stays;
    if gs != [] {
      assert Stays(gs[0], out, out');
      StaysInStore(gs[0], out, out');
      StaysRay(gs[0], out, out', q);
      RaysOfFrame(gs[1..], out, out', r, q);
    }
  }

  lemma StaysInStore(g: Grip, out: Store, out': Store)
    requires Stays(g, out, out')
    ensures g.end.poly < |out| <= |out'|
  {
  }

  lemma SameMarks(gs: seq<Grip>, out: Store, out': Store)
    requires AllStay(gs, out, out') && SameNodes(out, out')
    ensures Marks(gs, out') == Marks(gs, out)
  {
    hide Stays;
    forall i | 0 <= i < |gs|
      ensures MarkOf(gs[i], out') == MarkOf(gs[i], out)
    {
      assert Stays(gs[i], out, out');
      StaysInStore(gs[i], out, out');
    }
  }

  /** What one contour counts after an edit. */

  lemma AddContour(s: Store, e: End, pt: Point, r: nat, q: Probe)
    requires Valid(s) && e.poly < |s| && Open(s, Rep(s, e)) && r < |s|
    ensures r < |Add(s, e, pt)|
    ensures ContourHits(Add(s, e, pt)[r], q)
         == ContourHits(s[r], q) + if r == Rep(s, e) then Stroke(e.side, EndVertex(s, e), pt, q) else 0
  {
    hide Hit, PathHits;
    var v := s[Rep(s, e)].verts;
    PathOfOne(pt, q);
    PathConcat([pt], v, q);
    PathConcat(v, [pt], q);
  }

  lemma JoinContour(s: Store, p: nat, p': nat, side: Side, r: nat, q: Probe)
    requires Valid(s) && p < |s| && p' < |s| && Open(s, s[p].proxy) && Open(s, s[p'].proxy) && r < |s|
    ensures r < |Merge(s, p, p', side)|
    ensures var stroke := Stroke(side, EndVertex(s, End(p, side)), EndVertex(s, End(p', Other(side))), q);
            ContourHits(Merge(s, p, p', side)[r], q) ==
            if r == s[p'].proxy then
              ContourHits(s[r], q) + stroke + if s[p].proxy == r then 0 else ContourHits(s[s[p].proxy], q)
            else if r == s[p].proxy then 0
            else ContourHits(s[r], q)
  {
    hide Hit, PathHits;
    var v, w := s[s[p].proxy].verts, s[s[p'].proxy].verts;
    PathConcat(v, w, q);
    PathConcat(w, v, q);
    NoPath(q);
  }

  lemma NoPath(q: Probe)
    ensures PathHits([], q) == 0
  {
  }

  lemma MarksConcat(a: seq<Grip>, b: seq<Grip>, out: Store)
    ensures Marks(a + b, out) == Marks(a, out) + Marks(b, out)
  {
  }

  lemma MarksAround(a: seq<Grip>, g: Grip, b: seq<Grip>, out: Store)
    ensures Marks(a + [g] + b, out) == Marks(a, out) + [MarkOf(g, out)] + Marks(b, out)
  {
  }

  lemma MarksBoth(a: seq<Grip>, g: Grip, h: Grip, b: seq<Grip>, out: Store)
    requires h.end.side == Other(g.end.side)
    ensures Marks(a + [g, h] + b, out)
         == With(Marks(a, out), MarkOf(g, out).rep, MarkOf(h, out).rep, g.end.side, Marks(b, out))
  {
  }

  lemma SamePlanar(gs: seq<Grip>, out: Store, gs': seq<Grip>, out': Store, q: Probe)
    requires Planar(gs, out, q) && Marks(gs', out') == Marks(gs, out) && |out'| == |out|
    requires forall r :: 0 <= r < |out| ==>
      && out'[r].closed == out[r].closed && out'[r].hole == out[r].hole
      && CountWith(gs', out', r, q) == CountWith(gs, out, r, q)
    ensures Planar(gs', out', q)
  {
    hide Nested, CountWith, Counts;
    assert AllCounts(gs', out', q) == AllCounts(gs, out, q);
  }

  /** The edits.  An end moves on to `pt`. */
  lemma EndMoves(rest: multiset<End>, a: seq<Grip>, g: Grip, b: seq<Grip>, out: Store, pt: Point, line: Segment,
                 q: Probe)
    requires Owned(rest + multiset{g.end}, out) && Held(a, rest) && Held(b, rest)
    requires g.end.poly < |out| && Valid(out) && Below(q, pt.y)
    requires Stroke(g.end.side, EndVertex(out, g.end), pt, q) == GripRay(g, out, q)
    requires Planar(a + [g] + b, out, q)
    ensures Planar(a + [Grip(g.end, line)] + b, Add(out, g.end, pt), q)
  {
    hide Owned, Planar, Stroke, ContourHits, EndVertex, Valid, Add, Held, AllStay, Undisturbed;
    var e, held := g.end, rest + multiset{g.end};
    assert e in held && held - multiset{e} == rest;
    OwnsEach(held, out, e);
    var out', g' := Add(out, e, pt), Grip(e, line);
    AddKeepsOwned(held, out, e, pt);
    AddKeepsOthers(out, e, pt);
    HeldStay(a, rest, held, out, out');
    HeldStay(b, rest, held, out, out');
    SameMarks(a, out, out');
    SameMarks(b, out, out');
    MarksAround(a, g, b, out);
    MarksAround(a, g', b, out');
    FreshGrip(g', out', q);
    forall r | 0 <= r < |out|
      ensures CountWith(a + [g'] + b, out', r, q) == CountWith(a + [g] + b, out, r, q)
    {
      AddContour(out, e, pt, r, q);
      RaysOfFrame(a, out, out', r, q);
      RaysOfFrame(b, out, out', r, q);
      RaysOfAround(a, g, b, out, r, q);
      RaysOfAround(a, g', b, out', r, q);
    }
    SamePlanar(a + [g] + b, out, a + [g'] + b, out', q);
  }

  /** A vertex of the boundary's height has no ray below it. */
  lemma FreshGrip(g: Grip, out: Store, q: Probe)
    requires Valid(out) && g.end.poly < |out| && Below(q, EndVertex(out, g.end).y)
    ensures GripRay(g, out, q) == 0
  {
  }

  /** An end stays where it is, and goes on along another line. */
  lemma EndTurns(a: seq<Grip>, g: Grip, b: seq<Grip>, out: Store, line: Segment, q: Probe)
    requires GripRay(Grip(g.end, line), out, q) == GripRay(g, out, q)
    requires Planar(a + [g] + b, out, q)
    ensures Planar(a + [Grip(g.end, line)] + b, out, q)
  {
    hide Planar, GripRay, ContourHits;
    var g' := Grip(g.end, line);
    MarksAround(a, g, b, out);
    MarksAround(a, g', b, out);
    forall r | 0 <= r < |out|
      ensures CountWith(a + [g'] + b, out, r, q) == CountWith(a + [g] + b, out, r, q)
    {
      RaysOfAround(a, g, b, out, r, q);
      RaysOfAround(a, g', b, out, r, q);
    }
    SamePlanar(a + [g] + b, out, a + [g'] + b, out, q);
  }

  /** A contour starts, and both its ends are held side by side. */
  lemma EndsStart(held: multiset<End>, a: seq<Grip>, b: seq<Grip>, out: Store, pt: Point, side: Side, line: Segment,
                  line': Segment, q: Probe)
    requires Owned(held, out) && Held(a, held) && Held(b, held) && Below(q, pt.y)
    requires Planar(a + b, out, q)
    ensures var n := |out|;
            Planar(a + [Grip(End(n, side), line), Grip(End(n, Other(side)), line')] + b, AddLocalMin(out, pt), q)
  {
    var out', g, h := AddLocalMin(out, pt), Grip(End(|out|, side), line), Grip(End(|out|, Other(side)), line');
    AddLocalMinKeepsOwned(held, out, pt);
    ClosedHasHole(held, out);
    AddLocalMinValid(out, pt);
    hide Owned, EndVertex, Valid, Held, AllStay, Undisturbed, Nested, AllCounts, ClosedCount;
    HeldStay(a, held, held, out, out');
    HeldStay(b, held, held, out, out');
    StayTogether(a, b, out, out');
    SameMarks(a, out, out');
    SameMarks(b, out, out');
    MarksConcat(a, b, out);
    MarksBoth(a, g, h, b, out');
    OpenedNested(Marks(a, out), AllCounts(a + b, out, q), side, Marks(b, out));
    StartCounts(a, g, h, b, out, pt, q);
    StartClosedCount(a + b, out, pt, a + [g, h] + b, q);
  }

  lemma StartCounts(a: seq<Grip>, g: Grip, h: Grip, b: seq<Grip>, out: Store, pt: Point, q: Probe)
    requires Valid(out) && Valid(AddLocalMin(out, pt)) && AllStay(a + b, out, AddLocalMin(out, pt)) && Below(q, pt.y)
    requires g.end.poly == h.end.poly == |out|
    ensures AllCounts(a + [g, h] + b, AddLocalMin(out, pt), q) == AllCounts(a + b, out, q) + [0]
  {
    var out' := AddLocalMin(out, pt);
    var w, w' := AllCounts(a + b, out, q), AllCounts(a + [g, h] + b, out', q);
    FreshGrip(g, out', q);
    FreshGrip(h, out', q);
    hide Valid, AllStay, ContourHits, GripRay;
    forall r | 0 <= r < |out'|
      ensures w'[r] == (w + [0])[r]
    {
      RaysOfBoth(a, g, h, b, out', r, q);
      if r < |out| {
        RaysOfFrame(a + b, out, out', r, q);
      } else {
        SinglePoint(pt, q);
        RaysOfStranger(a + b, out, out', q);
      }
    }
  }

  lemma StayTogether(a: seq<Grip>, b: seq<Grip>, out: Store, out': Store)
    requires AllStay(a, out, out') && AllStay(b, out, out')
    ensures AllStay(a + b, out, out')
  {
    hide Stays;
  }

  lemma SinglePoint(pt: Point, q: Probe)
    ensures forall n: nat :: ContourHits(Poly(n, true, None, [pt], false), q) == 0
  {
  }

  /** Ends of older contours are not ends of the newest. */
  lemma {:induction false} RaysOfStranger(gs: seq<Grip>, out: Store, out': Store, q: Probe)
    requires AllStay(gs, out, out') && SameNodes(out, out') && Valid(out)
    ensures RaysOf(gs, out', |out|, q) == 0
  {
    hide GripRay, Stays;
    if gs != [] {
      assert Stays(gs[0], out, out');
      StaysInStore(gs[0], out, out');
      RaysOfStranger(gs[1..], out, out', q);
    }
  }

  lemma StartClosedCount(gs: seq<Grip>, out: Store, pt: Point, gs': seq<Grip>, q: Probe)
    requires ClosedCount(gs, out, q)
    requires AllCounts(gs', AddLocalMin(out, pt), q) == AllCounts(gs, out, q) + [0]
    ensures ClosedCount(gs', AddLocalMin(out, pt), q)
  {
    hide CountWith, Counts;
    var out' := AddLocalMin(out, pt);
    forall r | 0 <= r < |out'|
      ensures NodeCounts(out'[r], CountWith(gs', out', r, q))
    {
      if r < |out| {
        assert NodeCounts(out[r], CountWith(gs, out, r, q));
        assert AllCounts(gs', out', q)[r] == AllCounts(gs, out, q)[r];
      }
    }
  }

  /** Where two ends meet, all others stay. */
  lemma OthersStay(rest: multiset<End>, a: seq<Grip>, g: Grip, h: Grip, b: seq<Grip>, out: Store)
    requires Owned(rest + multiset{g.end, h.end}, out) && Held(a, rest) && Held(b, rest)
    requires g.end.poly < |out| && h.end.poly < |out| && Valid(out) && h.end.side == Other(g.end.side)
    ensures AllStay(a + b, out, Merge(out, g.end.poly, h.end.poly, g.end.side))
    ensures Open(out, Rep(out, g.end)) && Open(out, Rep(out, h.end))
  {
    var out' := Merge(out, g.end.poly, h.end.poly, g.end.side);
    var held := rest + multiset{g.end, h.end};
    MergeNodes(out, g.end.poly, h.end.poly, g.end.side);
    MergeKeepsOwned(rest, out, g.end.poly, h.end.poly, g.end.side);
    OwnsEach(held, out, g.end);
    OwnsEach(held, out, h.end);
    hide Owned, Valid, Held, AllStay, Undisturbed, Merge;
    HeldStay(a, rest, held, out, out');
    HeldStay(b, rest, held, out, out');
    StayTogether(a, b, out, out');
  }

  /** The two ends of one contour meet, and it is closed. */
  lemma EndsClose(rest: multiset<End>, a: seq<Grip>, g: Grip, h: Grip, b: seq<Grip>, out: Store, q: Probe)
    requires Owned(rest + multiset{g.end, h.end}, out) && Held(a, rest) && Held(b, rest)
    requires g.end.poly < |out| && h.end.poly < |out| && Valid(out) && h.end.side == Other(g.end.side)
    requires Rep(out, g.end) == Rep(out, h.end)
    requires Stroke(g.end.side, EndVertex(out, g.end), EndVertex(out, h.end), q)
             == GripRay(g, out, q) + GripRay(h, out, q)
    requires Planar(a + [g, h] + b, out, q)
    ensures Planar(a + b, Merge(out, g.end.poly, h.end.poly, g.end.side), q)
  {
    var out' := Merge(out, g.end.poly, h.end.poly, g.end.side);
    OthersStay(rest, a, g, h, b, out);
    MergeNodes(out, g.end.poly, h.end.poly, g.end.side);
    hide Owned, EndVertex, Valid, Held, AllStay, Nested, AllCounts, Merge, Stroke, GripRay, Counts, ContourHits,
      CountWith;
    SameMarks(a + b, out, out');
    MarksConcat(a, b, out);
    MarksBoth(a, g, h, b, out);
    ClosedNested(Marks(a, out), AllCounts(a + [g, h] + b, out, q), Rep(out, g.end), g.end.side, Marks(b, out));
    CloseCounts(a, g, h, b, out, q);
    forall r | 0 <= r < |out'|
      ensures NodeCounts(out'[r], CountWith(a + b, out', r, q))
    {
      assert NodeCounts(out[r], CountWith(a + [g, h] + b, out, r, q));
      assert AllCounts(a + b, out', q)[r] == AllCounts(a + [g, h] + b, out, q)[r];
    }
  }

  lemma CloseCounts(a: seq<Grip>, g: Grip, h: Grip, b: seq<Grip>, out: Store, q: Probe)
    requires Valid(out) && g.end.poly < |out| && h.end.poly < |out| && h.end.side == Other(g.end.side)
    requires Open(out, Rep(out, g.end)) && Rep(out, g.end) == Rep(out, h.end)
    requires Stroke(g.end.side, EndVertex(out, g.end), EndVertex(out, h.end), q)
             == GripRay(g, out, q) + GripRay(h, out, q)
    requires AllStay(a + b, out, Merge(out, g.end.poly, h.end.poly, g.end.side))
    ensures AllCounts(a + b, Merge(out, g.end.poly, h.end.poly, g.end.side), q) == AllCounts(a + [g, h] + b, out, q)
  {
    var out' := Merge(out, g.end.poly, h.end.poly, g.end.side);
    MergeNodes(out, g.end.poly, h.end.poly, g.end.side);
    hide EndVertex, Valid, AllStay, Merge, Stroke, GripRay, ContourHits;
    forall r | 0 <= r < |out|
      ensures CountWith(a + b, out', r, q) == CountWith(a + [g, h] + b, out, r, q)
    {
      JoinContour(out, g.end.poly, h.end.poly, g.end.side, r, q);
      RaysOfBoth(a, g, h, b, out, r, q);
      RaysOfFrame(a + b, out, out', r, q);
    }
  }

  /** Two contours become one: what their ends count goes over. */
  lemma {:induction false} RaysOfJoined(gs: seq<Grip>, out: Store, p: nat, p': nat, side: Side, r: nat, q: Probe)
    requires Valid(out) && p < |out| && p' < |out| && out[p].proxy != out[p'].proxy && r != out[p].proxy
    requires AllStay(gs, out, Merge(out, p, p', side))
    ensures RaysOf(gs, Merge(out, p, p', side), r, q)
         == RaysOf(gs, out, r, q) + if r == out[p'].proxy then RaysOf(gs, out, out[p].proxy, q) else 0
  {
    MergeNodes(out, p, p', side);
    hide GripRay, Stays, Merge, Valid;
    var out' := Merge(out, p, p', side);
    if gs != [] {
      assert Stays(gs[0], out, out');
      StaysInStore(gs[0], out, out');
      StaysRay(gs[0], out, out', q);
      RaysOfJoined(gs[1..], out, p, p', side, r, q);
    }
  }

  lemma RenamedMarks(gs: seq<Grip>, out: Store, p: nat, p': nat, side: Side)
    requires Valid(out) && p < |out| && p' < |out| && AllStay(gs, out, Merge(out, p, p', side))
    ensures Marks(gs, Merge(out, p, p', side)) == Renamed(Marks(gs, out), out[p].proxy, out[p'].proxy)
  {
    MergeNodes(out, p, p', side);
    hide Stays, Merge, Valid;
    forall i | 0 <= i < |gs|
      ensures gs[i].end.poly < |out|
    {
      assert Stays(gs[i], out, Merge(out, p, p', side));
      StaysInStore(gs[i], out, Merge(out, p, p', side));
    }
  }

  /** The ends of two contours meet, and these become one. */
  lemma EndsJoin(rest: multiset<End>, a: seq<Grip>, g: Grip, h: Grip, b: seq<Grip>, out: Store, q: Probe)
    requires Owned(rest + multiset{g.end, h.end}, out) && Held(a, rest) && Held(b, rest)
    requires g.end.poly < |out| && h.end.poly < |out| && Valid(out) && h.end.side == Other(g.end.side)
    requires Rep(out, g.end) != Rep(out, h.end)
    requires Stroke(g.end.side, EndVertex(out, g.end), EndVertex(out, h.end), q)
             == GripRay(g, out, q) + GripRay(h, out, q)
    requires Planar(a + [g, h] + b, out, q)
    ensures Planar(a + b, Merge(out, g.end.poly, h.end.poly, g.end.side), q)
  {
    var p, p', side := g.end.poly, h.end.poly, g.end.side;
    var out' := Merge(out, p, p', side);
    OthersStay(rest, a, g, h, b, out);
    hide Owned, EndVertex, Valid, Held, AllStay, Nested, AllCounts, Merge, Stroke, GripRay, Counts, ContourHits,
      CountWith, Added;
    RenamedMarks(a + b, out, p, p', side);
    MarksConcat(a, b, out);
    MarksBoth(a, g, h, b, out);
    JoinCountsAdd(a, g, h, b, out, q);
    JoinedNested(Marks(a, out), AllCounts(a + [g, h] + b, out, q), Rep(out, g.end), Rep(out, h.end), side,
      Marks(b, out), AllCounts(a + b, out', q));
    JoinClosedCount(a + [g, h] + b, a + b, out, p, p', side, q);
  }

  lemma JoinCountsAdd(a: seq<Grip>, g: Grip, h: Grip, b: seq<Grip>, out: Store, q: Probe)
    requires Valid(out) && g.end.poly < |out| && h.end.poly < |out| && h.end.side == Other(g.end.side)
    requires Open(out, Rep(out, g.end)) && Open(out, Rep(out, h.end)) && Rep(out, g.end) != Rep(out, h.end)
    requires Stroke(g.end.side, EndVertex(out, g.end), EndVertex(out, h.end), q)
             == GripRay(g, out, q) + GripRay(h, out, q)
    requires AllStay(a + b, out, Merge(out, g.end.poly, h.end.poly, g.end.side))
    ensures Added(AllCounts(a + [g, h] + b, out, q), Rep(out, g.end), Rep(out, h.end),
                  AllCounts(a + b, Merge(out, g.end.poly, h.end.poly, g.end.side), q))
  {
    hide EndVertex, AllStay, Merge, Stroke, GripRay, ContourHits, AllCounts;
    var p, p', side := g.end.poly, h.end.poly, g.end.side;
    var rp, rp' := Rep(out, g.end), Rep(out, h.end);
    var out' := Merge(out, p, p', side);
    JoinCountsEach(a, g, h, b, out, rp', q);
    RaysOfBoth(a, g, h, b, out, rp, q);
    forall r | 0 <= r < |out| && r != rp && r != rp'
      ensures CountWith(a + b, out', r, q) == CountWith(a + [g, h] + b, out, r, q)
    {
      JoinCountsEach(a, g, h, b, out, r, q);
    }
  }

  lemma JoinCountsEach(a: seq<Grip>, g: Grip, h: Grip, b: seq<Grip>, out: Store, r: nat, q: Probe)
    requires Valid(out) && g.end.poly < |out| && h.end.poly < |out| && h.end.side == Other(g.end.side) && r < |out|
    requires Open(out, Rep(out, g.end)) && Open(out, Rep(out, h.end)) && Rep(out, g.end) != Rep(out, h.end)
    requires Stroke(g.end.side, EndVertex(out, g.end), EndVertex(out, h.end), q)
             == GripRay(g, out, q) + GripRay(h, out, q)
    requires AllStay(a + b, out, Merge(out, g.end.poly, h.end.poly, g.end.side))
    requires r != Rep(out, g.end)
    ensures CountWith(a + b, Merge(out, g.end.poly, h.end.poly, g.end.side), r, q)
         == CountWith(a + [g, h] + b, out, r, q) +
            if r == Rep(out, h.end) then CountWith(a + [g, h] + b, out, Rep(out, g.end), q) else 0
  {
    var p, p', side := g.end.poly, h.end.poly, g.end.side;
    JoinContour(out, p, p', side, r, q);
    hide EndVertex, AllStay, Merge, Stroke, GripRay, ContourHits;
    RaysOfBoth(a, g, h, b, out, r, q);
    RaysOfBoth(a, g, h, b, out, Rep(out, g.end), q);
    RaysOfJoined(a + b, out, p, p', side, r, q);
  }

  lemma JoinClosedCount(gs: seq<Grip>, gs': seq<Grip>, out: Store, p: nat, p': nat, side: Side, q: Probe)
    requires Valid(out) && p < |out| && p' < |out| && Open(out, out[p].proxy) && Open(out, out[p'].proxy)
    requires out[p].proxy != out[p'].proxy && ClosedCount(gs, out, q)
    requires Added(AllCounts(gs, out, q), out[p].proxy, out[p'].proxy, AllCounts(gs', Merge(out, p, p', side), q))
    ensures ClosedCount(gs', Merge(out, p, p', side), q)
  {
    MergeNodes(out, p, p', side);
    hide Valid, Merge, CountWith, Counts;
    var out' := Merge(out, p, p', side);
    forall r | 0 <= r < |out'|
      ensures NodeCounts(out'[r], CountWith(gs', out', r, q))
    {
      assert NodeCounts(out[r], CountWith(gs, out, r, q));
      if r != out[p].proxy && r != out[p'].proxy {
        assert AllCounts(gs', out', q)[r] == AllCounts(gs, out, q)[r];
      }
    }
  }

  /** Two held ends meet. */
  lemma EndsMeet(rest: multiset<End>, a: seq<Grip>, g: Grip, h: Grip, b: seq<Grip>, out: Store, q: Probe)
    requires Owned(rest + multiset{g.end, h.end}, out) && Held(a, rest) && Held(b, rest)
    requires g.end.poly < |out| && h.end.poly < |out| && Valid(out) && h.end.side == Other(g.end.side)
    requires Stroke(g.end.side, EndVertex(out, g.end), EndVertex(out, h.end), q)
             == GripRay(g, out, q) + GripRay(h, out, q)
    requires Planar(a + [g, h] + b, out, q)
    ensures Planar(a + b, Merge(out, g.end.poly, h.end.poly, g.end.side), q)
  {
    hide Owned, Planar, Held, Stroke, GripRay, EndVertex, Merge;
    if Rep(out, g.end) == Rep(out, h.end) {
      EndsClose(rest, a, g, h, b, out, q);
    } else {
      EndsJoin(rest, a, g, h, b, out, q);
    }
  }

  /** An end moves on along its line. */
  lemma EndReaches(rest: multiset<End>, a: seq<Grip>, g: Grip, b: seq<Grip>, out: Store, pt: Point, line: Segment,
                   q: Probe)
    requires Owned(rest + multiset{g.end}, out) && Held(a, rest) && Held(b, rest) && UpTo(out, pt.y)
    requires g.end.poly < |out| && Valid(out) && Below(q, pt.y)
    requires g.line.Contains(EndVertex(out, g.end)) && g.line.Contains(pt)
    requires Planar(a + [g] + b, out, q)
    ensures Planar(a + [Grip(g.end, line)] + b, Add(out, g.end, pt), q)
  {
    hide Owned, Planar, Held, Stroke, RayHit, UpTo;
    EndUpTo(out, g.end, pt.y);
    RayBecomesSide(g.line, EndVertex(out, g.end), pt, g.end.side, q);
    EndMoves(rest, a, g, b, out, pt, line, q);
  }

  /** An end at `pt` meets one whose line leads there. */
  lemma EndsMeetAt(rest: multiset<End>, a: seq<Grip>, g: Grip, h: Grip, b: seq<Grip>, out: Store, pt: Point, q: Probe)
    requires Owned(rest + multiset{g.end, h.end}, out) && Held(a, rest) && Held(b, rest) && UpTo(out, pt.y)
    requires g.end.poly < |out| && h.end.poly < |out| && Valid(out) && h.end.side == Other(g.end.side)
    requires Below(q, pt.y) && EndVertex(out, g.end) == pt
    requires h.line.Contains(EndVertex(out, h.end)) && h.line.Contains(pt)
    requires Planar(a + [g, h] + b, out, q)
    ensures Planar(a + b, Merge(out, g.end.poly, h.end.poly, g.end.side), q)
  {
    hide Owned, Planar, Held, Hit, RayHit, UpTo, Merge;
    FreshGrip(g, out, q);
    EndUpTo(out, h.end, pt.y);
    RayBecomesSide(h.line, EndVertex(out, h.end), pt, h.end.side, q);
    EndsMeet(rest, a, g, h, b, out, q);
  }

  /** An end moves on along its line to `pt`, and meets there one whose line leads there. */
  lemma EndReachesAndMeets(rest: multiset<End>, a: seq<Grip>, g: Grip, h: Grip, b: seq<Grip>, out: Store, pt: Point,
                           q: Probe)
    requires Owned(rest + multiset{g.end, h.end}, out) && Held(a, rest) && Held(b, rest) && UpTo(out, pt.y)
    requires g.end.poly < |out| && h.end.poly < |out| && Valid(out) && h.end.side == Other(g.end.side)
    requires Below(q, pt.y) && g.line.Contains(EndVertex(out, g.end)) && g.line.Contains(pt)
    requires h.line.Contains(EndVertex(out, h.end)) && h.line.Contains(pt)
    requires Planar(a + [g, h] + b, out, q)
    ensures |Add(out, g.end, pt)| == |out| && Valid(Add(out, g.end, pt))
    ensures Planar(a + b, Merge(Add(out, g.end, pt), g.end.poly, h.end.poly, g.end.side), q)
  {
    MovedEnds(rest, g, h, out, pt);
    hide Owned, Planar, UpTo, EndVertex, Add, Valid, Merge, Segment.Contains, Held;
    FirstReaches(rest, a, g, h, b, out, pt, q);
    EndsMeetAt(rest, a, g, h, b, Add(out, g.end, pt), pt, q);
  }

  lemma FirstReaches(rest: multiset<End>, a: seq<Grip>, g: Grip, h: Grip, b: seq<Grip>, out: Store, pt: Point, q: Probe)
    requires Owned(rest + multiset{g.end, h.end}, out) && Held(a, rest) && Held(b, rest) && UpTo(out, pt.y)
    requires g.end.poly < |out| && Valid(out) && Below(q, pt.y)
    requires g.line.Contains(EndVertex(out, g.end)) && g.line.Contains(pt)
    requires Planar(a + [g, h] + b, out, q)
    ensures Planar(a + [g, h] + b, Add(out, g.end, pt), q)
  {
    hide Owned, Planar, UpTo, EndVertex, Add, Valid, Segment.Contains;
    BothOrOne(rest, g.end, h.end);
    BothGrips(a, g, h, b);
    HeldMore(a, rest, rest + multiset{h.end});
    EndReaches(rest + multiset{h.end}, a, g, [h] + b, out, pt, g.line, q);
  }

  lemma BothOrOne(rest: multiset<End>, x: End, y: End)
    ensures rest + multiset{y} + multiset{x} == rest + multiset{x, y}
  {
  }

  lemma BothGrips(a: seq<Grip>, g: Grip, h: Grip, b: seq<Grip>)
    ensures a + [g, h] + b == a + [g] + ([h] + b)
  {
  }

  lemma MovedEnds(rest: multiset<End>, g: Grip, h: Grip, out: Store, pt: Point)
    requires Owned(rest + multiset{g.end, h.end}, out) && UpTo(out, pt.y) && g.end != h.end
    requires g.end.poly < |out| && h.end.poly < |out| && Valid(out)
    ensures var t := Add(out, g.end, pt);
            && |t| == |out| && Valid(t) && Owned(rest + multiset{g.end, h.end}, t) && UpTo(t, pt.y)
            && EndVertex(t, g.end) == pt && EndVertex(t, h.end) == EndVertex(out, h.end)
  {
    hide Owned, UpTo;
    var held := rest + multiset{g.end, h.end};
    AddKeepsOthers(out, g.end, pt);
    AddUpTo(out, g.end, pt, pt.y);
    AddKeepsOwned(held, out, g.end, pt);
    hide Valid, Add, EndVertex;
    assert h.end in held - multiset{g.end};
  }

  /** Rows. */

  lemma {:induction false} GripsConcat(op: Op, p: Flags, a: seq<Strand>, b: seq<Strand>)
    ensures Grips(op, p, a + b) == Grips(op, p, a) + Grips(op, ParityAfter(p, a), b)
    decreases |a|
  {
    hide GripOf;
    if a == [] {
      assert a + b == b;
    } else {
      assert (a + b)[1..] == a[1..] + b;
      GripsConcat(op, p.Toggle(a[0].flags), a[1..], b);
    }
  }

  lemma GripsFirst(op: Op, p: Flags, x: Strand, s: seq<Strand>)
    ensures Grips(op, p, [x] + s) == GripOf(x.out, HeldSide(op, p), x.line) + Grips(op, p.Toggle(x.flags), s)
  {
    hide GripOf;
    assert ([x] + s)[1..] == s;
  }

  lemma GripsLast(op: Op, p: Flags, s: seq<Strand>, x: Strand)
    ensures Grips(op, p, s + [x]) == Grips(op, p, s) + GripOf(x.out, HeldSide(op, ParityAfter(p, s)), x.line)
  {
    hide GripOf;
    GripsConcat(op, p, s, [x]);
    GripsFirst(op, ParityAfter(p, s), x, []);
    assert [x] + [] == [x];
  }

  lemma {:induction false} GripsBusy(op: Op, p: Flags, s: seq<Strand>)
    ensures Grips(op, p, Busy(s)) == Grips(op, p, s)
    decreases |s|
  {
    if s != [] {
      GripsBusy(op, p.Toggle(s[0].flags), s[1..]);
      if Idle(s[0]) {
        assert p.Toggle(s[0].flags) == p;
        assert Busy(s) == Busy(s[1..]);
      } else {
        assert Busy(s)[1..] == Busy(s[1..]);
      }
    }
  }

  lemma {:induction false} GripsButSides(op: Op, p: Flags, s: seq<Strand>, t: seq<Strand>)
    requires SameButSides(s, t)
    ensures Grips(op, p, s) == Grips(op, p, t)
    decreases |s|
  {
    if s != [] {
      GripsButSides(op, p.Toggle(s[0].flags), s[1..], t[1..]);
    }
  }

  lemma {:induction false} GripsHeld(op: Op, p: Flags, s: seq<Strand>)
    ensures Held(Grips(op, p, s), Ends(op, p, s))
    decreases |s|
  {
    if s != [] {
      GripsHeld(op, p.Toggle(s[0].flags), s[1..]);
    }
  }

  lemma HeldMore(gs: seq<Grip>, a: multiset<End>, b: multiset<End>)
    requires Held(gs, a) && a <= b
    ensures Held(gs, b)
  {
  }

  /** At a level where the row is in order. */

  lemma {:induction false} RaysOfNobody(gs: seq<Grip>, out: Store, r: nat, q: Probe)
    requires forall i :: 0 <= i < |gs| ==> MarkOf(gs[i], out).rep != r
    ensures RaysOf(gs, out, r, q) == 0
  {
    hide GripRay;
    if gs != [] {
      RaysOfNobody(gs[1..], out, r, q);
    }
  }

  /** A contour's rays are those of its two ends. */
  lemma RaysOfPair(gs: seq<Grip>, out: Store, w: seq<int>, i: nat, j: nat, q: Probe)
    requires Nested(Marks(gs, out), w) && Pair(Marks(gs, out), i, j)
    ensures RaysOf(gs, out, Marks(gs, out)[i].rep, q) == GripRay(gs[i], out, q) + GripRay(gs[j], out, q)
  {
    hide Nested, GripRay, RaysOf;
    var m, r := Marks(gs, out), Marks(gs, out)[i].rep;
    var a, b, c := gs[..i], gs[i + 1..j], gs[j + 1..];
    forall k: nat | k < |gs| && k != i && k != j
      ensures MarkOf(gs[k], out).rep != r
    {
      if m[k].rep == r {
        OnePartner(m, w, i, j, k);
      }
    }
    RaysOfNobody(a, out, r, q);
    RaysOfNobody(b, out, r, q);
    RaysOfNobody(c, out, r, q);
    assert gs == a + [gs[i]] + (b + [gs[j]] + c);
    RaysOfAround(a, gs[i], b + [gs[j]] + c, out, r, q);
    RaysOfAround(b, gs[j], c, out, r, q);
  }

  /** The rays left of the probe are those of the first n ends. */
  ghost predicate InRow(gs: seq<Grip>, out: Store, q: Probe, n: nat) {
    forall i :: 0 <= i < |gs| ==> GripRay(gs[i], out, q) == if i < n then Sign(gs[i].end.side) else 0
  }

  /** Above all vertices, contours lie in one another as their ends do. */
  lemma RowIsPlanar(held: multiset<End>, gs: seq<Grip>, out: Store, q0: Probe, q: Probe, h: real, n: nat)
    requires Owned(held, out) && Held(gs, held) && Planar(gs, out, q0)
    requires UpTo(out, h) && !Below(q, h) && InRow(gs, out, q, n)
    ensures Planar(gs, out, q)
  {
    hide Owned, Nested, GripRay, ContourHits, UpTo, InRow, Held, Counts;
    var m, w := Marks(gs, out), AllCounts(gs, out, q);
    forall r | 0 <= r < |out|
      ensures ContourHits(out[r], q) == 0
    {
      NoContourHits(out, r, q, h);
    }
    forall i: nat, j: nat | Pair(m, i, j)
      ensures PairSorted(m, w, n, i, j)
    {
      PairInRow(gs, out, AllCounts(gs, out, q0), i, j, q, n);
    }
    SortedNested(m, AllCounts(gs, out, q0), w, n);
    forall r | 0 <= r < |out|
      ensures NodeCounts(out[r], CountWith(gs, out, r, q))
    {
      if out[r].closed {
        ClosedNobody(held, gs, out, r, q);
        NothingCounts(if out[r].hole == Some(true) then Right else Left);
      }
    }
  }

  lemma NothingCounts(side: Side)
    ensures Counts(side, 0)
  {
  }

  lemma PairInRow(gs: seq<Grip>, out: Store, w: seq<int>, i: nat, j: nat, q: Probe, n: nat)
    requires Nested(Marks(gs, out), w) && Pair(Marks(gs, out), i, j) && InRow(gs, out, q, n)
    ensures Marks(gs, out)[i].rep < |w|
    ensures RaysOf(gs, out, Marks(gs, out)[i].rep, q) ==
      (if i < n then Sign(Marks(gs, out)[i].side) else 0) + if j < n then Sign(Marks(gs, out)[j].side) else 0
  {
    hide Nested, GripRay;
    OfPair(Marks(gs, out), w, i, j);
    RaysOfPair(gs, out, w, i, j, q);
  }

  lemma NoContourHits(out: Store, r: nat, q: Probe, h: real)
    requires UpTo(out, h) && !Below(q, h) && r < |out|
    ensures ContourHits(out[r], q) == 0
  {
    hide Hit;
    var v := out[r].verts;
    assert PathUpTo(v, h);
    NoPathHits(v, q, h);
    if v != [] {
      HitNone(v[|v| - 1], v[0], q, h);
    }
  }

  /** No end of a closed contour is held. */
  lemma ClosedNobody(held: multiset<End>, gs: seq<Grip>, out: Store, r: nat, q: Probe)
    requires Owned(held, out) && Held(gs, held) && r < |out| && out[r].closed
    ensures RaysOf(gs, out, r, q) == 0
  {
    hide Owned, GripRay, RaysOf;
    forall i | 0 <= i < |gs|
      ensures MarkOf(gs[i], out).rep != r
    {
      assert gs[i] in gs;
      OwnsEach(held, out, gs[i].end);
    }
    RaysOfNobody(gs, out, r, q);
  }

  /** In a row that stands in order, the ends left of the probe come first. */
  lemma {:induction false} GripsInRow(op: Op, p: Flags, s: seq<Strand>, out: Store, q: Probe, h: real, i: nat)
    requires Anchored(op, p, s, out) && UpTo(out, h) && !Below(q, h) && i <= |s|
    requires forall j :: 0 <= j < i ==> s[j].line.XAt(q.y) < q.x
    requires forall j :: i <= j < |s| ==> s[j].line.XAt(q.y) >= q.x
    ensures InRow(Grips(op, p, s), out, q, |Grips(op, p, s[..i])|)
    decreases |s|
  {
    hide UpTo, Segment.XAt, Inside, GripRay, OnLine, HeldSide, InRow;
    if s == [] {
      NobodyInRow(out, q);
    } else {
      var r, j := p.Toggle(s[0].flags), if i == 0 then 0 else i - 1;
      GripsInRow(op, r, s[1..], out, q, h, j);
      if s[0].out.Some? {
        GripInRow(s[0], HeldSide(op, p), out, q, h);
      }
      FirstInRow(GripOf(s[0].out, HeldSide(op, p), s[0].line), Grips(op, r, s[1..]), out, q,
        |Grips(op, r, s[1..][..j])|, i > 0);
      if i > 0 {
        assert s[..i][1..] == s[1..][..i - 1];
      }
    }
  }

  lemma NobodyInRow(out: Store, q: Probe)
    ensures InRow([], out, q, 0)
  {
  }

  lemma GripInRow(x: Strand, side: Side, out: Store, q: Probe, h: real)
    requires x.out.Some? && OnLine(x, side, out) && UpTo(out, h) && !Below(q, h)
    ensures GripRay(Grip(End(x.out.value, side), x.line), out, q)
         == if x.line.XAt(q.y) < q.x then Sign(side) else 0
  {
    hide UpTo;
    EndUpTo(out, End(x.out.value, side), h);
  }

  /** An end before those of a row. */
  lemma FirstInRow(f: seq<Grip>, gs: seq<Grip>, out: Store, q: Probe, n: nat, left: bool)
    requires |f| <= 1 && InRow(gs, out, q, n) && (!left ==> n == 0)
    requires f != [] ==> GripRay(f[0], out, q) == if left then Sign(f[0].end.side) else 0
    ensures InRow(f + gs, out, q, if left then |f| + n else 0)
  {
    hide GripRay;
  }

  lemma NothingIsPlanar(q: Probe)
    ensures Planar([], [], q)
  {
  }
}
