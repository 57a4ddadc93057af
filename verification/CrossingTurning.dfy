/**
 What a crossing does to what every single contour counts below it.
 */
module CrossingTurning {
  import opened Base
  import opened Edges
  import opened Output
  import opened Strands
  import opened Boundary
  import opened CrossingStep
  import opened Tally
  import opened Turning
  import opened BoundaryTurning
  import opened CrossingTally

  /** The ends held before and after the crossing; `a` are those held to the left, and `b` those
      to the right. */

  function Entering(a: seq<Grip>, p: Option<nat>, q: Option<nat>, s0: Segment, s1: Segment, l: bool, lo: bool,
                    b: seq<Grip>): seq<Grip> {
    a + (GripOf(p, SideAt(l), s0) + GripOf(q, SideAt(lo), s1)) + b
  }

  function Exiting(a: seq<Grip>, r: Crossed, s0: Segment, s1: Segment, l: bool, up: bool, b: seq<Grip>): seq<Grip> {
    a + (GripOf(r.out1, SideAt(l), s1) + GripOf(r.out0, SideAt(up), s0)) + b
  }

  /** Below the crossing, the edit keeps contours beside and within one another. */
  ghost predicate CrossTurned(a: seq<Grip>, b: seq<Grip>, out: Store, p: Option<nat>, q: Option<nat>, s0: Segment,
                              s1: Segment, l: bool, lo: bool, up: bool, r: Crossed, m: Probe) {
    Planar(Entering(a, p, q, s0, s1, l, lo, b), out, m) ==> Planar(Exiting(a, r, s0, s1, l, up, b), r.out, m)
  }

  lemma TurnedStarts(segs: set<Segment>, rest: multiset<End>, out: Store, p: Option<nat>, q: Option<nat>,
        s0: Segment, s1: Segment, pt: Point, o: bool, a: seq<Grip>, b: seq<Grip>, m: Probe)
    requires Valid(out) && (p.Some? ==> p.value < |out|) && (q.Some? ==> q.value < |out|)
    requires CrossPre(segs, rest, out, p, q, s0, s1, pt, o, o, o) && Held(a, rest) && Held(b, rest) && Below(m, pt.y)
    ensures CrossTurned(a, b, out, p, q, s0, s1, o, o, !o, CrossEdit(if o then IMN else EMN, out, p, q, pt), m)
  {
    hide Planar, Held, Traced, Owned, EndVertex, AddLocalMin, Valid;
    var n := |out|;
    assert rest + EndOf(p, SideAt(o)) + EndOf(q, SideAt(o)) == rest;
    IsOwned(segs, rest, out);
    if Planar(Entering(a, p, q, s0, s1, o, o, b), out, m) {
      NoGrips(a, Grip(End(n, SideAt(o)), s1), Grip(End(n, SideAt(!o)), s0), b);
      EndsStart(rest, a, b, out, pt, SideAt(o), s1, s0, m);
      assert Other(SideAt(o)) == SideAt(!o);
    }
  }

  lemma TurnedPassesRight(segs: set<Segment>, rest: multiset<End>, out: Store, p: Option<nat>, q: Option<nat>,
        s0: Segment, s1: Segment, pt: Point, o: bool, a: seq<Grip>, b: seq<Grip>, m: Probe)
    requires Valid(out) && (p.Some? ==> p.value < |out|) && (q.Some? ==> q.value < |out|)
    requires CrossPre(segs, rest, out, p, q, s0, s1, pt, o, !o, !o) && UpTo(out, pt.y)
    requires Held(a, rest) && Held(b, rest) && Below(m, pt.y)
    ensures CrossTurned(a, b, out, p, q, s0, s1, o, !o, !o, CrossEdit(if o then ERI else ILI, out, p, q, pt), m)
  {
    hide Planar, Held, Traced, Owned, EndVertex, UpTo;
    var held := End(p.value, SideAt(o));
    assert rest + EndOf(p, SideAt(o)) + EndOf(q, SideAt(!o)) == rest + multiset{held};
    IsOwned(segs, rest + multiset{held}, out);
    assert CrossEdit(if o then ERI else ILI, out, p, q, pt) == Crossed(Add(out, held, pt), None, p);
    hide Add, Valid;
    if Planar(Entering(a, p, q, s0, s1, o, !o, b), out, m) {
      OneGrip(a, Grip(held, s0), b);
      OneGrip(a, Grip(held, s1), b);
      EndReaches(rest, a, Grip(held, s0), b, out, pt, s1, m);
    }
  }

  lemma TurnedPassesLeft(segs: set<Segment>, rest: multiset<End>, out: Store, p: Option<nat>, q: Option<nat>,
        s0: Segment, s1: Segment, pt: Point, o: bool, a: seq<Grip>, b: seq<Grip>, m: Probe)
    requires Valid(out) && (p.Some? ==> p.value < |out|) && (q.Some? ==> q.value < |out|)
    requires CrossPre(segs, rest, out, p, q, s0, s1, pt, o, o, !o) && UpTo(out, pt.y)
    requires Held(a, rest) && Held(b, rest) && Below(m, pt.y)
    ensures CrossTurned(a, b, out, p, q, s0, s1, o, o, o, CrossEdit(if o then IRI else ELI, out, p, q, pt), m)
  {
    hide Planar, Held, Traced, Owned, EndVertex, UpTo;
    var held := End(q.value, SideAt(o));
    assert rest + EndOf(p, SideAt(o)) + EndOf(q, SideAt(o)) == rest + multiset{held};
    IsOwned(segs, rest + multiset{held}, out);
    assert CrossEdit(if o then IRI else ELI, out, p, q, pt) == Crossed(Add(out, held, pt), q, None);
    hide Add, Valid;
    if Planar(Entering(a, p, q, s0, s1, o, o, b), out, m) {
      OneGrip(a, Grip(held, s1), b);
      OneGrip(a, Grip(held, s0), b);
      EndReaches(rest, a, Grip(held, s1), b, out, pt, s0, m);
    }
  }

  /** The two ends meet at the crossing. */
  lemma TurnedMeetsAt(segs: set<Segment>, rest: multiset<End>, out: Store, p: nat, q: nat, s0: Segment, s1: Segment,
                      pt: Point, o: bool, a: seq<Grip>, b: seq<Grip>, m: Probe)
    requires CrossPre(segs, rest, out, Some(p), Some(q), s0, s1, pt, o, !o, o) && UpTo(out, pt.y)
    requires Held(a, rest) && Held(b, rest) && Below(m, pt.y)
    requires p < |out| && q < |out| && Valid(out)
    requires Planar(Entering(a, Some(p), Some(q), s0, s1, o, !o, b), out, m)
    ensures var t := Add(out, End(p, SideAt(o)), pt);
            |t| == |out| && Valid(t) && Planar(a + b, Merge(t, p, q, SideAt(o)), m)
  {
    hide Planar, Held, UpTo, Traced, Owned, Merge, Add, Valid, EndVertex, Segment.Contains;
    var c, d := End(p, SideAt(o)), End(q, SideAt(!o));
    var g, h := Grip(c, s0), Grip(d, s1);
    assert rest + EndOf(Some(p), SideAt(o)) + EndOf(Some(q), SideAt(!o)) == rest + multiset{c, d};
    NoGrips(a, g, h, b);
    EndReachesAndMeets(rest, a, g, h, b, out, pt, m);
  }

  lemma MeetsEdit(out: Store, p: nat, q: nat, pt: Point, o: bool, starts: bool)
    requires Valid(out) && p < |out| && q < |out|
    ensures var t := Add(out, End(p, SideAt(o)), pt);
            && Valid(t) && |t| == |out|
            && var s := Merge(t, p, q, SideAt(o));
               CrossEdit(if starts then if o then IMM else EMM else if o then IMX else EMX, out, Some(p), Some(q), pt)
               == if starts then Crossed(AddLocalMin(s, pt), Some(|out|), Some(|out|)) else Crossed(s, None, None)
  {
    CrossingStep.MeetsIs(out, p, q, pt, o, starts);
    MeetsHolds(out, p, q, pt, o, starts);
    hide Valid, AddLocalMin, Merge, Add, CrossEdit, Classify;
  }

  /** Who holds what after the cases that join two ends. */
  lemma MeetsHolds(out: Store, p: nat, q: nat, pt: Point, o: bool, starts: bool)
    requires Valid(out) && p < |out| && q < |out|
    ensures var c := if starts then if o then IMM else EMM else if o then IMX else EMX;
            var r := CrossEdit(c, out, Some(p), Some(q), pt);
            c == Classify(!o, o, o, o != starts) && r.out0 == r.out1 == if starts then Some(|out|) else None
  {
    hide AddLocalMin, MergeLeft, MergeRight, AddLeft, AddRight;
  }

  lemma TurnedMeets(segs: set<Segment>, rest: multiset<End>, out: Store, p: Option<nat>, q: Option<nat>,
        s0: Segment, s1: Segment, pt: Point, o: bool, a: seq<Grip>, b: seq<Grip>, m: Probe)
    requires Valid(out) && (p.Some? ==> p.value < |out|) && (q.Some? ==> q.value < |out|)
    requires CrossPre(segs, rest, out, p, q, s0, s1, pt, o, !o, o) && UpTo(out, pt.y)
    requires Held(a, rest) && Held(b, rest) && Below(m, pt.y)
    ensures CrossTurned(a, b, out, p, q, s0, s1, o, !o, o, CrossEdit(if o then IMX else EMX, out, p, q, pt), m)
  {
    CrossingStep.MeetingEnds(segs, rest, out, p, q, s0, s1, pt, o);
    hide CrossPre, Planar, Held, UpTo, Merge, Add, Valid, CrossEdit;
    MeetsEdit(out, p.value, q.value, pt, o, false);
    if Planar(Entering(a, p, q, s0, s1, o, !o, b), out, m) {
      TurnedMeetsAt(segs, rest, out, p.value, q.value, s0, s1, pt, o, a, b, m);
      NoGrips(a, Grip(End(0, Side.Left), s0), Grip(End(0, Side.Left), s1), b);
    }
  }

  lemma TurnedMeetsAndStarts(segs: set<Segment>, rest: multiset<End>, out: Store, p: Option<nat>, q: Option<nat>,
        s0: Segment, s1: Segment, pt: Point, o: bool, a: seq<Grip>, b: seq<Grip>, m: Probe)
    requires Valid(out) && (p.Some? ==> p.value < |out|) && (q.Some? ==> q.value < |out|)
    requires CrossPre(segs, rest, out, p, q, s0, s1, pt, o, !o, o) && UpTo(out, pt.y)
    requires Held(a, rest) && Held(b, rest) && Below(m, pt.y)
    ensures CrossTurned(a, b, out, p, q, s0, s1, o, !o, !o, CrossEdit(if o then IMM else EMM, out, p, q, pt), m)
  {
    CrossingStep.MeetingEnds(segs, rest, out, p, q, s0, s1, pt, o);
    MeetsAt(segs, rest, out, p, q, s0, s1, pt, o);
    var s := Merge(Add(out, End(p.value, SideAt(o)), pt), p.value, q.value, SideAt(o));
    IsOwned(segs, rest, s);
    hide CrossPre, Planar, Held, UpTo, Merge, Add, Valid, CrossEdit, AddLocalMin, Owned, Traced, Undisturbed;
    MeetsEdit(out, p.value, q.value, pt, o, true);
    if Planar(Entering(a, p, q, s0, s1, o, !o, b), out, m) {
      var n := |out|;
      TurnedMeetsAt(segs, rest, out, p.value, q.value, s0, s1, pt, o, a, b, m);
      EndsStart(rest, a, b, s, pt, SideAt(o), s1, s0, m);
      NoGrips(a, Grip(End(n, SideAt(o)), s1), Grip(End(n, SideAt(!o)), s0), b);
      assert Other(SideAt(o)) == SideAt(!o);
    }
  }

  /** Where the contour stays on its edge, or there is none, nothing changes. */
  lemma TurnedStays(segs: set<Segment>, rest: multiset<End>, out: Store, p: Option<nat>, q: Option<nat>,
        s0: Segment, s1: Segment, pt: Point, l: bool, lo: bool, up: bool, ri: bool, a: seq<Grip>, b: seq<Grip>,
        m: Probe)
    requires CrossPre(segs, rest, out, p, q, s0, s1, pt, l, lo, ri)
    requires (l == lo && up == ri) || (lo == ri && l == up)
    ensures CrossTurned(a, b, out, p, q, s0, s1, l, lo, up, Crossed(out, p, q), m)
  {
    hide Sound, Planar;
    var x, y := GripOf(p, SideAt(l), s0), GripOf(q, SideAt(lo), s1);
    assert x + [] == x == [] + x && y + [] == y == [] + y;
  }

  /** Whatever its class, the edit keeps contours beside and within one another. */
  lemma CrossEditTurned(segs: set<Segment>, rest: multiset<End>, out: Store, p: Option<nat>, q: Option<nat>,
                        s0: Segment, s1: Segment, pt: Point, l: bool, lo: bool, up: bool, ri: bool,
                        a: seq<Grip>, b: seq<Grip>, m: Probe)
    requires CrossPre(segs, rest, out, p, q, s0, s1, pt, l, lo, ri) && UpTo(out, pt.y)
    requires Held(a, rest) && Held(b, rest) && Below(m, pt.y)
    ensures Valid(out) && (p.Some? ==> p.value < |out|) && (q.Some? ==> q.value < |out|)
    ensures CrossTurned(a, b, out, p, q, s0, s1, l, lo, up, CrossEdit(Classify(lo, ri, l, up), out, p, q, pt), m)
  {
    hide CrossPre, CrossTurned, UpTo, CrossEdit, Held;
    CrossPointers(segs, rest, out, p, q, s0, s1, pt, l, lo, ri);
    if (l == lo && up == ri) || (lo == ri && l == up) {
      TurnedStays(segs, rest, out, p, q, s0, s1, pt, l, lo, up, ri, a, b, m);
      NothingToCross(out, p, q, pt, l, lo, up, ri);
    } else if l == lo && lo == ri {
      TurnedStarts(segs, rest, out, p, q, s0, s1, pt, l, a, b, m);
    } else if l == lo {
      TurnedPassesLeft(segs, rest, out, p, q, s0, s1, pt, l, a, b, m);
    } else if lo == ri {
      TurnedPassesRight(segs, rest, out, p, q, s0, s1, pt, l, a, b, m);
    } else if up == l {
      TurnedMeets(segs, rest, out, p, q, s0, s1, pt, l, a, b, m);
    } else {
      TurnedMeetsAndStarts(segs, rest, out, p, q, s0, s1, pt, l, a, b, m);
    }
  }

  lemma CrossIsTurned(op: Op, segs: set<Segment>, rest: multiset<End>, out: Store, p: Flags, e0: Edge, e1: Edge,
                      pt: Point, a: seq<Grip>, b: seq<Grip>, m: Probe)
    requires Facing(op, segs, rest, out, p, e0, e1, pt) && UpTo(out, pt.y)
    requires Held(a, rest) && Held(b, rest) && Below(m, pt.y)
    ensures Valid(out) && PointersOk(out, e0) && PointersOk(out, e1)
    ensures var (out', f0, f1) := Cross(op, out, e0, e1, pt);
            CrossTurned(a, b, out, e0.outAbove, e1.outAbove, e0.info.seg, e1.info.seg,
                        Inside(op, p), Inside(op, p.Toggle(e0.above)), Inside(op, p.Toggle(e1.above)),
                        Crossed(out', f0.outAbove, f1.outAbove), m)
  {
    CrossIsEdit(op, segs, rest, out, p, e0, e1, pt);
    var lower, upper := p.Toggle(e0.above), p.Toggle(e1.above);
    Toggles(p, e0.above, e1.above);
    hide CrossTurned, CrossEdit, Classify, UpTo, CrossPre, Held, Cross, Inside, Flags.Toggle, Valid;
    var l, lo, up, ri := Inside(op, p), Inside(op, lower), Inside(op, upper), Inside(op, lower.Toggle(e1.above));
    CrossEditTurned(segs, rest, out, e0.outAbove, e1.outAbove, e0.info.seg, e1.info.seg, pt, l, lo, up, ri, a, b, m);
  }

  lemma GripsPair(op: Op, p: Flags, a: seq<Strand>, x: Strand, y: Strand, b: seq<Strand>)
    ensures var q := ParityAfter(p, a); var r := q.Toggle(x.flags);
            Grips(op, p, a + [x, y] + b)
            == Grips(op, p, a) + (GripOf(x.out, HeldSide(op, q), x.line) + GripOf(y.out, HeldSide(op, r), y.line))
             + Grips(op, r.Toggle(y.flags), b)
  {
    hide GripOf, HeldSide, ParityAfter, Grips;
    var q := ParityAfter(p, a);
    assert a + [x, y] + b == a + ([x] + ([y] + b));
    GripsConcat(op, p, a, [x] + ([y] + b));
    GripsFirst(op, q, x, [y] + b);
    GripsFirst(op, q.Toggle(x.flags), y, b);
  }

  /** Below the crossing of two neighbours of a row, contours stay beside and within one another. */
  lemma CrossRowTurned(op: Op, segs: set<Segment>, p: Flags, a: seq<Strand>, e0: Edge, e1: Edge, b: seq<Strand>,
                       out: Store, pt: Point, m: Probe)
    requires RowHeld(op, segs, p, a + [AboveStrand(e0), AboveStrand(e1)] + b, out) && UpTo(out, pt.y)
    requires Sided(p, a + [AboveStrand(e0), AboveStrand(e1)] + b)
    requires e0.info.seg in segs && e1.info.seg in segs && e0.info.seg.Contains(pt) && e1.info.seg.Contains(pt)
    requires Below(m, pt.y) && Planar(Grips(op, p, a + [AboveStrand(e0), AboveStrand(e1)] + b), out, m)
    ensures Valid(out) && PointersOk(out, e0) && PointersOk(out, e1)
    ensures var (out', f0, f1) := Cross(op, out, e0, e1, pt);
            Planar(Grips(op, p, a + [AboveStrand(f1), AboveStrand(f0)] + b), out', m)
  {
    hide RowHeld, Matched, Sided, Anchored, Ends, Cross, Facing, Inside, Grips, GripOf, UpTo, ParityAfter, Planar, Held,
      Valid;
    var q := ParityAfter(p, a);
    var t := q.Toggle(e0.above).Toggle(e1.above);
    RowFaces(op, segs, p, a, e0, e1, b, out, pt);
    var rest := Ends(op, p, a) + Ends(op, t, b);
    GripsHeld(op, p, a);
    GripsHeld(op, t, b);
    HeldMore(Grips(op, p, a), Ends(op, p, a), rest);
    HeldMore(Grips(op, t, b), Ends(op, t, b), rest);
    CrossIsTurned(op, segs, rest, out, q, e0, e1, pt, Grips(op, p, a), Grips(op, t, b), m);
    var (out', f0, f1) := Cross(op, out, e0, e1, pt);
    assert q.Toggle(f1.above).Toggle(f0.above) == t;
    GripsPair(op, p, a, AboveStrand(e0), AboveStrand(e1), b);
    GripsPair(op, p, a, AboveStrand(f1), AboveStrand(f0), b);
  }
}
