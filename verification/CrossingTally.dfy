/**
 What a crossing does to the count of sides: below the crossing every side and every ray
 stays where it was.
 */
module CrossingTally {
  import opened Base
  import opened Edges
  import opened Output
  import opened Strands
  import opened Boundary
  import opened CrossingStep
  import opened Tally
  import opened BoundaryTally

  /** Below the crossing the edit leaves the count as it was; l, lo and up are the regions to
      the left, below and above. */
  ghost predicate CrossTallied(out: Store, p: Option<nat>, q: Option<nat>, s0: Segment, s1: Segment, pt: Point,
                               l: bool, lo: bool, up: bool, r: Crossed)
  {
    UpTo(r.out, pt.y) && forall m :: Below(m, pt.y) ==> CrossTalliedAt(out, p, q, s0, s1, l, lo, up, r, m)
  }

  ghost predicate CrossTalliedAt(out: Store, p: Option<nat>, q: Option<nat>, s0: Segment, s1: Segment,
                                 l: bool, lo: bool, up: bool, r: Crossed, m: Probe)
  {
    Hits(r.out, m) + Ray(s1, r.out, r.out1, SideAt(l), m) + Ray(s0, r.out, r.out0, SideAt(up), m)
    == Hits(out, m) + Ray(s0, out, p, SideAt(l), m) + Ray(s1, out, q, SideAt(lo), m)
  }

  lemma NoRay(line: Segment, s: Store, side: Side, m: Probe)
    ensures Ray(line, s, None, side, m) == 0
  {
  }

  lemma TallyStartsAt(segs: set<Segment>, s: Store, s0: Segment, s1: Segment, pt: Point, o: bool)
    requires Valid(s) && UpTo(s, pt.y)
    ensures CrossTallied(s, None, None, s0, s1, pt, o, o, !o, Crossed(AddLocalMin(s, pt), Some(|s|), Some(|s|)))
  {
    hide Hits, UpTo, Ray, AddLocalMin;
    Started(segs, pt.y, s, pt, s1, SideAt(o));
    Started(segs, pt.y, s, pt, s0, SideAt(!o));
    forall m | Below(m, pt.y)
      ensures CrossTalliedAt(s, None, None, s0, s1, o, o, !o, Crossed(AddLocalMin(s, pt), Some(|s|), Some(|s|)), m)
    {
      NoRay(s0, s, SideAt(o), m);
      NoRay(s1, s, SideAt(o), m);
    }
  }

  lemma TallyCrossStarts(segs: set<Segment>, rest: multiset<End>, out: Store, p: Option<nat>, q: Option<nat>,
        s0: Segment, s1: Segment, pt: Point, o: bool)
    requires Valid(out) && (p.Some? ==> p.value < |out|) && (q.Some? ==> q.value < |out|)
    requires CrossPre(segs, rest, out, p, q, s0, s1, pt, o, o, o) && UpTo(out, pt.y)
    ensures CrossTallied(out, p, q, s0, s1, pt, o, o, !o, CrossEdit(if o then IMN else EMN, out, p, q, pt))
  {
    hide CrossTallied, UpTo, Traced, AddLocalMin;
    assert p == None && q == None;
    TallyStartsAt(segs, out, s0, s1, pt, o);
  }

  lemma TallyCrossPassesRight(segs: set<Segment>, rest: multiset<End>, out: Store, p: Option<nat>, q: Option<nat>,
        s0: Segment, s1: Segment, pt: Point, o: bool)
    requires Valid(out) && (p.Some? ==> p.value < |out|) && (q.Some? ==> q.value < |out|)
    requires CrossPre(segs, rest, out, p, q, s0, s1, pt, o, !o, !o) && UpTo(out, pt.y)
    ensures CrossTallied(out, p, q, s0, s1, pt, o, !o, !o, CrossEdit(if o then ERI else ILI, out, p, q, pt))
  {
    hide Hits, UpTo, Ray, Owned, Traced;
    var held := End(p.value, SideAt(o));
    assert rest + EndOf(p, SideAt(o)) + EndOf(q, SideAt(!o)) == rest + multiset{held};
    Reached(segs, pt.y, rest, out, s0, held, pt);
    AddKeepsOthers(out, held, pt);
    var r := CrossEdit(if o then ERI else ILI, out, p, q, pt);
    assert r == Crossed(Add(out, held, pt), None, p);
    hide Add;
    FreshRay(s1, r.out, r.out1, SideAt(o), pt.y);
    forall m | Below(m, pt.y)
      ensures CrossTalliedAt(out, p, q, s0, s1, o, !o, !o, r, m)
    {
      NoRay(s0, r.out, SideAt(!o), m);
      NoRay(s1, out, SideAt(!o), m);
    }
  }

  lemma TallyCrossPassesLeft(segs: set<Segment>, rest: multiset<End>, out: Store, p: Option<nat>, q: Option<nat>,
        s0: Segment, s1: Segment, pt: Point, o: bool)
    requires Valid(out) && (p.Some? ==> p.value < |out|) && (q.Some? ==> q.value < |out|)
    requires CrossPre(segs, rest, out, p, q, s0, s1, pt, o, o, !o) && UpTo(out, pt.y)
    ensures CrossTallied(out, p, q, s0, s1, pt, o, o, o, CrossEdit(if o then IRI else ELI, out, p, q, pt))
  {
    hide Hits, UpTo, Ray, Owned, Traced;
    var held := End(q.value, SideAt(o));
    assert rest + EndOf(p, SideAt(o)) + EndOf(q, SideAt(o)) == rest + multiset{held};
    Reached(segs, pt.y, rest, out, s1, held, pt);
    AddKeepsOthers(out, held, pt);
    var r := CrossEdit(if o then IRI else ELI, out, p, q, pt);
    assert r == Crossed(Add(out, held, pt), q, None);
    hide Add;
    FreshRay(s0, r.out, r.out0, SideAt(o), pt.y);
    forall m | Below(m, pt.y)
      ensures CrossTalliedAt(out, p, q, s0, s1, o, o, o, r, m)
    {
      NoRay(s1, r.out, SideAt(o), m);
      NoRay(s0, out, SideAt(o), m);
    }
  }

  /** The two ends meet at the crossing. */
  lemma TallyMeetsAt(segs: set<Segment>, rest: multiset<End>, out: Store, p: Option<nat>, q: Option<nat>,
                     s0: Segment, s1: Segment, pt: Point, o: bool)
    requires CrossPre(segs, rest, out, p, q, s0, s1, pt, o, !o, o) && UpTo(out, pt.y)
    ensures p.Some? && q.Some? && p.value < |out| && q.value < |out| && Valid(out)
    ensures var t := Add(out, End(p.value, SideAt(o)), pt);
            && |t| == |out| && Valid(t)
            && var s := Merge(t, p.value, q.value, SideAt(o));
               && Valid(s) && UpTo(s, pt.y)
               && forall m :: Below(m, pt.y) ==>
                    Hits(s, m) == Hits(out, m) + Ray(s0, out, p, SideAt(o), m) + Ray(s1, out, q, SideAt(!o), m)
  {
    hide Hits, Hit, UpTo, RayHit, Traced, Merge;
    var a, b := End(p.value, SideAt(o)), End(q.value, SideAt(!o));
    var held := rest + multiset{b};
    assert rest + EndOf(p, SideAt(o)) + EndOf(q, SideAt(!o)) == held + multiset{a};
    Extend(segs, held, out, a, pt);
    Reached(segs, pt.y, held, out, s0, a, pt);
    var t := Add(out, a, pt);
    AddKeepsOthers(out, a, pt);
    assert b in held;
    assert EndVertex(t, b) == EndVertex(out, b);
    IsOpen(segs, held, t, a);
    assert held + multiset{a} == rest + multiset{a} + multiset{b};
    IsOpen(segs, rest + multiset{a}, t, b);
    JoinUpTo(t, a.poly, b.poly, a.side, pt.y);
    MergeNodes(t, a.poly, b.poly, a.side);
    EndUpTo(out, b, pt.y);
    forall m | Below(m, pt.y)
      ensures Hits(Merge(t, a.poly, b.poly, a.side), m)
           == Hits(out, m) + Ray(s0, out, p, SideAt(o), m) + Ray(s1, out, q, SideAt(!o), m)
    {
      JoinHits(t, a.poly, b.poly, a.side, m);
      RayBecomesSide(s1, EndVertex(out, b), pt, b.side, m);
    }
  }

  lemma TallyCrossMeets(segs: set<Segment>, rest: multiset<End>, out: Store, p: Option<nat>, q: Option<nat>,
        s0: Segment, s1: Segment, pt: Point, o: bool)
    requires Valid(out) && (p.Some? ==> p.value < |out|) && (q.Some? ==> q.value < |out|)
    requires CrossPre(segs, rest, out, p, q, s0, s1, pt, o, !o, o) && UpTo(out, pt.y)
    ensures CrossTallied(out, p, q, s0, s1, pt, o, !o, o, CrossEdit(if o then IMX else EMX, out, p, q, pt))
  {
    hide Sound, Along, MergeLeft, MergeRight, AddLeft, AddRight, AddLocalMin, Undisturbed, EndVertex, Hits, UpTo, Ray;
    TallyMeetsAt(segs, rest, out, p, q, s0, s1, pt, o);
    var s := Merge(Add(out, End(p.value, SideAt(o)), pt), p.value, q.value, SideAt(o));
    assert CrossEdit(if o then IMX else EMX, out, p, q, pt) == Crossed(s, None, None);
    forall m | Below(m, pt.y)
      ensures CrossTalliedAt(out, p, q, s0, s1, o, !o, o, Crossed(s, None, None), m)
    {
      NoRay(s1, s, SideAt(o), m);
      NoRay(s0, s, SideAt(o), m);
    }
  }

  lemma TallyCrossMeetsAndStarts(segs: set<Segment>, rest: multiset<End>, out: Store, p: Option<nat>, q: Option<nat>,
        s0: Segment, s1: Segment, pt: Point, o: bool)
    requires Valid(out) && (p.Some? ==> p.value < |out|) && (q.Some? ==> q.value < |out|)
    requires CrossPre(segs, rest, out, p, q, s0, s1, pt, o, !o, o) && UpTo(out, pt.y)
    ensures CrossTallied(out, p, q, s0, s1, pt, o, !o, !o, CrossEdit(if o then IMM else EMM, out, p, q, pt))
  {
    hide Sound, Along, MergeLeft, MergeRight, AddLeft, AddRight, AddLocalMin, Undisturbed, EndVertex, Hits, UpTo, Ray;
    TallyMeetsAt(segs, rest, out, p, q, s0, s1, pt, o);
    var s := Merge(Add(out, End(p.value, SideAt(o)), pt), p.value, q.value, SideAt(o));
    var r := Crossed(AddLocalMin(s, pt), Some(|s|), Some(|s|));
    assert CrossEdit(if o then IMM else EMM, out, p, q, pt) == r;
    TallyStartsAt(segs, s, s0, s1, pt, o);
    forall m | Below(m, pt.y)
      ensures CrossTalliedAt(out, p, q, s0, s1, o, !o, !o, r, m)
    {
      assert CrossTalliedAt(s, None, None, s0, s1, o, o, !o, r, m);
      NoRay(s1, s, SideAt(o), m);
      NoRay(s0, s, SideAt(o), m);
    }
  }

  /** Where the contour stays on its edge, or there is none, nothing changes. */
  lemma TallyStays(segs: set<Segment>, rest: multiset<End>, out: Store, p: Option<nat>, q: Option<nat>,
        s0: Segment, s1: Segment, pt: Point, l: bool, lo: bool, up: bool, ri: bool)
    requires CrossPre(segs, rest, out, p, q, s0, s1, pt, l, lo, ri) && UpTo(out, pt.y)
    requires (l == lo && up == ri) || (lo == ri && l == up)
    ensures CrossTallied(out, p, q, s0, s1, pt, l, lo, up, Crossed(out, p, q))
  {
    hide Sound, Hits, UpTo, RayHit, EndVertex, Valid;
  }

  lemma CrossPointers(segs: set<Segment>, rest: multiset<End>, out: Store, p: Option<nat>, q: Option<nat>,
                      s0: Segment, s1: Segment, pt: Point, l: bool, lo: bool, ri: bool)
    requires CrossPre(segs, rest, out, p, q, s0, s1, pt, l, lo, ri)
    ensures Valid(out) && (p.Some? ==> p.value < |out|) && (q.Some? ==> q.value < |out|)
  {
    hide Traced;
  }

  /** Whatever its class, the edit leaves the count below the crossing as it was. */
  lemma CrossEditTallied(segs: set<Segment>, rest: multiset<End>, out: Store, p: Option<nat>, q: Option<nat>,
                         s0: Segment, s1: Segment, pt: Point, l: bool, lo: bool, up: bool, ri: bool)
    requires CrossPre(segs, rest, out, p, q, s0, s1, pt, l, lo, ri) && UpTo(out, pt.y)
    ensures Valid(out) && (p.Some? ==> p.value < |out|) && (q.Some? ==> q.value < |out|)
    ensures CrossTallied(out, p, q, s0, s1, pt, l, lo, up, CrossEdit(Classify(lo, ri, l, up), out, p, q, pt))
  {
    hide CrossPre, CrossTallied, UpTo, CrossEdit;
    CrossPointers(segs, rest, out, p, q, s0, s1, pt, l, lo, ri);
    if (l == lo && up == ri) || (lo == ri && l == up) {
      TallyStays(segs, rest, out, p, q, s0, s1, pt, l, lo, up, ri);
      NothingToCross(out, p, q, pt, l, lo, up, ri);
    } else if l == lo && lo == ri {
      TallyCrossStarts(segs, rest, out, p, q, s0, s1, pt, l);
    } else if l == lo {
      TallyCrossPassesLeft(segs, rest, out, p, q, s0, s1, pt, l);
    } else if lo == ri {
      TallyCrossPassesRight(segs, rest, out, p, q, s0, s1, pt, l);
    } else if up == l {
      TallyCrossMeets(segs, rest, out, p, q, s0, s1, pt, l);
    } else {
      TallyCrossMeetsAndStarts(segs, rest, out, p, q, s0, s1, pt, l);
    }
  }

  /** A crossing leaves the count below it as it was. */
  lemma CrossIsTallied(op: Op, segs: set<Segment>, rest: multiset<End>, out: Store, p: Flags, e0: Edge, e1: Edge,
                       pt: Point)
    requires Facing(op, segs, rest, out, p, e0, e1, pt) && UpTo(out, pt.y)
    ensures Valid(out) && PointersOk(out, e0) && PointersOk(out, e1)
    ensures var (out', f0, f1) := Cross(op, out, e0, e1, pt);
            CrossTallied(out, e0.outAbove, e1.outAbove, e0.info.seg, e1.info.seg, pt,
                         Inside(op, p), Inside(op, p.Toggle(e0.above)), Inside(op, p.Toggle(e1.above)),
                         Crossed(out', f0.outAbove, f1.outAbove))
  {
    CrossIsEdit(op, segs, rest, out, p, e0, e1, pt);
    var lower, upper := p.Toggle(e0.above), p.Toggle(e1.above);
    Toggles(p, e0.above, e1.above);
    hide CrossTallied, CrossEdit, Classify, UpTo, CrossPre, Cross, Inside, Flags.Toggle, Valid;
    var l, lo, up, ri := Inside(op, p), Inside(op, lower), Inside(op, upper), Inside(op, lower.Toggle(e1.above));
    CrossEditTallied(segs, rest, out, e0.outAbove, e1.outAbove, e0.info.seg, e1.info.seg, pt, l, lo, up, ri);
  }

  /** Below the crossing of two neighbours of a row, nothing changes. */
  lemma CrossRowTallied(op: Op, segs: set<Segment>, p: Flags, a: seq<Strand>, e0: Edge, e1: Edge, b: seq<Strand>,
                        out: Store, pt: Point, m: Probe)
    requires RowHeld(op, segs, p, a + [AboveStrand(e0), AboveStrand(e1)] + b, out) && UpTo(out, pt.y)
    requires Sided(p, a + [AboveStrand(e0), AboveStrand(e1)] + b)
    requires e0.info.seg in segs && e1.info.seg in segs && e0.info.seg.Contains(pt) && e1.info.seg.Contains(pt)
    requires Below(m, pt.y)
    ensures Valid(out) && PointersOk(out, e0) && PointersOk(out, e1)
    ensures var (out', f0, f1) := Cross(op, out, e0, e1, pt);
            && UpTo(out', pt.y)
            && Total(op, p, a + [AboveStrand(f1), AboveStrand(f0)] + b, out', m)
               == Total(op, p, a + [AboveStrand(e0), AboveStrand(e1)] + b, out, m)
  {
    hide RowHeld, Matched, Sided, Anchored, Ends, Cross, CrossPost, Facing, Inside, Rays, Ray, Hits, UpTo, ParityAfter;
    var q := ParityAfter(p, a);
    var t := q.Toggle(e0.above).Toggle(e1.above);
    RowFaces(op, segs, p, a, e0, e1, b, out, pt);
    var rest := Ends(op, p, a) + Ends(op, t, b);
    CrossKeeps(op, segs, rest, out, q, e0, e1, pt);
    CrossIsTallied(op, segs, rest, out, q, e0, e1, pt);
    var (out', f0, f1) := Cross(op, out, e0, e1, pt);
    var u := q.Toggle(f1.above);
    assert u.Toggle(f0.above) == t;
    assert Ends(op, p, a) <= rest && Ends(op, t, b) <= rest;
    AfterCross(op, segs, rest, out, q, e0, e1, f0, f1, out', Ends(op, p, a), Ends(op, t, b));
    RaysFrame(op, p, a, out, out', m);
    RaysFrame(op, t, b, out, out', m);
    RaysAround(op, p, a, AboveStrand(e0), AboveStrand(e1), b, out, m);
    RaysAround(op, p, a, AboveStrand(f1), AboveStrand(f0), b, out', m);
    assert CrossTalliedAt(out, e0.outAbove, e1.outAbove, e0.info.seg, e1.info.seg,
                          Inside(op, q), Inside(op, q.Toggle(e0.above)), Inside(op, u),
                          Crossed(out', f0.outAbove, f1.outAbove), m);
  }

  lemma AfterCross(op: Op, segs: set<Segment>, rest: multiset<End>, out: Store, q: Flags, e0: Edge, e1: Edge, f0: Edge,
                   f1: Edge, out': Store, a: multiset<End>, b: multiset<End>)
    requires CrossPost(segs, rest, out, e0.info.seg, e1.info.seg,
                       Inside(op, q), Inside(op, q.Toggle(e1.above)), Inside(op, q.Toggle(e1.above).Toggle(e0.above)),
                       Crossed(out', f0.outAbove, f1.outAbove))
    requires a <= rest && b <= rest
    ensures Valid(out) && Valid(out') && |out| <= |out'| && Undisturbed(a, out, out') && Undisturbed(b, out, out')
  {
    hide Traced, Inside;
  }

  lemma RaysAround(op: Op, p: Flags, a: seq<Strand>, x: Strand, y: Strand, b: seq<Strand>, out: Store, m: Probe)
    ensures var q := ParityAfter(p, a); var r := q.Toggle(x.flags);
            Rays(op, p, a + [x, y] + b, out, m)
            == Rays(op, p, a, out, m) + Ray(x.line, out, x.out, HeldSide(op, q), m)
             + Ray(y.line, out, y.out, HeldSide(op, r), m) + Rays(op, r.Toggle(y.flags), b, out, m)
  {
    hide Ray, HeldSide, ParityAfter;
    var q := ParityAfter(p, a);
    assert a + [x, y] + b == a + ([x] + ([y] + b));
    RaysConcat(op, p, a, [x] + ([y] + b), out, m);
    RaysFirst(op, q, x, [y] + b, out, m);
    RaysFirst(op, q.Toggle(x.flags), y, b, out, m);
  }
}
