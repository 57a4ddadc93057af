/**
 What the contour edits of a boundary scan do to what every single contour counts below the
 boundary.
 */
module BoundaryTurning {
  import opened Base
  import opened Edges
  import opened Output
  import opened Strands
  import opened Boundary
  import opened Tally
  import opened BoundaryTally
  import opened Turning

  /** The end that a horizontal carries draws nothing below the boundary, whatever its line. */
  const NOWHERE := Segment(Point(0.0, 0.0), Point(0.0, 0.0), 0.0)

  /** The ends held when the scan reaches an edge, and when it leaves it; `a` are those held to
      the left, and `b` those to the right. */

  function Reaching(a: seq<Grip>, st: Scan, e: Edge, line: Segment, tr: bool, br: bool, b: seq<Grip>): seq<Grip> {
    a + (GripOf(st.cf, SideAt(br), NOWHERE) + GripOf(e.outBelow, SideAt(tr), line)) + b
  }

  function Leaving(a: seq<Grip>, st: Scan, e: Edge, br: bool, bl: bool, b: seq<Grip>): seq<Grip> {
    a + (GripOf(e.outAbove, SideAt(br), e.info.seg) + GripOf(st.cf, SideAt(bl), NOWHERE)) + b
  }

  /** Below the boundary, the edit keeps contours beside and within one another. */
  ghost predicate Turned(a: seq<Grip>, b: seq<Grip>, line: Segment, st: Scan, e: Edge, tr: bool, br: bool, bl: bool,
                         r: (Scan, Edge), q: Probe) {
    Planar(Reaching(a, st, e, line, tr, br, b), st.out, q) ==> Planar(Leaving(a, r.0, r.1, br, bl, b), r.0.out, q)
  }

  /** The end carried along the boundary is extended to the edge. */
  lemma EndTouched(rest: multiset<End>, a: seq<Grip>, g: Grip, b: seq<Grip>, out: Store, px: real, pt: Point,
                   line: Segment, q: Probe)
    requires Owned(rest + multiset{g.end}, out) && Held(a, rest) && Held(b, rest)
    requires g.end.poly < |out| && Valid(out) && EndVertex(out, g.end) == Point(px, pt.y) && Below(q, pt.y)
    requires Planar(a + [g] + b, out, q)
    ensures Planar(a + [Grip(g.end, line)] + b, Touch(out, g.end, px, pt), q)
  {
    hide Owned, Planar, Held, Hit, RayHit;
    FreshGrip(g, out, q);
    if pt.x != px {
      HitBothWays(EndVertex(out, g.end), pt, q);
      EndMoves(rest, a, g, b, out, pt, line, q);
    } else {
      FreshGrip(Grip(g.end, line), out, q);
      EndTurns(a, g, b, out, line, q);
    }
  }

  lemma IsOwned(segs: set<Segment>, held: multiset<End>, s: Store)
    requires Sound(segs, held, s)
    ensures Owned(held, s) && Valid(s)
  {
  }

  lemma OneGrip(a: seq<Grip>, g: Grip, b: seq<Grip>)
    ensures a + ([g] + []) + b == a + [g] + b && a + ([] + [g]) + b == a + [g] + b
  {
  }

  lemma TurnsUpTurned(segs: set<Segment>, yb: real, rest: multiset<End>, st: Scan, e: Edge, line: Segment, o: bool,
                      a: seq<Grip>, b: seq<Grip>, q: Probe)
    requires EditPre(segs, yb, rest, st, e, line, !o, !o, o) && Held(a, rest) && Held(b, rest) && Below(q, yb)
    ensures Turned(a, b, line, st, e, !o, o, !o, Edit(if o then ERI else ILI, yb, st, e), q)
  {
    hide Planar, Held, Traced, Owned, Touch, EndVertex;
    var held, pt := End(st.cf.value, SideAt(o)), Point(e.xb, yb);
    assert rest + EndOf(e.outBelow, SideAt(!o)) + EndOf(st.cf, SideAt(o)) == rest + multiset{held};
    IsOwned(segs, rest + multiset{held}, st.out);
    TurnsUpIs(yb, st, e, o);
    if Planar(Reaching(a, st, e, line, !o, o, b), st.out, q) {
      OneGrip(a, Grip(held, NOWHERE), b);
      OneGrip(a, Grip(held, e.info.seg), b);
      EndTouched(rest, a, Grip(held, NOWHERE), b, st.out, st.px, pt, e.info.seg, q);
    }
  }

  lemma TurnsAcrossTurned(segs: set<Segment>, yb: real, rest: multiset<End>, st: Scan, e: Edge, line: Segment, o: bool,
                          a: seq<Grip>, b: seq<Grip>, q: Probe)
    requires EditPre(segs, yb, rest, st, e, line, o, !o, o) && Held(a, rest) && Held(b, rest) && Below(q, yb)
    requires UpTo(st.out, yb)
    ensures Turned(a, b, line, st, e, o, o, o, Edit(if o then IRI else ELI, yb, st, e), q)
  {
    hide Planar, Held, Traced, Owned, Add, EndVertex, UpTo;
    var held, pt := End(e.outBelow.value, SideAt(o)), Point(e.xb, yb);
    assert rest + EndOf(e.outBelow, SideAt(o)) + EndOf(st.cf, SideAt(o)) == rest + multiset{held};
    IsOwned(segs, rest + multiset{held}, st.out);
    TurnsAcrossIs(yb, st, e, o);
    if Planar(Reaching(a, st, e, line, o, o, b), st.out, q) {
      OneGrip(a, Grip(held, line), b);
      OneGrip(a, Grip(held, NOWHERE), b);
      EndReaches(rest, a, Grip(held, line), b, st.out, pt, NOWHERE, q);
    }
  }

  lemma GoesOnTurned(segs: set<Segment>, yb: real, rest: multiset<End>, st: Scan, e: Edge, line: Segment, o: bool,
                     a: seq<Grip>, b: seq<Grip>, q: Probe)
    requires EditPre(segs, yb, rest, st, e, line, o, !o, o) && Held(a, rest) && Held(b, rest) && Below(q, yb)
    requires UpTo(st.out, yb)
    ensures Turned(a, b, line, st, e, o, o, !o, Edit(if o then RED else LED, yb, st, e), q)
  {
    hide Planar, Held, Traced, Owned, Add, EndVertex, UpTo;
    var held, pt := End(e.outBelow.value, SideAt(o)), Point(e.xb, yb);
    assert rest + EndOf(e.outBelow, SideAt(o)) + EndOf(st.cf, SideAt(o)) == rest + multiset{held};
    IsOwned(segs, rest + multiset{held}, st.out);
    GoesOnIs(yb, st, e, o);
    if Planar(Reaching(a, st, e, line, o, o, b), st.out, q) {
      OneGrip(a, Grip(held, line), b);
      OneGrip(a, Grip(held, e.info.seg), b);
      if e.BotY() == yb {
        EndReaches(rest, a, Grip(held, line), b, st.out, pt, e.info.seg, q);
      }
    }
  }

  lemma NoGrips(a: seq<Grip>, g: Grip, h: Grip, b: seq<Grip>)
    ensures a + ([] + []) + b == a + b && a + ([g] + [h]) + b == a + [g, h] + b
  {
  }

  lemma StartsTurned(segs: set<Segment>, yb: real, rest: multiset<End>, st: Scan, e: Edge, line: Segment, o: bool,
                     a: seq<Grip>, b: seq<Grip>, q: Probe)
    requires EditPre(segs, yb, rest, st, e, line, o, o, o) && Held(a, rest) && Held(b, rest) && Below(q, yb)
    ensures Turned(a, b, line, st, e, o, o, !o, Edit(if o then IMN else EMN, yb, st, e), q)
  {
    hide Planar, Held, Traced, Owned, EndVertex, AddLocalMin;
    var n, pt := |st.out|, Point(e.xb, yb);
    var g, h := Grip(End(n, SideAt(o)), e.info.seg), Grip(End(n, SideAt(!o)), NOWHERE);
    assert rest + EndOf(e.outBelow, SideAt(o)) + EndOf(st.cf, SideAt(o)) == rest;
    IsOwned(segs, rest, st.out);
    if Planar(Reaching(a, st, e, line, o, o, b), st.out, q) {
      NoGrips(a, g, h, b);
      EndsStart(rest, a, b, st.out, pt, SideAt(o), e.info.seg, NOWHERE, q);
    }
  }

  /** The horizontal's end is joined with the edge's lower end. */
  lemma MeetTurned(segs: set<Segment>, yb: real, rest: multiset<End>, st: Scan, e: Edge, line: Segment, o: bool,
                   a: seq<Grip>, b: seq<Grip>, q: Probe)
    requires EditPre(segs, yb, rest, st, e, line, !o, o, o) && Held(a, rest) && Held(b, rest) && Below(q, yb)
    requires UpTo(st.out, yb) && Valid(st.out)
    requires st.cf.Some? && e.outBelow.Some? && st.cf.value < |st.out| && e.outBelow.value < |st.out|
    requires Planar(Reaching(a, st, e, line, !o, o, b), st.out, q)
    ensures var t := Touch(st.out, End(st.cf.value, SideAt(o)), st.px, Point(e.xb, yb));
            |t| == |st.out| && Valid(t) && Planar(a + b, Merge(t, st.cf.value, e.outBelow.value, SideAt(o)), q)
  {
    hide Planar, Traced, Owned, EndVertex, UpTo, Merge, Touch;
    var pt := Point(e.xb, yb);
    var c, d := End(st.cf.value, SideAt(o)), End(e.outBelow.value, SideAt(!o));
    var g, h := Grip(c, NOWHERE), Grip(d, line);
    var held := rest + multiset{d};
    assert rest + EndOf(e.outBelow, SideAt(!o)) + EndOf(st.cf, SideAt(o)) == held + multiset{c};
    IsOwned(segs, held + multiset{c}, st.out);
    assert OnSide(segs, pt);
    TouchSound(segs, held, st.out, c, st.px, pt);
    TouchTally(segs, held, st.out, c, st.px, pt);
    var t := Touch(st.out, c, st.px, pt);
    IsOwned(segs, held + multiset{c}, t);
    assert d in held;
    assert EndVertex(t, d) == EndVertex(st.out, d);
    NoGrips(a, g, h, b);
    assert a + [g, h] + b == a + [g] + ([h] + b);
    EndTouched(held, a, g, [h] + b, st.out, st.px, pt, NOWHERE, q);
    assert held + multiset{c} == rest + multiset{c, d};
    EndsMeetAt(rest, a, g, h, b, t, pt, q);
  }

  /** What the cases that join two ends leave. */
  lemma MeetsLeaves(segs: set<Segment>, yb: real, rest: multiset<End>, st: Scan, e: Edge, line: Segment, o: bool,
                    starts: bool, a: seq<Grip>, b: seq<Grip>)
    requires EditPre(segs, yb, rest, st, e, line, !o, o, o)
    ensures Valid(st.out) && st.cf.Some? && st.cf.value < |st.out| && e.outBelow.Some? && e.outBelow.value < |st.out|
    ensures var c := if starts then if o then IMM else EMM else if o then IMX else EMX;
            var t := Touch(st.out, End(st.cf.value, SideAt(o)), st.px, Point(e.xb, yb));
            && Valid(t) && |t| == |st.out|
            && var s := Merge(t, st.cf.value, e.outBelow.value, SideAt(o));
               var (st', e') := Edit(c, yb, st, e);
               && st'.out == (if starts then AddLocalMin(s, Point(e.xb, yb)) else s)
               && Leaving(a, st', e', o, o != starts, b) ==
                  if starts then
                    a + [Grip(End(|s|, SideAt(o)), e.info.seg), Grip(End(|s|, SideAt(!o)), NOWHERE)] + b
                  else a + b
  {
    MeetingEnds(segs, yb, rest, st, e, line, o);
    MeetsIs(yb, st, e, o, starts);
    MeetsPointers(segs, yb, rest, st, e, line, o, starts);
    hide EditPre, Edit, Touch, Merge, AddLocalMin, Valid;
    var t := Touch(st.out, End(st.cf.value, SideAt(o)), st.px, Point(e.xb, yb));
    var n := |t|;
    NoGrips(a, Grip(End(n, SideAt(o)), e.info.seg), Grip(End(n, SideAt(!o)), NOWHERE), b);
  }

  lemma MeetsPointers(segs: set<Segment>, yb: real, rest: multiset<End>, st: Scan, e: Edge, line: Segment, o: bool,
                      starts: bool)
    requires EditPre(segs, yb, rest, st, e, line, !o, o, o)
    requires Valid(st.out) && st.cf.Some? && st.cf.value < |st.out|
    requires e.outBelow.Some? && e.outBelow.value < |st.out|
    ensures var c := if starts then if o then IMM else EMM else if o then IMX else EMX;
            var (st', e') := Edit(c, yb, st, e);
            && c == Classify(!o, o, o, o != starts) && e'.info == e.info
            && st'.cf == e'.outAbove == if starts then Some(|st.out|) else None
  {
    hide Sound, Strung, Touch, MergeLeft, MergeRight, AddLocalMin;
  }

  lemma MeetsTurned(segs: set<Segment>, yb: real, rest: multiset<End>, st: Scan, e: Edge, line: Segment, o: bool,
                    a: seq<Grip>, b: seq<Grip>, q: Probe)
    requires EditPre(segs, yb, rest, st, e, line, !o, o, o) && Held(a, rest) && Held(b, rest) && Below(q, yb)
    requires UpTo(st.out, yb)
    ensures Turned(a, b, line, st, e, !o, o, o, Edit(if o then IMX else EMX, yb, st, e), q)
  {
    MeetsLeaves(segs, yb, rest, st, e, line, o, false, a, b);
    hide EditPre, Planar, Held, UpTo, Merge, Touch, Edit, Reaching, Leaving, Valid;
    if Planar(Reaching(a, st, e, line, !o, o, b), st.out, q) {
      MeetTurned(segs, yb, rest, st, e, line, o, a, b, q);
    }
  }

  lemma MeetsAndStartsTurned(segs: set<Segment>, yb: real, rest: multiset<End>, st: Scan, e: Edge, line: Segment,
                             o: bool, a: seq<Grip>, b: seq<Grip>, q: Probe)
    requires EditPre(segs, yb, rest, st, e, line, !o, o, o) && Held(a, rest) && Held(b, rest) && Below(q, yb)
    requires UpTo(st.out, yb)
    ensures Turned(a, b, line, st, e, !o, o, !o, Edit(if o then IMM else EMM, yb, st, e), q)
  {
    MeetsLeaves(segs, yb, rest, st, e, line, o, true, a, b);
    Boundary.Meet(segs, yb, rest, st, e, line, o);
    hide EditPre, Planar, Held, UpTo, Merge, Touch, Edit, Reaching, Leaving, Valid, Owned, AddLocalMin, Undisturbed,
      Traced;
    var t := Touch(st.out, End(st.cf.value, SideAt(o)), st.px, Point(e.xb, yb));
    var s := Merge(t, st.cf.value, e.outBelow.value, SideAt(o));
    IsOwned(segs, rest, s);
    if Planar(Reaching(a, st, e, line, !o, o, b), st.out, q) {
      MeetTurned(segs, yb, rest, st, e, line, o, a, b, q);
      EndsStart(rest, a, b, s, Point(e.xb, yb), SideAt(o), e.info.seg, NOWHERE, q);
      assert Other(SideAt(o)) == SideAt(!o);
    }
  }

  lemma PassesTurned(a: seq<Grip>, b: seq<Grip>, line: Segment, segs: set<Segment>, yb: real, rest: multiset<End>,
                     st: Scan, e: Edge, below: bool, above: bool, q: Probe)
    requires EditPre(segs, yb, rest, st, e, line, below, below, above)
    ensures Turned(a, b, line, st, e, below, above, above, (st, e), q)
  {
    hide Planar, Sound;
    var l := GripOf(st.cf, SideAt(above), NOWHERE);
    assert l + [] == l && [] + l == l;
  }

  /** Whatever its class, the edit keeps contours beside and within one another. */
  lemma EditTurned(segs: set<Segment>, yb: real, rest: multiset<End>, st: Scan, e: Edge, line: Segment,
                   tr: bool, tl: bool, br: bool, bl: bool, a: seq<Grip>, b: seq<Grip>, q: Probe)
    requires EditPre(segs, yb, rest, st, e, line, tr, tl, br) && UpTo(st.out, yb)
    requires Held(a, rest) && Held(b, rest) && Below(q, yb)
    ensures Valid(st.out)
    ensures var c := Classify(tr, tl, br, bl);
            && (c in {ERI, EMX, ILI, IMX, IMM, EMM} ==> st.cf.Some? && st.cf.value < |st.out|)
            && (c in {ELI, EMX, IRI, IMX, IMM, EMM, LED, RED} ==> e.outBelow.Some? && e.outBelow.value < |st.out|)
            && Turned(a, b, line, st, e, tr, br, bl, Edit(c, yb, st, e), q)
  {
    hide Turned, UpTo, Edit, Held, EditPre;
    Pointers(segs, yb, rest, st, e, line, tr, tl, br);
    if br == bl && tr == tl {
      PassesTurned(a, b, line, segs, yb, rest, st, e, tr, br, q);
      EditNothing(yb, st, e, tr, br);
    } else if br == bl {
      if br == tr {
        TurnsAcrossTurned(segs, yb, rest, st, e, line, br, a, b, q);
      } else {
        MeetsTurned(segs, yb, rest, st, e, line, br, a, b, q);
      }
    } else if tr == tl {
      if br == tr {
        StartsTurned(segs, yb, rest, st, e, line, br, a, b, q);
      } else {
        TurnsUpTurned(segs, yb, rest, st, e, line, br, a, b, q);
      }
    } else {
      if br == tr {
        GoesOnTurned(segs, yb, rest, st, e, line, br, a, b, q);
      } else {
        MeetsAndStartsTurned(segs, yb, rest, st, e, line, br, a, b, q);
      }
    }
  }

  /** Handling one edge keeps contours beside and within one another. */
  lemma StepTurned(op: Op, segs: set<Segment>, yb: real, rest: multiset<End>, st: Scan, e: Edge, line: Segment,
                   a: seq<Grip>, b: seq<Grip>, q: Probe)
    requires StepPre(op, segs, yb, rest, st, e, line) && UpTo(st.out, yb)
    requires Ready(op, st, e) && Held(a, rest) && Held(b, rest) && Below(q, yb)
    ensures Turned(a, b, line, st, e, Inside(op, ParityBelow(st)), Inside(op, st.parity),
                   Inside(op, st.parity.Toggle(e.above)), Step(op, yb, st, e), q)
  {
    hide Edit, UpTo, EditPre, Inside, Contributing, Classify, Sound, Count, Held, Planar;
    var p := ParityBelow(st);
    var tr, tl, br, bl := Inside(op, p), Inside(op, p.Toggle(e.below)), Inside(op, st.parity),
      Inside(op, st.parity.Toggle(e.above));
    var (st', e') := (Count(st, e), e.(side := st.parity));
    if !e.above.Any() && !e.below.Any() {
      assert p.Toggle(e.below) == p && st.parity.Toggle(e.above) == st.parity;
      assert EditPre(segs, yb, rest, st, e, line, tr, tr, br);
      PassesTurned(a, b, line, segs, yb, rest, st, e, tr, br, q);
    } else {
      Counted(op, segs, yb, rest, st, e, line);
      CountedReaching(a, st, e, line, tr, br, b);
      if Contributing(op, st, e) {
        EditTurned(segs, yb, rest, st', e', line, tr, tl, br, bl, a, b, q);
      } else {
        PassedOver(op, st, e);
        PassesTurned(a, b, line, segs, yb, rest, st', e', tr, br, q);
      }
    }
  }

  lemma CountedReaching(a: seq<Grip>, st: Scan, e: Edge, line: Segment, tr: bool, br: bool, b: seq<Grip>)
    ensures Reaching(a, Count(st, e), e.(side := st.parity), line, tr, br, b) == Reaching(a, st, e, line, tr, br, b)
  {
  }
}
