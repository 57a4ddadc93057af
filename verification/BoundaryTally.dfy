/**
 What the contour edits of a boundary scan do to the count of sides: below the boundary
 every side and every ray stays where it was.
 */
module BoundaryTally {
  import opened Base
  import opened Edges
  import opened Output
  import opened Strands
  import opened Boundary
  import opened Tally

  /** Below the boundary, the edit leaves the count as it was; `tr` and `br` are the
      occupancies to the left of the edge. */
  ghost predicate Tallied(yb: real, line: Segment, st: Scan, e: Edge, tr: bool, br: bool, r: (Scan, Edge)) {
    UpTo(r.0.out, yb) && forall q :: Below(q, yb) ==> TalliedAt(line, st, e, tr, br, r, q)
  }

  ghost predicate TalliedAt(line: Segment, st: Scan, e: Edge, tr: bool, br: bool, r: (Scan, Edge), q: Probe) {
    Hits(r.0.out, q) + Ray(e.info.seg, r.0.out, r.1.outAbove, SideAt(br), q)
    == Hits(st.out, q) + Ray(line, st.out, e.outBelow, SideAt(tr), q)
  }

  lemma TouchTally(segs: set<Segment>, rest: multiset<End>, s: Store, e: End, px: real, pt: Point)
    requires Sound(segs, rest + multiset{e}, s) && UpTo(s, pt.y)
    requires e.poly < |s| && EndVertex(s, e) == Point(px, pt.y)
    ensures UpTo(Touch(s, e, px, pt), pt.y)
    ensures forall q :: Hits(Touch(s, e, px, pt), q) == Hits(s, q)
  {
    hide Hits, Hit, Add, Traced;
    IsOpen(segs, rest, s, e);
    if pt.x != px {
      AddUpTo(s, e, pt, pt.y);
      forall q
        ensures Hits(Add(s, e, pt), q) == Hits(s, q)
      {
        AddHits(s, e, pt, q);
        HitBothWays(EndVertex(s, e), pt, q);
      }
    }
  }

  lemma IsOpen(segs: set<Segment>, rest: multiset<End>, s: Store, e: End)
    requires Sound(segs, rest + multiset{e}, s)
    ensures e.poly < |s| && Valid(s) && Open(s, Rep(s, e))
  {
    var held := rest + multiset{e};
    assert e in held && Holds(held, s, e);
  }

  /** A vertex of the boundary's height has no ray below it. */
  lemma FreshRay(line: Segment, s: Store, o: Option<nat>, side: Side, yb: real)
    requires o.Some? ==> Valid(s) && o.value < |s| && EndVertex(s, End(o.value, side)).y == yb
    ensures forall q :: Below(q, yb) ==> Ray(line, s, o, side, q) == 0
  {
  }

  lemma TallyTurnsUp(segs: set<Segment>, yb: real, rest: multiset<End>, st: Scan, e: Edge, line: Segment, o: bool)
    requires EditPre(segs, yb, rest, st, e, line, !o, !o, o) && UpTo(st.out, yb)
    ensures Tallied(yb, line, st, e, !o, o, Edit(if o then ERI else ILI, yb, st, e))
  {
    hide Hits, UpTo, Traced, Ray;
    var (st', e') := Edit(if o then ERI else ILI, yb, st, e);
    var held := End(st.cf.value, SideAt(o));
    var pt := Point(e.xb, yb);
    assert rest + EndOf(e.outBelow, SideAt(!o)) + EndOf(st.cf, SideAt(o)) == rest + multiset{held};
    assert OnSide(segs, pt);
    TouchSound(segs, rest, st.out, held, st.px, pt);
    TouchTally(segs, rest, st.out, held, st.px, pt);
    assert st'.out == Touch(st.out, held, st.px, pt);
    FreshRay(e.info.seg, st'.out, e'.outAbove, SideAt(o), yb);
    FreshRay(line, st.out, e.outBelow, SideAt(!o), yb);
  }

  /** The edge's lower end is extended to the boundary. */
  lemma Reached(segs: set<Segment>, yb: real, rest: multiset<End>, s: Store, line: Segment, held: End, pt: Point)
    requires Sound(segs, rest + multiset{held}, s) && UpTo(s, yb) && pt.y == yb
    requires held.poly < |s| && line.Contains(EndVertex(s, held)) && line.Contains(pt)
    ensures UpTo(Add(s, held, pt), yb)
    ensures forall q :: Below(q, yb) ==>
      Hits(Add(s, held, pt), q) == Hits(s, q) + Ray(line, s, Some(held.poly), held.side, q)
  {
    hide Hits, Hit, Add, Traced, UpTo, RayHit;
    IsOpen(segs, rest, s, held);
    EndUpTo(s, held, yb);
    AddUpTo(s, held, pt, yb);
    forall q | Below(q, yb)
      ensures Hits(Add(s, held, pt), q) == Hits(s, q) + Ray(line, s, Some(held.poly), held.side, q)
    {
      AddHits(s, held, pt, q);
      RayBecomesSide(line, EndVertex(s, held), pt, held.side, q);
    }
  }

  lemma TallyTurnsAcross(segs: set<Segment>, yb: real, rest: multiset<End>, st: Scan, e: Edge, line: Segment, o: bool)
    requires EditPre(segs, yb, rest, st, e, line, o, !o, o) && UpTo(st.out, yb)
    ensures Tallied(yb, line, st, e, o, o, Edit(if o then IRI else ELI, yb, st, e))
  {
    hide Hits, UpTo, Traced, Ray, Owned;
    var (st', e') := Edit(if o then IRI else ELI, yb, st, e);
    var held := End(e.outBelow.value, SideAt(o));
    assert rest + EndOf(e.outBelow, SideAt(o)) + EndOf(st.cf, SideAt(o)) == rest + multiset{held};
    Reached(segs, yb, rest, st.out, line, held, Point(e.xb, yb));
    assert st'.out == Add(st.out, held, Point(e.xb, yb));
    FreshRay(e.info.seg, st'.out, e'.outAbove, SideAt(o), yb);
  }

  lemma TallyGoesOn(segs: set<Segment>, yb: real, rest: multiset<End>, st: Scan, e: Edge, line: Segment, o: bool)
    requires EditPre(segs, yb, rest, st, e, line, o, !o, o) && UpTo(st.out, yb)
    ensures Tallied(yb, line, st, e, o, o, Edit(if o then RED else LED, yb, st, e))
  {
    hide Hits, UpTo, Traced, Ray, Owned;
    var (st', e') := Edit(if o then RED else LED, yb, st, e);
    var held := End(e.outBelow.value, SideAt(o));
    var pt := Point(e.xb, yb);
    assert rest + EndOf(e.outBelow, SideAt(o)) + EndOf(st.cf, SideAt(o)) == rest + multiset{held};
    if e.BotY() == yb {
      Reached(segs, yb, rest, st.out, line, held, pt);
      IsOpen(segs, rest, st.out, held);
      AddKeepsOthers(st.out, held, pt);
      assert st'.out == Add(st.out, held, pt);
      FreshRay(e.info.seg, st'.out, e'.outAbove, SideAt(o), yb);
    }
  }

  lemma TallyStarts(segs: set<Segment>, yb: real, rest: multiset<End>, st: Scan, e: Edge, line: Segment, o: bool)
    requires EditPre(segs, yb, rest, st, e, line, o, o, o) && UpTo(st.out, yb)
    ensures Tallied(yb, line, st, e, o, o, Edit(if o then IMN else EMN, yb, st, e))
  {
    hide Hits, UpTo, Traced, Ray, Owned;
    Pointers(segs, yb, rest, st, e, line, o, o, o);
    var (st', e') := Edit(if o then IMN else EMN, yb, st, e);
    Started(segs, yb, st.out, Point(e.xb, yb), e.info.seg, SideAt(o));
    FreshRay(line, st.out, e.outBelow, SideAt(o), yb);
  }

  lemma Started(segs: set<Segment>, yb: real, s: Store, pt: Point, line: Segment, side: Side)
    requires Valid(s) && UpTo(s, yb) && pt.y == yb
    ensures UpTo(AddLocalMin(s, pt), yb)
    ensures forall q :: Below(q, yb) ==>
      Hits(AddLocalMin(s, pt), q) == Hits(s, q) && Ray(line, AddLocalMin(s, pt), Some(|s|), side, q) == 0
  {
    hide Hits, UpTo, Ray;
    StartUpTo(s, pt, yb);
    FreshRay(line, AddLocalMin(s, pt), Some(|s|), side, yb);
    forall q
      ensures Hits(AddLocalMin(s, pt), q) == Hits(s, q)
    {
      StartHits(s, pt, q);
    }
  }

  /** The horizontal's end is joined with the edge's lower end. */
  lemma TallyMeet(segs: set<Segment>, yb: real, rest: multiset<End>, st: Scan, e: Edge, line: Segment, o: bool)
    requires EditPre(segs, yb, rest, st, e, line, !o, o, o) && UpTo(st.out, yb)
    requires st.cf.Some? && e.outBelow.Some? && st.cf.value < |st.out| && e.outBelow.value < |st.out| && Valid(st.out)
    ensures var t := Touch(st.out, End(st.cf.value, SideAt(o)), st.px, Point(e.xb, yb));
            && |t| == |st.out| && Valid(t)
            && var s := Merge(t, st.cf.value, e.outBelow.value, SideAt(o));
               && UpTo(s, yb)
               && forall q :: Below(q, yb) ==>
                    Hits(s, q) == Hits(st.out, q) + Ray(line, st.out, e.outBelow, SideAt(!o), q)
  {
    hide Hits, Hit, UpTo, Traced, RayHit, Merge;
    var pt := Point(e.xb, yb);
    var a, b := End(st.cf.value, SideAt(o)), End(e.outBelow.value, SideAt(!o));
    var held := rest + multiset{b};
    assert rest + EndOf(e.outBelow, SideAt(!o)) + EndOf(st.cf, SideAt(o)) == held + multiset{a};
    assert OnSide(segs, pt);
    TouchSound(segs, held, st.out, a, st.px, pt);
    TouchTally(segs, held, st.out, a, st.px, pt);
    var t := Touch(st.out, a, st.px, pt);
    assert b in held;
    assert EndVertex(t, b) == EndVertex(st.out, b);
    IsOpen(segs, held, t, a);
    assert held + multiset{a} == rest + multiset{a} + multiset{b};
    IsOpen(segs, rest + multiset{a}, t, b);
    JoinUpTo(t, a.poly, b.poly, a.side, yb);
    EndUpTo(st.out, b, yb);
    forall q | Below(q, yb)
      ensures Hits(Merge(t, a.poly, b.poly, a.side), q)
              == Hits(st.out, q) + Ray(line, st.out, e.outBelow, SideAt(!o), q)
    {
      JoinHits(t, a.poly, b.poly, a.side, q);
      RayBecomesSide(line, EndVertex(st.out, b), pt, b.side, q);
    }
  }

  lemma TallyMeets(segs: set<Segment>, yb: real, rest: multiset<End>, st: Scan, e: Edge, line: Segment, o: bool)
    requires EditPre(segs, yb, rest, st, e, line, !o, o, o) && UpTo(st.out, yb)
    ensures Tallied(yb, line, st, e, !o, o, Edit(if o then IMX else EMX, yb, st, e))
  {
    hide Sound, Along, MergeLeft, MergeRight, AddLeft, AddRight, AddLocalMin, Undisturbed, EndVertex, Hits, UpTo;
    var (st', e') := Edit(if o then IMX else EMX, yb, st, e);
    Meet(segs, yb, rest, st, e, line, o);
    TallyMeet(segs, yb, rest, st, e, line, o);
    var t := Touch(st.out, End(st.cf.value, SideAt(o)), st.px, Point(e.xb, yb));
    assert st'.out == Merge(t, st.cf.value, e.outBelow.value, SideAt(o));
    assert e'.outAbove.None?;
  }

  lemma TallyMeetsAndStarts(segs: set<Segment>, yb: real, rest: multiset<End>, st: Scan, e: Edge, line: Segment,
                            o: bool)
    requires EditPre(segs, yb, rest, st, e, line, !o, o, o) && UpTo(st.out, yb)
    ensures Tallied(yb, line, st, e, !o, o, Edit(if o then IMM else EMM, yb, st, e))
  {
    hide Along, MergeLeft, MergeRight, AddLeft, AddRight, AddLocalMin, Undisturbed, EndVertex, Hits, UpTo, Traced, Ray;
    var (st', e') := Edit(if o then IMM else EMM, yb, st, e);
    Meet(segs, yb, rest, st, e, line, o);
    TallyMeet(segs, yb, rest, st, e, line, o);
    var t := Touch(st.out, End(st.cf.value, SideAt(o)), st.px, Point(e.xb, yb));
    var s := Merge(t, st.cf.value, e.outBelow.value, SideAt(o));
    Started(segs, yb, s, Point(e.xb, yb), e.info.seg, SideAt(o));
    assert st'.out == AddLocalMin(s, Point(e.xb, yb)) && e'.outAbove == Some(|s|);
  }

  lemma TallyPasses(segs: set<Segment>, yb: real, rest: multiset<End>, st: Scan, e: Edge, line: Segment,
                    below: bool, above: bool)
    requires EditPre(segs, yb, rest, st, e, line, below, below, above) && UpTo(st.out, yb)
    ensures Tallied(yb, line, st, e, below, above, (st, e))
  {
    hide Hits, UpTo, Sound;
  }

  /** Whatever its class, the edit leaves the count below the boundary as it was. */
  lemma EditTallied(segs: set<Segment>, yb: real, rest: multiset<End>, st: Scan, e: Edge, line: Segment,
                    tr: bool, tl: bool, br: bool, bl: bool)
    requires EditPre(segs, yb, rest, st, e, line, tr, tl, br) && UpTo(st.out, yb)
    ensures Valid(st.out)
    ensures var c := Classify(tr, tl, br, bl);
            && (c in {ERI, EMX, ILI, IMX, IMM, EMM} ==> st.cf.Some? && st.cf.value < |st.out|)
            && (c in {ELI, EMX, IRI, IMX, IMM, EMM, LED, RED} ==> e.outBelow.Some? && e.outBelow.value < |st.out|)
            && Tallied(yb, line, st, e, tr, br, Edit(c, yb, st, e))
  {
    hide Tallied, UpTo, Edit;
    Pointers(segs, yb, rest, st, e, line, tr, tl, br);
    if br == bl && tr == tl {
      TallyPasses(segs, yb, rest, st, e, line, tr, br);
      EditNothing(yb, st, e, tr, br);
    } else if br == bl {
      if br == tr {
        TallyTurnsAcross(segs, yb, rest, st, e, line, br);
      } else {
        TallyMeets(segs, yb, rest, st, e, line, br);
      }
    } else if tr == tl {
      if br == tr {
        TallyStarts(segs, yb, rest, st, e, line, br);
      } else {
        TallyTurnsUp(segs, yb, rest, st, e, line, br);
      }
    } else {
      if br == tr {
        TallyGoesOn(segs, yb, rest, st, e, line, br);
      } else {
        TallyMeetsAndStarts(segs, yb, rest, st, e, line, br);
      }
    }
  }

  lemma EditNothing(yb: real, st: Scan, e: Edge, below: bool, above: bool)
    requires Valid(st.out)
    ensures Edit(Classify(below, below, above, above), yb, st, e) == (st, e)
  {
  }

  lemma Pointers(segs: set<Segment>, yb: real, rest: multiset<End>, st: Scan, e: Edge, line: Segment,
                 tr: bool, tl: bool, br: bool)
    requires EditPre(segs, yb, rest, st, e, line, tr, tl, br)
    ensures Valid(st.out)
    ensures tr != br ==> st.cf.Some? && st.cf.value < |st.out|
    ensures tr != tl ==> e.outBelow.Some? && e.outBelow.value < |st.out|
  {
    hide Traced;
  }

  /** Handling one edge leaves the count below the boundary as it was. */
  lemma StepTallied(op: Op, segs: set<Segment>, yb: real, rest: multiset<End>, st: Scan, e: Edge, line: Segment)
    requires StepPre(op, segs, yb, rest, st, e, line) && UpTo(st.out, yb)
    requires Ready(op, st, e)
    ensures Tallied(yb, line, st, e, Inside(op, ParityBelow(st)), Inside(op, st.parity), Step(op, yb, st, e))
  {
    hide Edit, UpTo, Hits, Ray, EditPre, Inside, Contributing, Classify, Sound, Count;
    var p := ParityBelow(st);
    var tr, tl, br, bl := Inside(op, p), Inside(op, p.Toggle(e.below)), Inside(op, st.parity),
      Inside(op, st.parity.Toggle(e.above));
    var (st', e') := (Count(st, e), e.(side := st.parity));
    if !e.above.Any() && !e.below.Any() {
      assert p.Toggle(e.below) == p;
      assert EditPre(segs, yb, rest, st, e, line, tr, tr, br);
      TallyPasses(segs, yb, rest, st, e, line, tr, br);
    } else {
      Counted(op, segs, yb, rest, st, e, line);
      if Contributing(op, st, e) {
        EditTallied(segs, yb, rest, st', e', line, tr, tl, br, bl);
      } else {
        PassedOver(op, st, e);
        TallyPasses(segs, yb, rest, st', e', line, tr, br);
      }
    }
  }
}
