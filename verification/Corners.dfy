/**
 How many vertices the sweep adds at an edge of a boundary and at a crossing of two neighbours, by
 the running parities.
 */
module Corners {
  import opened Base
  import opened Edges
  import opened Output
  import opened Strands
  import opened Boundary
  import opened CrossingStep
  import opened Conservation

  /** A crossing of neighbours, by the parity on their left. */
  function CornersBetween(op: Op, p: Flags, a: Flags, b: Flags): nat {
    CrossCorners(Inside(op, p), Inside(op, p.Toggle(a)), Inside(op, p.Toggle(b)), Inside(op, p.Toggle(a).Toggle(b)))
  }

  lemma NeighboursAdd(op: Op, segs: set<Segment>, rest: multiset<End>, out: Store, p: Flags, e0: Edge, e1: Edge,
                      pt: Point)
    requires Facing(op, segs, rest, out, p, e0, e1, pt)
    ensures Valid(out) && PointersOk(out, e0) && PointersOk(out, e1)
    ensures Adds(out, Cross(op, out, e0, e1, pt).0, pt, CornersBetween(op, p, e0.above, e1.above))
  {
    CrossIsEdit(op, segs, rest, out, p, e0, e1, pt);
    var lower, upper := p.Toggle(e0.above), p.Toggle(e1.above);
    Toggles(p, e0.above, e1.above);
    hide Adds, CrossEdit, Classify, CrossPre, CrossCorners, Cross, Inside, Flags.Toggle, Valid;
    var l, lo, up, ri := Inside(op, p), Inside(op, lower), Inside(op, upper), Inside(op, lower.Toggle(e1.above));
    CrossCounts(segs, rest, out, e0.outAbove, e1.outAbove, e0.info.seg, e1.info.seg, pt, l, lo, up, ri);
  }

  /** Two neighbours of a row cross. */
  lemma CrossRowAdds(op: Op, segs: set<Segment>, p: Flags, a: seq<Strand>, e0: Edge, e1: Edge, b: seq<Strand>,
                     out: Store, pt: Point)
    requires RowHeld(op, segs, p, a + [AboveStrand(e0), AboveStrand(e1)] + b, out)
    requires Sided(p, a + [AboveStrand(e0), AboveStrand(e1)] + b)
    requires e0.info.seg in segs && e1.info.seg in segs && e0.info.seg.Contains(pt) && e1.info.seg.Contains(pt)
    ensures Valid(out) && PointersOk(out, e0) && PointersOk(out, e1)
    ensures Adds(out, Cross(op, out, e0, e1, pt).0, pt, CornersBetween(op, ParityAfter(p, a), e0.above, e1.above))
  {
    hide RowHeld, Sided, Adds, Cross, Facing, CornersBetween, ParityAfter, Valid, Ends;
    var t := ParityAfter(p, a).Toggle(e0.above).Toggle(e1.above);
    RowFaces(op, segs, p, a, e0, e1, b, out, pt);
    NeighboursAdd(op, segs, Ends(op, p, a) + Ends(op, t, b), out, ParityAfter(p, a), e0, e1, pt);
  }

  /** Handling one edge adds what the occupancies around it call for. */
  lemma StepAdds(op: Op, segs: set<Segment>, yb: real, rest: multiset<End>, st: Scan, e: Edge, line: Segment)
    requires StepPre(op, segs, yb, rest, st, e, line) && Ready(op, st, e)
    ensures var p := ParityBelow(st);
            var tr, tl, br, bl := Inside(op, p), Inside(op, p.Toggle(e.below)), Inside(op, st.parity),
              Inside(op, st.parity.Toggle(e.above));
            var st' := Step(op, yb, st, e).0;
            && Adds(st.out, st'.out, Point(e.xb, yb),
                    EdgeCorners(tr, tl, br, bl, e.xb != st.px, e.BotY() == yb))
            && st'.px == if Bounds(tr, tl, br, bl) then e.xb else st.px
  {
    hide StepPre, Ready, Step, Inside, Adds, EdgeCorners, Bounds, Contributing, Flags.Toggle, Edit, Classify, EditPre,
      EditOk, Sound, Vertices;
    var p := ParityBelow(st);
    var tr, br := Inside(op, p), Inside(op, st.parity);
    AddsNone(st.out, Point(e.xb, yb));
    NothingThere(tr, br, e.xb != st.px, e.BotY() == yb);
    if (e.above.Any() || e.below.Any()) && Contributing(op, st, e) {
      Counted(op, segs, yb, rest, st, e, line);
      StepIsEdit(op, yb, st, e);
      EditCounts(segs, yb, rest, Count(st, e), e.(side := st.parity), line, tr, Inside(op, p.Toggle(e.below)), br,
        Inside(op, st.parity.Toggle(e.above)));
    } else {
      StepIsNothing(op, yb, st, e);
    }
  }

  lemma StepIsEdit(op: Op, yb: real, st: Scan, e: Edge)
    requires Ready(op, st, e) && (e.above.Any() || e.below.Any()) && Contributing(op, st, e)
    ensures var p := ParityBelow(st);
            var c := Classify(Inside(op, p), Inside(op, p.Toggle(e.below)), Inside(op, st.parity),
                              Inside(op, st.parity.Toggle(e.above)));
            && EditOk(c, Count(st, e), e.(side := st.parity))
            && Step(op, yb, st, e) == Edit(c, yb, Count(st, e), e.(side := st.parity))
            && Count(st, e).out == st.out && Count(st, e).px == st.px
  {
    hide Inside, Contributing, Flags.Toggle, Edit;
  }

  /** An edge that is passed over has no effect on the occupancies. */
  lemma StepIsNothing(op: Op, yb: real, st: Scan, e: Edge)
    requires Ready(op, st, e) && !((e.above.Any() || e.below.Any()) && Contributing(op, st, e))
    ensures Step(op, yb, st, e).0.out == st.out && Step(op, yb, st, e).0.px == st.px
    ensures Inside(op, ParityBelow(st)) == Inside(op, ParityBelow(st).Toggle(e.below))
    ensures Inside(op, st.parity) == Inside(op, st.parity.Toggle(e.above))
  {
    if e.above.Any() || e.below.Any() {
      PassedOver(op, st, e);
    } else {
      assert ParityBelow(st).Toggle(e.below) == ParityBelow(st) && st.parity.Toggle(e.above) == st.parity;
    }
    hide Contributing, Inside, Classify, Edit;
  }

  lemma NothingThere(tr: bool, br: bool, moves: bool, starts: bool)
    ensures EdgeCorners(tr, tr, br, br, moves, starts) == 0 && !Bounds(tr, tr, br, br)
  {
  }
}
