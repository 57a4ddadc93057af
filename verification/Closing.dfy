/**
 Where contours are closed.  Only a merge of a contour's own two ends closes it, and at that
 moment the occupancy of the region below, between the two ends, decides whether it is a hole.
 */
module Closing {
  import opened Base
  import opened Edges
  import opened Output
  import opened Strands
  import opened Boundary
  import opened CrossingStep
  import opened Corners

  /** Two ends of one contour meet at `pt`, and it becomes a hole or not. */
  datatype Meeting = Meeting(pt: Point, hole: bool)

  /** The vertex at the end that came to the other: a hole's right end, otherwise the left end. */
  function ClosingVertex(c: Poly): Point
    requires c.verts != []
  {
    if c.hole == Some(true) then c.verts[|c.verts| - 1] else c.verts[0]
  }

  predicate NewlyClosed(s: Store, t: Store, r: nat) {
    r < |t| && t[r].closed && !(r < |s| && s[r].closed)
  }

  predicate MetIn(c: Poly, meets: set<Meeting>) {
    c.verts != [] && c.hole.Some? && Meeting(ClosingVertex(c), c.hole.value) in meets
  }

  /** Closed contours stay as they are, and contours are closed only by one of `meets`. */
  ghost predicate Closes(s: Store, t: Store, meets: set<Meeting>) {
    && |s| <= |t|
    && (forall r :: 0 <= r < |s| && s[r].closed ==> t[r] == s[r])
    && forall r :: 0 <= r < |t| && NewlyClosed(s, t, r) ==> MetIn(t[r], meets)
  }

  /** Closed contours are their own representatives. */
  ghost predicate OwnClosed(s: Store) {
    Valid(s) && forall r :: 0 <= r < |s| && s[r].closed ==> s[r].proxy == r
  }

  lemma ClosesNone(s: Store)
    ensures Closes(s, s, {})
  {
  }

  lemma AddCloses(s: Store, e: End, pt: Point)
    requires OwnClosed(s) && e.poly < |s| && !s[s[e.poly].proxy].closed
    ensures Closes(s, Add(s, e, pt), {}) && OwnClosed(Add(s, e, pt))
  {
  }

  lemma StartCloses(s: Store, pt: Point)
    ensures Closes(s, AddLocalMin(s, pt), {})
  {
  }

  lemma MergeCloses(s: Store, p: nat, q: nat, side: Side)
    requires OwnClosed(s) && p < |s| && q < |s| && !s[s[p].proxy].closed && !s[s[q].proxy].closed
    ensures Closes(s, Merge(s, p, q, side), {Meeting(EndVertex(s, End(p, side)), side == Right)})
  {
    var t, rq := Merge(s, p, q, side), s[q].proxy;
    MergeNodes(s, p, q, side);
    if s[p].proxy == rq {
      assert t[rq].verts == s[rq].verts;
    }
    hide Merge;
    forall r | 0 <= r < |t| && NewlyClosed(s, t, r)
      ensures r == rq == s[p].proxy
    {
    }
  }

  lemma ClosesBoth(s: Store, t: Store, u: Store, a: set<Meeting>, b: set<Meeting>)
    requires Closes(s, t, a) && Closes(t, u, b)
    ensures Closes(s, u, a + b)
  {
    forall r | 0 <= r < |u| && NewlyClosed(s, u, r)
      ensures MetIn(u[r], a + b)
    {
      assert NewlyClosed(t, u, r) || NewlyClosed(s, t, r);
    }
  }

  /** A merge after one of the ends may have moved on, and before a contour may start. */
  lemma MeetCloses(s: Store, p: nat, q: nat, side: Side, moves: bool, starts: bool, pt: Point)
    requires OwnClosed(s) && p < |s| && q < |s| && !s[s[p].proxy].closed && !s[s[q].proxy].closed
    requires moves || EndVertex(s, End(p, side)) == pt
    ensures var t := if moves then Add(s, End(p, side), pt) else s;
            && Valid(t) && |t| == |s|
            && var u := Merge(t, p, q, side);
               Closes(s, if starts then AddLocalMin(u, pt) else u, {Meeting(pt, side == Right)})
  {
    AddKeepsOthers(s, End(p, side), pt);
    AddCloses(s, End(p, side), pt);
    hide Closes, Valid, Add, Merge, AddLocalMin, EndVertex, OwnClosed;
    var meets := {Meeting(pt, side == Right)};
    ClosesNone(s);
    var t := if moves then Add(s, End(p, side), pt) else s;
    MergeCloses(t, p, q, side);
    ClosesBoth(s, t, Merge(t, p, q, side), {}, meets);
    StartCloses(Merge(t, p, q, side), pt);
    ClosesBoth(s, Merge(t, p, q, side), AddLocalMin(Merge(t, p, q, side), pt), meets, {});
    assert {} + meets == meets && meets + {} == meets;
  }

  lemma EndsAreOpen(segs: set<Segment>, held: multiset<End>, s: Store)
    requires Sound(segs, held, s)
    ensures OwnClosed(s) && forall e :: e in held ==> e.poly < |s| && !s[s[e.poly].proxy].closed
  {
    ClosedHasHole(held, s);
    forall e | e in held
      ensures e.poly < |s| && !s[s[e.poly].proxy].closed
    {
      OwnsEach(held, s, e);
    }
  }

  function EdgeMeets(pt: Point, tr: bool, tl: bool, br: bool): set<Meeting> {
    if tr != br && tr != tl then {Meeting(pt, !tr)} else {}
  }

  function CrossMeets(pt: Point, l: bool, lo: bool, ri: bool): set<Meeting> {
    if l != lo && lo != ri then {Meeting(pt, !lo)} else {}
  }

  /** At a boundary, a contour is closed only where a horizontal meets an edge that bounds the result
      below; it becomes a hole exactly if the region below, between the two, is not part of it. */
  lemma EditCloses(segs: set<Segment>, yb: real, rest: multiset<End>, st: Scan, e: Edge, line: Segment,
                   tr: bool, tl: bool, br: bool, bl: bool)
    requires EditPre(segs, yb, rest, st, e, line, tr, tl, br)
    ensures EditOk(Classify(tr, tl, br, bl), st, e)
    ensures Closes(st.out, Edit(Classify(tr, tl, br, bl), yb, st, e).0.out, EdgeMeets(Point(e.xb, yb), tr, tl, br))
  {
    EditPointers(segs, yb, rest, st, e, line, tr, tl, br);
    EndsAreOpen(segs, rest + EndOf(e.outBelow, SideAt(tr)) + EndOf(st.cf, SideAt(br)), st.out);
    var pt, held := Point(e.xb, yb), rest + EndOf(e.outBelow, SideAt(tr)) + EndOf(st.cf, SideAt(br));
    assert st.cf.Some? ==> End(st.cf.value, SideAt(br)) in held;
    assert e.outBelow.Some? ==> End(e.outBelow.value, SideAt(tr)) in held;
    assert st.cf.Some? ==> EndVertex(st.out, End(st.cf.value, SideAt(br))) == Point(st.px, yb);
    hide EditPre, Closes, Valid, Edit, Add, AddLocalMin, Merge, Classify, EditOk, EndVertex, OwnClosed;
    if tr != br && tr != tl {
      Boundary.MeetsIs(yb, st, e, br, bl != br);
      MeetCloses(st.out, st.cf.value, e.outBelow.value, SideAt(br), e.xb != st.px, bl != br, pt);
    } else {
      MovesIs(yb, st, e, tr, tl, br, bl);
      ClosesNone(st.out);
      StartCloses(st.out, pt);
      if tr != br {
        AddCloses(st.out, End(st.cf.value, SideAt(br)), pt);
      } else if tr != tl {
        AddCloses(st.out, End(e.outBelow.value, SideAt(tr)), pt);
      }
    }
  }

  lemma StepCloses(op: Op, segs: set<Segment>, yb: real, rest: multiset<End>, st: Scan, e: Edge, line: Segment)
    requires StepPre(op, segs, yb, rest, st, e, line) && Ready(op, st, e)
    ensures var p := ParityBelow(st);
            var tr, tl, br := Inside(op, p), Inside(op, p.Toggle(e.below)), Inside(op, st.parity);
            Closes(st.out, Step(op, yb, st, e).0.out, EdgeMeets(Point(e.xb, yb), tr, tl, br))
  {
    hide StepPre, Ready, Step, Inside, Closes, Contributing, Flags.Toggle, Edit, Classify, EditPre, EditOk, Sound;
    var p := ParityBelow(st);
    var tr := Inside(op, p);
    ClosesNone(st.out);
    if (e.above.Any() || e.below.Any()) && Contributing(op, st, e) {
      Counted(op, segs, yb, rest, st, e, line);
      StepIsEdit(op, yb, st, e);
      EditCloses(segs, yb, rest, Count(st, e), e.(side := st.parity), line, tr, Inside(op, p.Toggle(e.below)),
        Inside(op, st.parity), Inside(op, st.parity.Toggle(e.above)));
    } else {
      StepIsNothing(op, yb, st, e);
    }
  }

  /** At a crossing, a contour is closed only where both edges bound the region below; it becomes a
      hole exactly if that region is not part of the result. */
  lemma CrossCloses(segs: set<Segment>, rest: multiset<End>, out: Store, p: Option<nat>, q: Option<nat>,
                    s0: Segment, s1: Segment, pt: Point, l: bool, lo: bool, up: bool, ri: bool)
    requires CrossPre(segs, rest, out, p, q, s0, s1, pt, l, lo, ri)
    ensures Valid(out) && (p.Some? ==> p.value < |out|) && (q.Some? ==> q.value < |out|)
    ensures Closes(out, CrossEdit(Classify(lo, ri, l, up), out, p, q, pt).out, CrossMeets(pt, l, lo, ri))
  {
    Pointing(segs, rest, out, p, q, s0, s1, pt, l, lo, ri);
    var held := rest + EndOf(p, SideAt(l)) + EndOf(q, SideAt(lo));
    EndsAreOpen(segs, held, out);
    assert p.Some? ==> End(p.value, SideAt(l)) in held;
    assert q.Some? ==> End(q.value, SideAt(lo)) in held;
    hide CrossPre, Closes, Valid, CrossEdit, Add, AddLocalMin, Merge, Classify, OwnClosed;
    if l != lo && lo != ri {
      CrossingStep.MeetsIs(out, p.value, q.value, pt, l, l != up);
      MeetCloses(out, p.value, q.value, SideAt(l), true, l != up, pt);
    } else {
      ClosesNone(out);
      if (l == lo && up == ri) || (lo == ri && l == up) {
        NothingToCross(out, p, q, pt, l, lo, up, ri);
      } else {
        PassesIs(out, p, q, pt, l, lo, up, ri);
        if l == lo && lo == ri {
          StartCloses(out, pt);
        } else {
          AddCloses(out, if l != lo then End(p.value, SideAt(l)) else End(q.value, SideAt(lo)), pt);
        }
      }
    }
  }

  lemma NeighboursClose(op: Op, segs: set<Segment>, rest: multiset<End>, out: Store, p: Flags, e0: Edge, e1: Edge,
                        pt: Point)
    requires Facing(op, segs, rest, out, p, e0, e1, pt)
    ensures Valid(out) && PointersOk(out, e0) && PointersOk(out, e1)
    ensures var lo := p.Toggle(e0.above);
            Closes(out, Cross(op, out, e0, e1, pt).0,
                   CrossMeets(pt, Inside(op, p), Inside(op, lo), Inside(op, lo.Toggle(e1.above))))
  {
    CrossIsEdit(op, segs, rest, out, p, e0, e1, pt);
    var lower, upper := p.Toggle(e0.above), p.Toggle(e1.above);
    Toggles(p, e0.above, e1.above);
    hide Closes, CrossEdit, Classify, CrossPre, Cross, Inside, Flags.Toggle, Valid;
    var l, lo, up, ri := Inside(op, p), Inside(op, lower), Inside(op, upper), Inside(op, lower.Toggle(e1.above));
    CrossCloses(segs, rest, out, e0.outAbove, e1.outAbove, e0.info.seg, e1.info.seg, pt, l, lo, up, ri);
  }

  /** Two neighbours of a row cross. */
  lemma CrossRowCloses(op: Op, segs: set<Segment>, p: Flags, a: seq<Strand>, e0: Edge, e1: Edge, b: seq<Strand>,
                       out: Store, pt: Point)
    requires RowHeld(op, segs, p, a + [AboveStrand(e0), AboveStrand(e1)] + b, out)
    requires Sided(p, a + [AboveStrand(e0), AboveStrand(e1)] + b)
    requires e0.info.seg in segs && e1.info.seg in segs && e0.info.seg.Contains(pt) && e1.info.seg.Contains(pt)
    ensures Valid(out) && PointersOk(out, e0) && PointersOk(out, e1)
    ensures var q := ParityAfter(p, a); var lo := q.Toggle(e0.above);
            Closes(out, Cross(op, out, e0, e1, pt).0,
                   CrossMeets(pt, Inside(op, q), Inside(op, lo), Inside(op, lo.Toggle(e1.above))))
  {
    hide RowHeld, Sided, Closes, Cross, Facing, ParityAfter, Valid, Ends, Inside;
    var t := ParityAfter(p, a).Toggle(e0.above).Toggle(e1.above);
    RowFaces(op, segs, p, a, e0, e1, b, out, pt);
    NeighboursClose(op, segs, Ends(op, p, a) + Ends(op, t, b), out, ParityAfter(p, a), e0, e1, pt);
  }
}
