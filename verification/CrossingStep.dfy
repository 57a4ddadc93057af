/**
 One crossing of two edge bundles inside a scanbeam.

 With the parity P to the left of the crossing, the four regions around it are the
 left one (P), the lower one (P toggled by `e0`), the upper one (P toggled by `e1`)
 and the right one (P toggled by both).
 */
module CrossingStep {
  import opened Base
  import opened Edges
  import opened Output
  import opened Strands
  import opened Boundary
  import opened Conservation

  /** One component of `in[]`, from the bundle flags and sides of the two edges. */
  function InFlag(b0: bool, b1: bool, s0: bool, s1: bool): bool {
    (b0 && !s0) || (b1 && s1) || (!b0 && !b1 && s0 && s1)
  }

  function InFlags(e0: Edge, e1: Edge): Flags {
    Flags(InFlag(e0.above.clip, e1.above.clip, e0.side.clip, e1.side.clip),
          InFlag(e0.above.subj, e1.above.subj, e0.side.subj, e1.side.subj))
  }

  function CrossingClass(op: Op, e0: Edge, e1: Edge): VertexClass {
    var lower := InFlags(e0, e1);
    Classify(
      Inside(op, lower),
      Inside(op, lower.Toggle(e1.above)),
      Inside(op, lower.Toggle(e0.above)),
      Inside(op, lower.Toggle(e1.above).Toggle(e0.above)))
  }

  /** How many vertices a crossing adds.  Of the regions to the left, below, above and to the right of a crossing: one
      vertex where a contour starts, ends or changes its edge, two where one ends and another
      starts, and none where contours stay on their edges. */
  function CrossCorners(l: bool, lo: bool, up: bool, ri: bool): nat {
    if (One(l) + One(lo) + One(up) + One(ri)) % 2 == 1 then 1
    else if l == ri && lo == up && l != lo then 2
    else 0
  }

  /** How many vertices a crossing adds, by its class. */
  lemma CrossCornersByClass(l: bool, lo: bool, up: bool, ri: bool)
    ensures CrossCorners(l, lo, up, ri) ==
      var c := Classify(lo, ri, l, up);
      if c in {IMM, EMM} then 2 else if c in {EMN, IMN, ERI, ILI, ELI, IRI, EMX, IMX} then 1 else 0
  {
  }

  lemma CornersCases(l: bool, lo: bool, up: bool, ri: bool)
    ensures CrossCorners(l, lo, up, ri) ==
      if (l == lo && up == ri) || (lo == ri && l == up) then 0
      else if l != lo && lo != ri then 1 + One(l != up)
      else 1
  {
  }

  datatype Crossed = Crossed(out: Store, out0: Option<nat>, out1: Option<nat>)

  /** The output of a crossing of class `c`, where the edges hold `p` and `q`.  The
      program tests the pointers before it follows them. */
  function CrossEdit(c: VertexClass, out: Store, p: Option<nat>, q: Option<nat>, pt: Point): Crossed
    requires Valid(out) && (p.Some? ==> p.value < |out|) && (q.Some? ==> q.value < |out|)
  {
    match c
    case EMN | IMN => Crossed(AddLocalMin(out, pt), Some(|out|), Some(|out|))
    case ERI => if p.Some? then Crossed(AddRight(out, p.value, pt), None, p) else Crossed(out, p, q)
    case ILI => if p.Some? then Crossed(AddLeft(out, p.value, pt), None, p) else Crossed(out, p, q)
    case ELI => if q.Some? then Crossed(AddLeft(out, q.value, pt), q, None) else Crossed(out, p, q)
    case IRI => if q.Some? then Crossed(AddRight(out, q.value, pt), q, None) else Crossed(out, p, q)
    case EMX =>
      if p.Some? && q.Some? then
        Crossed(MergeRight(AddLeft(out, p.value, pt), p.value, q.value), None, None)
      else Crossed(out, p, q)
    case IMX =>
      if p.Some? && q.Some? then
        Crossed(MergeLeft(AddRight(out, p.value, pt), p.value, q.value), None, None)
      else Crossed(out, p, q)
    case EMM =>
      if p.Some? && q.Some? then
        var merged := MergeRight(AddLeft(out, p.value, pt), p.value, q.value);
        Crossed(AddLocalMin(merged, pt), Some(|merged|), Some(|merged|))
      else Crossed(out, p, q)
    case IMM =>
      if p.Some? && q.Some? then
        var merged := MergeLeft(AddRight(out, p.value, pt), p.value, q.value);
        Crossed(AddLocalMin(merged, pt), Some(|merged|), Some(|merged|))
      else Crossed(out, p, q)
    case _ => Crossed(out, p, q)
  }

  ghost predicate PointersOk(out: Store, e: Edge) {
    e.outAbove.Some? ==> e.outAbove.value < |out|
  }

  /** The output of a crossing, if both edges are in play. */
  function CrossOutput(op: Op, out: Store, e0: Edge, e1: Edge, pt: Point): Crossed
    requires Valid(out) && PointersOk(out, e0) && PointersOk(out, e1)
  {
    if e0.above.Any() && e1.above.Any() then
      CrossEdit(CrossingClass(op, e0, e1), out, e0.outAbove, e1.outAbove, pt)
    else Crossed(out, e0.outAbove, e1.outAbove)
  }

  /** Works off a crossing of `e0` with `e1`: output, then the bundle sides. */
  function Cross(op: Op, out: Store, e0: Edge, e1: Edge, pt: Point): (r: (Store, Edge, Edge))
    requires Valid(out) && PointersOk(out, e0) && PointersOk(out, e1)
    ensures r.1 == e0.(side := r.1.side, outAbove := r.1.outAbove)
    ensures r.2 == e1.(side := r.2.side, outAbove := r.2.outAbove)
  {
    var c := CrossOutput(op, out, e0, e1, pt);
    (c.out,
     e0.(outAbove := c.out0, side := e0.side.Toggle(e1.above)),
     e1.(outAbove := c.out1, side := e1.side.Toggle(e0.above)))
  }

  /** The bundle sides tell the region below the crossing. */
  lemma InFlagsIsLowerParity(p: Flags, e0: Edge, e1: Edge)
    requires e0.side == p && e1.side == p.Toggle(e0.above)
    ensures InFlags(e0, e1) == p.Toggle(e0.above)
  {
  }

  /** What an edit finds: `p` between regions l and lo, `q` between lo and ri. */
  ghost predicate CrossPre(segs: set<Segment>, rest: multiset<End>, out: Store, p: Option<nat>, q: Option<nat>,
                           s0: Segment, s1: Segment, pt: Point, l: bool, lo: bool, ri: bool)
  {
    && Sound(segs, rest + EndOf(p, SideAt(l)) + EndOf(q, SideAt(lo)), out)
    && Strung(s0, out, p, l, lo) && Strung(s1, out, q, lo, ri)
    && s0 in segs && s1 in segs && s0.Contains(pt) && s1.Contains(pt)
  }

  /** What it leaves: e1's pointer between l and up, e0's between up and ri. */
  ghost predicate CrossPost(segs: set<Segment>, rest: multiset<End>, out: Store, s0: Segment, s1: Segment,
                            l: bool, up: bool, ri: bool, r: Crossed)
  {
    && Valid(out)
    && Sound(segs, rest + EndOf(r.out1, SideAt(l)) + EndOf(r.out0, SideAt(up)), r.out)
    && Strung(s1, r.out, r.out1, l, up) && Strung(s0, r.out, r.out0, up, ri)
    && |out| <= |r.out| && Undisturbed(rest, out, r.out)
  }

  /** A new contour's ends go up the two edges. */
  lemma StartsAt(segs: set<Segment>, rest: multiset<End>, s: Store, s0: Segment, s1: Segment, pt: Point, o: bool)
    requires Sound(segs, rest, s) && s0 in segs && s0.Contains(pt) && s1.Contains(pt)
    ensures CrossPost(segs, rest, s, s0, s1, o, !o, o, Crossed(AddLocalMin(s, pt), Some(|s|), Some(|s|)))
  {
    Start(segs, rest, s, pt);
    assert rest + EndOf(Some(|s|), SideAt(o)) + EndOf(Some(|s|), SideAt(!o))
        == rest + multiset{End(|s|, Left), End(|s|, Right)};
  }

  /** Classes EMN and IMN. */
  lemma CrossStarts(segs: set<Segment>, rest: multiset<End>, out: Store, p: Option<nat>, q: Option<nat>,
        s0: Segment, s1: Segment, pt: Point, o: bool)
    requires CrossPre(segs, rest, out, p, q, s0, s1, pt, o, o, o)
    ensures CrossPost(segs, rest, out, s0, s1, o, !o, o, CrossEdit(if o then IMN else EMN, out, p, q, pt))
  {
    hide AddLocalMin, Undisturbed, Along;
    assert rest + EndOf(p, SideAt(o)) + EndOf(q, SideAt(o)) == rest;
    StartsAt(segs, rest, out, s0, s1, pt, o);
  }

  /** Classes ILI and ERI: the contour passes from e0 to e1. */
  lemma CrossPassesRight(segs: set<Segment>, rest: multiset<End>, out: Store, p: Option<nat>, q: Option<nat>,
        s0: Segment, s1: Segment, pt: Point, o: bool)
    requires CrossPre(segs, rest, out, p, q, s0, s1, pt, o, !o, !o)
    ensures CrossPost(segs, rest, out, s0, s1, o, !o, !o, CrossEdit(if o then ERI else ILI, out, p, q, pt))
  {
    hide Traced, HasHolder;
    var held := End(p.value, SideAt(o));
    assert rest + EndOf(p, SideAt(o)) + EndOf(q, SideAt(!o)) == rest + multiset{held};
    assert Along(segs, EndVertex(out, held), pt);
    Extend(segs, rest, out, held, pt);
    assert rest + EndOf(p, SideAt(o)) + EndOf(None, SideAt(!o)) == rest + multiset{held};
  }

  /** Classes ELI and IRI: the contour passes from e1 to e0. */
  lemma CrossPassesLeft(segs: set<Segment>, rest: multiset<End>, out: Store, p: Option<nat>, q: Option<nat>,
        s0: Segment, s1: Segment, pt: Point, o: bool)
    requires CrossPre(segs, rest, out, p, q, s0, s1, pt, o, o, !o)
    ensures CrossPost(segs, rest, out, s0, s1, o, o, !o, CrossEdit(if o then IRI else ELI, out, p, q, pt))
  {
    hide Traced, HasHolder;
    var held := End(q.value, SideAt(o));
    assert rest + EndOf(p, SideAt(o)) + EndOf(q, SideAt(o)) == rest + multiset{held};
    assert Along(segs, EndVertex(out, held), pt);
    Extend(segs, rest, out, held, pt);
    assert rest + EndOf(None, SideAt(o)) + EndOf(q, SideAt(o)) == rest + multiset{held};
  }

  /** The two ends meet at the crossing. */
  lemma MeetsAt(segs: set<Segment>, rest: multiset<End>, out: Store, p: Option<nat>, q: Option<nat>,
                s0: Segment, s1: Segment, pt: Point, o: bool)
    requires CrossPre(segs, rest, out, p, q, s0, s1, pt, o, !o, o)
    ensures p.Some? && q.Some? && p.value < |out| && q.value < |out| && Valid(out)
    ensures var t := Add(out, End(p.value, SideAt(o)), pt);
            && |t| == |out| && Valid(t)
            && var s := Merge(t, p.value, q.value, SideAt(o));
               Sound(segs, rest, s) && Undisturbed(rest, out, s)
  {
    var a, b := End(p.value, SideAt(o)), End(q.value, SideAt(!o));
    var held := rest + multiset{b};
    assert rest + EndOf(p, SideAt(o)) + EndOf(q, SideAt(!o)) == held + multiset{a};
    assert Along(segs, EndVertex(out, a), pt);
    Extend(segs, held, out, a, pt);
    var t := Add(out, a, pt);
    assert b in held && forall e :: e in rest ==> e in held;
    assert EndVertex(t, b) == EndVertex(out, b);
    assert held + multiset{a} == rest + multiset{a} + multiset{b};
    Join(segs, rest, t, a.poly, b.poly, a.side);
  }

  /** Classes EMX and IMX: the contours end here. */
  lemma CrossMeets(segs: set<Segment>, rest: multiset<End>, out: Store, p: Option<nat>, q: Option<nat>,
        s0: Segment, s1: Segment, pt: Point, o: bool)
    requires CrossPre(segs, rest, out, p, q, s0, s1, pt, o, !o, o)
    ensures CrossPost(segs, rest, out, s0, s1, o, o, o, CrossEdit(if o then IMX else EMX, out, p, q, pt))
  {
    hide Sound, Along, MergeLeft, MergeRight, AddLeft, AddRight, AddLocalMin, Undisturbed, EndVertex;
    MeetsAt(segs, rest, out, p, q, s0, s1, pt, o);
    assert rest + EndOf(None, SideAt(o)) + EndOf(None, SideAt(o)) == rest;
  }

  /** Classes EMM and IMM: the contours end here, and a new one starts. */
  lemma CrossMeetsAndStarts(segs: set<Segment>, rest: multiset<End>, out: Store, p: Option<nat>, q: Option<nat>,
        s0: Segment, s1: Segment, pt: Point, o: bool)
    requires CrossPre(segs, rest, out, p, q, s0, s1, pt, o, !o, o)
    ensures CrossPost(segs, rest, out, s0, s1, o, !o, o, CrossEdit(if o then IMM else EMM, out, p, q, pt))
  {
    hide Sound, Along, MergeLeft, MergeRight, AddLeft, AddRight, AddLocalMin, Undisturbed, EndVertex;
    MeetsAt(segs, rest, out, p, q, s0, s1, pt, o);
    var s := Merge(Add(out, End(p.value, SideAt(o)), pt), p.value, q.value, SideAt(o));
    StartsAt(segs, rest, s, s0, s1, pt, o);
    UndisturbedTrans(rest, out, s, AddLocalMin(s, pt));
  }

  /** Classes LED and RED: the contour stays on e1. */
  lemma CrossStaysOnE1(segs: set<Segment>, rest: multiset<End>, out: Store, p: Option<nat>, q: Option<nat>,
        s0: Segment, s1: Segment, pt: Point, o: bool)
    requires CrossPre(segs, rest, out, p, q, s0, s1, pt, o, o, !o)
    ensures CrossPost(segs, rest, out, s0, s1, o, !o, !o, Crossed(out, p, q))
  {
    assert rest + EndOf(p, SideAt(o)) + EndOf(q, SideAt(o)) == rest + EndOf(q, SideAt(o)) + EndOf(p, SideAt(!o));
  }

  /** Classes TED and BED: the contour stays on e0. */
  lemma CrossStaysOnE0(segs: set<Segment>, rest: multiset<End>, out: Store, p: Option<nat>, q: Option<nat>,
        s0: Segment, s1: Segment, pt: Point, o: bool)
    requires CrossPre(segs, rest, out, p, q, s0, s1, pt, o, !o, !o)
    ensures CrossPost(segs, rest, out, s0, s1, o, o, !o, Crossed(out, p, q))
  {
    assert rest + EndOf(p, SideAt(o)) + EndOf(q, SideAt(!o)) == rest + EndOf(q, SideAt(o)) + EndOf(p, SideAt(o));
  }

  /** Classes NUL and FUL. */
  lemma CrossOutOfPlay(segs: set<Segment>, rest: multiset<End>, out: Store, p: Option<nat>, q: Option<nat>,
        s0: Segment, s1: Segment, pt: Point, o: bool)
    requires CrossPre(segs, rest, out, p, q, s0, s1, pt, o, o, o)
    ensures CrossPost(segs, rest, out, s0, s1, o, o, o, Crossed(out, p, q))
  {
    assert rest + EndOf(p, SideAt(o)) + EndOf(q, SideAt(o)) == rest + EndOf(q, SideAt(o)) + EndOf(p, SideAt(o));
  }

  lemma CrossEditHolds(segs: set<Segment>, rest: multiset<End>, out: Store, p: Option<nat>, q: Option<nat>,
                       s0: Segment, s1: Segment, pt: Point, l: bool, lo: bool, up: bool, ri: bool)
    requires CrossPre(segs, rest, out, p, q, s0, s1, pt, l, lo, ri)
    ensures CrossPost(segs, rest, out, s0, s1, l, up, ri, CrossEdit(Classify(lo, ri, l, up), out, p, q, pt))
  {
    hide CrossPre, CrossPost;
    if l == lo && lo == ri {
      if up == l {
        CrossOutOfPlay(segs, rest, out, p, q, s0, s1, pt, l);
      } else {
        CrossStarts(segs, rest, out, p, q, s0, s1, pt, l);
      }
    } else if l == lo {
      if up == l {
        CrossPassesLeft(segs, rest, out, p, q, s0, s1, pt, l);
      } else {
        CrossStaysOnE1(segs, rest, out, p, q, s0, s1, pt, l);
      }
    } else if lo == ri {
      if up == l {
        CrossStaysOnE0(segs, rest, out, p, q, s0, s1, pt, l);
      } else {
        CrossPassesRight(segs, rest, out, p, q, s0, s1, pt, l);
      }
    } else {
      if up == l {
        CrossMeets(segs, rest, out, p, q, s0, s1, pt, l);
      } else {
        CrossMeetsAndStarts(segs, rest, out, p, q, s0, s1, pt, l);
      }
    }
  }

  /** What the cases that start a contour or move one end do. */
  lemma PassesIs(out: Store, p: Option<nat>, q: Option<nat>, pt: Point, l: bool, lo: bool, up: bool, ri: bool)
    requires Valid(out) && (p.Some? <==> l != lo) && (q.Some? <==> lo != ri)
    requires (p.Some? ==> p.value < |out|) && (q.Some? ==> q.value < |out|) && !(l != lo && lo != ri)
    requires !((l == lo && up == ri) || (lo == ri && l == up))
    ensures CrossEdit(Classify(lo, ri, l, up), out, p, q, pt).out ==
      if l != lo then Add(out, End(p.value, SideAt(l)), pt)
      else if lo != ri then Add(out, End(q.value, SideAt(lo)), pt)
      else AddLocalMin(out, pt)
  {
    hide AddLeft, AddRight, AddLocalMin, Valid;
  }

  lemma Pointing(segs: set<Segment>, rest: multiset<End>, out: Store, p: Option<nat>, q: Option<nat>,
                 s0: Segment, s1: Segment, pt: Point, l: bool, lo: bool, ri: bool)
    requires CrossPre(segs, rest, out, p, q, s0, s1, pt, l, lo, ri)
    ensures Valid(out) && (p.Some? <==> l != lo) && (q.Some? <==> lo != ri)
    ensures (p.Some? ==> p.value < |out|) && (q.Some? ==> q.value < |out|)
  {
    hide Traced;
  }

  lemma CrossCounts(segs: set<Segment>, rest: multiset<End>, out: Store, p: Option<nat>, q: Option<nat>,
                    s0: Segment, s1: Segment, pt: Point, l: bool, lo: bool, up: bool, ri: bool)
    requires CrossPre(segs, rest, out, p, q, s0, s1, pt, l, lo, ri)
    ensures Valid(out) && (p.Some? ==> p.value < |out|) && (q.Some? ==> q.value < |out|)
    ensures Adds(out, CrossEdit(Classify(lo, ri, l, up), out, p, q, pt).out, pt, CrossCorners(l, lo, up, ri))
  {
    Pointing(segs, rest, out, p, q, s0, s1, pt, l, lo, ri);
    CornersCases(l, lo, up, ri);
    hide CrossPre, Adds, Valid, CrossEdit, Add, AddLocalMin, Merge, Classify, CrossCorners;
    if (l == lo && up == ri) || (lo == ri && l == up) {
      NothingToCross(out, p, q, pt, l, lo, up, ri);
      AddsNone(out, pt);
    } else if l != lo && lo != ri {
      MeetsIs(out, p.value, q.value, pt, l, l != up);
      MeetAdds(out, p.value, q.value, SideAt(l), true, l != up, pt);
    } else {
      PassesIs(out, p, q, pt, l, lo, up, ri);
      if l == lo && lo == ri {
        AddsLocalMin(out, pt);
      } else {
        AddsOne(out, if l != lo then End(p.value, SideAt(l)) else End(q.value, SideAt(lo)), pt);
      }
    }
  }

  /** Whatever its class, the edit has the right effect, no test of a pointer fails, and the vertices
      added are just those that the four regions call for, all of them at the crossing. */
  lemma CrossEditKeeps(segs: set<Segment>, rest: multiset<End>, out: Store, p: Option<nat>, q: Option<nat>,
                       s0: Segment, s1: Segment, pt: Point, l: bool, lo: bool, up: bool, ri: bool)
    requires CrossPre(segs, rest, out, p, q, s0, s1, pt, l, lo, ri)
    ensures CrossPost(segs, rest, out, s0, s1, l, up, ri, CrossEdit(Classify(lo, ri, l, up), out, p, q, pt))
    ensures Adds(out, CrossEdit(Classify(lo, ri, l, up), out, p, q, pt).out, pt, CrossCorners(l, lo, up, ri))
    ensures CrossCorners(l, lo, up, ri) ==
      var c := Classify(lo, ri, l, up);
      if c in {IMM, EMM} then 2 else if c in {EMN, IMN, ERI, ILI, ELI, IRI, EMX, IMX} then 1 else 0
  {
    CrossCornersByClass(l, lo, up, ri);
    Pointing(segs, rest, out, p, q, s0, s1, pt, l, lo, ri);
    hide CrossPre, CrossPost, Adds, CrossEdit, Classify, CrossCorners;
    CrossEditHolds(segs, rest, out, p, q, s0, s1, pt, l, lo, up, ri);
    CrossCounts(segs, rest, out, p, q, s0, s1, pt, l, lo, up, ri);
  }

  /** What the cases that join two ends do: with `o`, e0 holds a right end. */
  lemma MeetsIs(out: Store, p: nat, q: nat, pt: Point, o: bool, starts: bool)
    requires Valid(out) && p < |out| && q < |out|
    ensures var t := Add(out, End(p, SideAt(o)), pt);
            && Valid(t) && |t| == |out|
            && var s := Merge(t, p, q, SideAt(o));
               CrossEdit(Classify(!o, o, o, o != starts), out, Some(p), Some(q), pt).out ==
               if starts then AddLocalMin(s, pt) else s
  {
    AddKeepsOthers(out, End(p, SideAt(o)), pt);
    hide Valid, AddLocalMin, MergeLeft, MergeRight, AddLeft, AddRight, EndVertex;
  }

  lemma MeetingEnds(segs: set<Segment>, rest: multiset<End>, out: Store, p: Option<nat>, q: Option<nat>,
                    s0: Segment, s1: Segment, pt: Point, o: bool)
    requires CrossPre(segs, rest, out, p, q, s0, s1, pt, o, !o, o)
    ensures Valid(out) && p.Some? && p.value < |out| && q.Some? && q.value < |out|
  {
    SoundIsValid(segs, rest + EndOf(p, SideAt(o)) + EndOf(q, SideAt(!o)), out);
    hide Sound;
  }

  /** A contour is closed as a hole exactly if the region below the crossing is not part of the
      result. */
  lemma ClosedAsHole(segs: set<Segment>, rest: multiset<End>, out: Store, p: Option<nat>, q: Option<nat>,
                     s0: Segment, s1: Segment, pt: Point, l: bool, lo: bool, up: bool, ri: bool)
    requires CrossPre(segs, rest, out, p, q, s0, s1, pt, l, lo, ri) && l != lo && lo != ri
    ensures Valid(out) && p.Some? && p.value < |out| && q.Some? && q.value < |out|
    ensures Classify(lo, ri, l, up) in {EMX, IMX, EMM, IMM}
    ensures out[p.value].proxy == out[q.value].proxy ==>
      var after := CrossEdit(Classify(lo, ri, l, up), out, p, q, pt).out; var r := out[p.value].proxy;
      r < |after| && after[r].closed && after[r].hole == Some(!lo)
  {
    MeetingEnds(segs, rest, out, p, q, s0, s1, pt, l);
    hide CrossPre, CrossEdit, Merge, Add;
    var a := End(p.value, SideAt(l));
    AddKeepsOthers(out, a, pt);
    MeetsIs(out, p.value, q.value, pt, l, l != up);
    MergeNodes(Add(out, a, pt), p.value, q.value, a.side);
  }

  /** What a crossing finds: `e0` and `e1` side by side, parity `p` on their left. */
  ghost predicate Facing(op: Op, segs: set<Segment>, rest: multiset<End>, out: Store, p: Flags, e0: Edge, e1: Edge,
                         pt: Point) {
    var q := p.Toggle(e0.above);
    && CrossPre(segs, rest, out, e0.outAbove, e1.outAbove, e0.info.seg, e1.info.seg, pt,
                Inside(op, p), Inside(op, q), Inside(op, q.Toggle(e1.above)))
    && (e0.above.Any() ==> e0.side == p)
    && (e1.above.Any() ==> e1.side == q)
  }

  /** Where the program tests a pointer before it follows it, the pointer is set. */
  lemma GuardsHold(op: Op, segs: set<Segment>, rest: multiset<End>, out: Store, p: Flags, e0: Edge, e1: Edge, pt: Point)
    requires Facing(op, segs, rest, out, p, e0, e1, pt) && e0.above.Any() && e1.above.Any()
    ensures CrossingClass(op, e0, e1) in {ERI, ILI, EMX, IMX, EMM, IMM} ==> e0.outAbove.Some?
    ensures CrossingClass(op, e0, e1) in {ELI, IRI, EMX, IMX, EMM, IMM} ==> e1.outAbove.Some?
  {
    hide Sound, Inside, Classify;
    ClassBetween(op, p, e0, e1);
    var lower, upper := p.Toggle(e0.above), p.Toggle(e1.above);
    ClassGuards(Inside(op, lower), Inside(op, lower.Toggle(e1.above)), Inside(op, p), Inside(op, upper));
  }

  lemma ClassGuards(lo: bool, ri: bool, l: bool, up: bool)
    ensures Classify(lo, ri, l, up) in {ERI, ILI, EMX, IMX, EMM, IMM} ==> l != lo
    ensures Classify(lo, ri, l, up) in {ELI, IRI, EMX, IMX, EMM, IMM} ==> lo != ri
  {
  }

  lemma FacingPointers(op: Op, segs: set<Segment>, rest: multiset<End>, out: Store, p: Flags, e0: Edge, e1: Edge,
                       pt: Point)
    requires Facing(op, segs, rest, out, p, e0, e1, pt)
    ensures Valid(out) && PointersOk(out, e0) && PointersOk(out, e1)
  {
    hide Inside;
  }

  lemma Toggles(p: Flags, a: Flags, b: Flags)
    ensures p.Toggle(a).Toggle(b) == p.Toggle(b).Toggle(a)
    ensures p.Toggle(a).Toggle(a) == p
    ensures !a.Any() ==> p.Toggle(a) == p
    ensures !b.Any() ==> p.Toggle(a).Toggle(b) == p.Toggle(a)
  {
  }

  /** The class of a crossing, by the parity on its left. */
  lemma ClassBetween(op: Op, p: Flags, e0: Edge, e1: Edge)
    requires e0.side == p && e1.side == p.Toggle(e0.above)
    ensures var lower, upper := p.Toggle(e0.above), p.Toggle(e1.above);
            CrossingClass(op, e0, e1)
            == Classify(Inside(op, lower), Inside(op, lower.Toggle(e1.above)), Inside(op, p), Inside(op, upper))
  {
    hide Classify, Inside;
    InFlagsIsLowerParity(p, e0, e1);
    assert p.Toggle(e0.above).Toggle(e0.above) == p;
    assert p.Toggle(e0.above).Toggle(e1.above).Toggle(e0.above) == p.Toggle(e1.above);
  }

  /** The output of a crossing leaves the ends held as the new order requires. */
  lemma OutputKeeps(op: Op, segs: set<Segment>, rest: multiset<End>, out: Store, p: Flags, e0: Edge, e1: Edge,
                    pt: Point)
    requires Facing(op, segs, rest, out, p, e0, e1, pt)
    requires Valid(out) && PointersOk(out, e0) && PointersOk(out, e1)
    ensures var q := p.Toggle(e1.above);
            CrossPost(segs, rest, out, e0.info.seg, e1.info.seg,
                      Inside(op, p), Inside(op, q), Inside(op, q.Toggle(e0.above)), CrossOutput(op, out, e0, e1, pt))
  {
    hide CrossPre, CrossPost, CrossEdit, CrossingClass, Classify, Inside, Valid, Flags.Toggle, Flags.Any;
    var lower, upper := p.Toggle(e0.above), p.Toggle(e1.above);
    Toggles(p, e0.above, e1.above);
    Toggles(p, e1.above, e0.above);
    var l, lo, up, ri := Inside(op, p), Inside(op, lower), Inside(op, upper), Inside(op, lower.Toggle(e1.above));
    CrossEditHolds(segs, rest, out, e0.outAbove, e1.outAbove, e0.info.seg, e1.info.seg, pt, l, lo, up, ri);
    if e0.above.Any() && e1.above.Any() {
      ClassBetween(op, p, e0, e1);
    } else {
      NothingToCross(out, e0.outAbove, e1.outAbove, pt, l, lo, up, ri);
    }
  }

  /** A crossing finds the pointers that it tests, keeps exactly one holder for each end
      of each open contour, and sets the bundle sides for the new order. */
  lemma CrossKeeps(op: Op, segs: set<Segment>, rest: multiset<End>, out: Store, p: Flags, e0: Edge, e1: Edge, pt: Point)
    requires Facing(op, segs, rest, out, p, e0, e1, pt)
    ensures Valid(out) && PointersOk(out, e0) && PointersOk(out, e1)
    ensures var (out', f0, f1) := Cross(op, out, e0, e1, pt); var q := p.Toggle(e1.above);
            && CrossPost(segs, rest, out, e0.info.seg, e1.info.seg,
                         Inside(op, p), Inside(op, q), Inside(op, q.Toggle(e0.above)),
                         Crossed(out', f0.outAbove, f1.outAbove))
            && (f1.above.Any() ==> f1.side == p)
            && (f0.above.Any() ==> f0.side == q)
  {
    FacingPointers(op, segs, rest, out, p, e0, e1, pt);
    OutputKeeps(op, segs, rest, out, p, e0, e1, pt);
    hide CrossPre, CrossPost, CrossOutput, Inside, Valid, Flags.Toggle;
    Toggles(p, e0.above, e1.above);
  }

  /** Where one of the edges has no effect on the occupancy, a crossing has no output. */
  lemma NothingToCross(out: Store, p: Option<nat>, q: Option<nat>, pt: Point, l: bool, lo: bool, up: bool, ri: bool)
    requires Valid(out) && (p.Some? ==> p.value < |out|) && (q.Some? ==> q.value < |out|)
    requires (l == lo && up == ri) || (lo == ri && l == up)
    ensures CrossEdit(Classify(lo, ri, l, up), out, p, q, pt) == Crossed(out, p, q)
  {
  }

  /** A crossing has the output of the class that the regions around it call for. */
  lemma CrossIsEdit(op: Op, segs: set<Segment>, rest: multiset<End>, out: Store, p: Flags, e0: Edge, e1: Edge,
                    pt: Point)
    requires Facing(op, segs, rest, out, p, e0, e1, pt)
    ensures Valid(out) && PointersOk(out, e0) && PointersOk(out, e1)
    ensures var (out', f0, f1) := Cross(op, out, e0, e1, pt);
            Crossed(out', f0.outAbove, f1.outAbove) ==
            CrossEdit(Classify(Inside(op, p.Toggle(e0.above)), Inside(op, p.Toggle(e0.above).Toggle(e1.above)),
                               Inside(op, p), Inside(op, p.Toggle(e1.above))),
                      out, e0.outAbove, e1.outAbove, pt)
  {
    FacingPointers(op, segs, rest, out, p, e0, e1, pt);
    hide CrossPre, CrossEdit, CrossingClass, Classify, Inside, Valid, Flags.Toggle, Flags.Any;
    var lower, upper := p.Toggle(e0.above), p.Toggle(e1.above);
    Toggles(p, e0.above, e1.above);
    Toggles(p, e1.above, e0.above);
    var l, lo, up, ri := Inside(op, p), Inside(op, lower), Inside(op, upper), Inside(op, lower.Toggle(e1.above));
    if e0.above.Any() && e1.above.Any() {
      ClassBetween(op, p, e0, e1);
    } else {
      NothingToCross(out, e0.outAbove, e1.outAbove, pt, l, lo, up, ri);
    }
  }

  /** Between two neighbours of a row, a crossing finds what it needs. */
  lemma RowFaces(op: Op, segs: set<Segment>, p: Flags, a: seq<Strand>, e0: Edge, e1: Edge, b: seq<Strand>,
                 out: Store, pt: Point)
    requires RowHeld(op, segs, p, a + [AboveStrand(e0), AboveStrand(e1)] + b, out)
    requires Sided(p, a + [AboveStrand(e0), AboveStrand(e1)] + b)
    requires e0.info.seg in segs && e1.info.seg in segs && e0.info.seg.Contains(pt) && e1.info.seg.Contains(pt)
    ensures var q := ParityAfter(p, a); var t := q.Toggle(e0.above).Toggle(e1.above);
            && Facing(op, segs, Ends(op, p, a) + Ends(op, t, b), out, q, e0, e1, pt)
            && Matched(op, p, a) && Sided(p, a) && Anchored(op, p, a, out)
            && Matched(op, t, b) && Sided(t, b) && Anchored(op, t, b, out)
  {
    hide Matched, Sided, Anchored, Ends, ParityAfter, Traced, Inside;
    CutPair(op, p, a, AboveStrand(e0), AboveStrand(e1), b, out);
  }

  /** What a crossing leaves is a row again. */
  lemma RowCrossed(op: Op, segs: set<Segment>, p: Flags, a: seq<Strand>, f0: Edge, f1: Edge, b: seq<Strand>,
                   out: Store, out': Store)
    requires var q := ParityAfter(p, a); var u := q.Toggle(f1.above); var t := u.Toggle(f0.above);
             && Matched(op, p, a) && Sided(p, a) && Anchored(op, p, a, out)
             && Matched(op, t, b) && Sided(t, b) && Anchored(op, t, b, out)
             && (f1.above.Any() ==> f1.side == q) && (f0.above.Any() ==> f0.side == u)
             && CrossPost(segs, Ends(op, p, a) + Ends(op, t, b), out, f0.info.seg, f1.info.seg,
                          Inside(op, q), Inside(op, u), Inside(op, t), Crossed(out', f0.outAbove, f1.outAbove))
    ensures RowHeld(op, segs, p, a + [AboveStrand(f1), AboveStrand(f0)] + b, out')
    ensures Sided(p, a + [AboveStrand(f1), AboveStrand(f0)] + b)
  {
    hide Matched, Sided, Anchored, Ends, ParityAfter, Traced, Inside;
    var q := ParityAfter(p, a);
    var t := q.Toggle(f1.above).Toggle(f0.above);
    var ends, more := Ends(op, p, a), Ends(op, t, b);
    assert ends <= ends + more && more <= ends + more;
    AnchoredFrame(op, p, a, out, out');
    AnchoredFrame(op, t, b, out, out');
    CutPair(op, p, a, AboveStrand(f1), AboveStrand(f0), b, out');
  }

  /** Two neighbours of a row cross and change places. */
  lemma CrossRow(op: Op, segs: set<Segment>, p: Flags, a: seq<Strand>, e0: Edge, e1: Edge, b: seq<Strand>,
                 out: Store, pt: Point)
    requires RowHeld(op, segs, p, a + [AboveStrand(e0), AboveStrand(e1)] + b, out)
    requires Sided(p, a + [AboveStrand(e0), AboveStrand(e1)] + b)
    requires e0.info.seg in segs && e1.info.seg in segs && e0.info.seg.Contains(pt) && e1.info.seg.Contains(pt)
    ensures Valid(out) && PointersOk(out, e0) && PointersOk(out, e1)
    ensures var (out', f0, f1) := Cross(op, out, e0, e1, pt);
            && RowHeld(op, segs, p, a + [AboveStrand(f1), AboveStrand(f0)] + b, out')
            && Sided(p, a + [AboveStrand(f1), AboveStrand(f0)] + b)
            && ParityAfter(p, a + [AboveStrand(f1), AboveStrand(f0)] + b)
               == ParityAfter(p, a + [AboveStrand(e0), AboveStrand(e1)] + b)
  {
    hide RowHeld, Matched, Sided, Anchored, Ends, Cross, CrossPost, Facing, Inside;
    var q := ParityAfter(p, a);
    var t := q.Toggle(e0.above).Toggle(e1.above);
    RowFaces(op, segs, p, a, e0, e1, b, out, pt);
    CrossKeeps(op, segs, Ends(op, p, a) + Ends(op, t, b), out, q, e0, e1, pt);
    var (out', f0, f1) := Cross(op, out, e0, e1, pt);
    assert q.Toggle(f1.above).Toggle(f0.above) == t;
    RowCrossed(op, segs, p, a, f0, f1, b, out, out');
    CutPair(op, p, a, AboveStrand(e0), AboveStrand(e1), b, out);
    CutPair(op, p, a, AboveStrand(f1), AboveStrand(f0), b, out);
  }
}
