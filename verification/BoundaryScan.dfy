/**
 One scan of a scanbeam boundary: the whole row of edges, from the ends held below
 the boundary to the ends held above it.
 */
module BoundaryScan {
  import opened Base
  import opened Edges
  import opened Output
  import opened Strands
  import opened Boundary
  import opened Tally
  import opened BoundaryTally
  import opened Turning
  import opened BoundaryTurning
  import opened Conservation
  import opened Corners
  import opened Repeats
  import opened Closing

  /** What holds when `done` is the row above the boundary so far, and `todo` the
      row below it still to be scanned. */
  ghost predicate ScanInv(op: Op, segs: set<Segment>, yb: real, p: Flags, done: seq<Strand>, todo: seq<Strand>,
                          st: Scan) {
    && st.parity == ParityAfter(p, done)
    && Matched(op, p, done) && Sided(p, done) && Anchored(op, p, done, st.out)
    && Matched(op, ParityBelow(st), todo) && Anchored(op, ParityBelow(st), todo, st.out)
    && Between(segs, yb, Ends(op, p, done) + Ends(op, ParityBelow(st), todo),
               Inside(op, st.parity), Inside(op, ParityBelow(st)), st)
  }

  /** The ends held away from the edge being handled. */
  function Elsewhere(op: Op, p: Flags, done: seq<Strand>, todo: seq<Strand>, below: Flags): multiset<End> {
    Ends(op, p, done) + Ends(op, below, todo)
  }

  lemma RowReaches(op: Op, segs: set<Segment>, yb: real, p: Flags, done: seq<Strand>, todo: seq<Strand>,
                   st: Scan, e: Edge, line: Segment)
    requires ScanInv(op, segs, yb, p, done, [Strand(e.below, e.outBelow, NO_FLAGS, line)] + todo, st)
    requires Stands(segs, yb, e, line) && e.outAbove.None?
    ensures var below := ParityBelow(st).Toggle(e.below);
            && StepPre(op, segs, yb, Elsewhere(op, p, done, todo, below), st, e, line)
            && Matched(op, below, todo) && Anchored(op, below, todo, st.out)
  {
    var b := Strand(e.below, e.outBelow, NO_FLAGS, line);
    var pb := ParityBelow(st);
    Unroll(op, pb, b, todo, st.out);
    assert Ends(op, p, done) + Ends(op, pb, [b] + todo)
        == Elsewhere(op, p, done, todo, pb.Toggle(e.below)) + EndOf(e.outBelow, HeldSide(op, pb));
  }

  lemma RowLeaves(op: Op, segs: set<Segment>, yb: real, p: Flags, done: seq<Strand>, todo: seq<Strand>,
                  st: Scan, e: Edge, r: (Scan, Edge))
    requires r.1.above == e.above && r.1.info == e.info
    requires st.parity == ParityAfter(p, done) && r.0.parity == st.parity.Toggle(e.above)
    requires Stepped(op, segs, yb, Elsewhere(op, p, done, todo, ParityBelow(r.0)), st, e, r)
    requires Matched(op, p, done) && Sided(p, done) && Anchored(op, p, done, st.out)
    requires Matched(op, ParityBelow(r.0), todo) && Anchored(op, ParityBelow(r.0), todo, st.out)
    ensures ScanInv(op, segs, yb, p, done + [AboveStrand(r.1)], todo, r.0)
  {
    hide Matched, Sided, Anchored, Ends, ParityAfter, Traced, Inside;
    var ends, more := Ends(op, p, done), Ends(op, ParityBelow(r.0), todo);
    assert ends <= ends + more && more <= ends + more;
    AnchoredFrame(op, p, done, st.out, r.0.out);
    AnchoredFrame(op, ParityBelow(r.0), todo, st.out, r.0.out);
    Append(op, p, done, AboveStrand(r.1), r.0.out);
    assert ends + EndOf(r.1.outAbove, HeldSide(op, st.parity)) + more
        == ends + more + EndOf(r.1.outAbove, HeldSide(op, st.parity));
  }

  /** One step of the scan takes the leftmost strand from the row below and adds a
      strand to the row above. */
  lemma RowStep(op: Op, segs: set<Segment>, yb: real, p: Flags, done: seq<Strand>, todo: seq<Strand>,
                st: Scan, e: Edge, line: Segment)
    requires ScanInv(op, segs, yb, p, done, [Strand(e.below, e.outBelow, NO_FLAGS, line)] + todo, st)
    requires Stands(segs, yb, e, line) && e.outAbove.None?
    ensures Ready(op, st, e)
    ensures var (st', e') := Step(op, yb, st, e);
            ScanInv(op, segs, yb, p, done + [AboveStrand(e')], todo, st')
  {
    hide Step, StepPre, Stepped, Matched, Anchored, Sided, Ends, Ready, Between;
    RowReaches(op, segs, yb, p, done, todo, st, e, line);
    StepKeeps(op, segs, yb, Elsewhere(op, p, done, todo, ParityBelow(st).Toggle(e.below)), st, e, line);
    RowLeaves(op, segs, yb, p, done, todo, st, e, Step(op, yb, st, e));
  }

  /** Below the boundary the count is what it was when the scan began with `belows` and `before`. */
  ghost predicate ScanTallied(op: Op, yb: real, p: Flags, done: seq<Strand>, todo: seq<Strand>, st: Scan,
                              belows: seq<Strand>, before: Store) {
    && UpTo(st.out, yb)
    && forall q :: Below(q, yb) ==>
         Hits(st.out, q) + Rays(op, p, done, st.out, q) + Rays(op, ParityBelow(st), todo, st.out, q)
         == Total(op, p, belows, before, q)
  }

  lemma RowStepTallied(op: Op, segs: set<Segment>, yb: real, p: Flags, done: seq<Strand>, todo: seq<Strand>,
                       st: Scan, e: Edge, line: Segment, belows: seq<Strand>, before: Store)
    requires ScanInv(op, segs, yb, p, done, [Strand(e.below, e.outBelow, NO_FLAGS, line)] + todo, st)
    requires Stands(segs, yb, e, line) && e.outAbove.None?
    requires ScanTallied(op, yb, p, done, [Strand(e.below, e.outBelow, NO_FLAGS, line)] + todo, st, belows, before)
    ensures Ready(op, st, e)
    ensures var (st', e') := Step(op, yb, st, e);
            ScanTallied(op, yb, p, done + [AboveStrand(e')], todo, st', belows, before)
  {
    hide Step, StepPre, Matched, Anchored, Sided, Ends, Ready, Between, UpTo, Hits, Rays, Ray, Total, Strung,
      Inside, ParityAfter;
    var b := Strand(e.below, e.outBelow, NO_FLAGS, line);
    var rest := Elsewhere(op, p, done, todo, ParityBelow(st).Toggle(e.below));
    RowReaches(op, segs, yb, p, done, todo, st, e, line);
    StepKeeps(op, segs, yb, rest, st, e, line);
    StepTallied(op, segs, yb, rest, st, e, line);
    var (st', e') := Step(op, yb, st, e);
    var ends, more := Ends(op, p, done), Ends(op, ParityBelow(st'), todo);
    assert ends <= rest && more <= rest;
    BothValid(op, segs, yb, rest, st, e, (st', e'));
    forall q | Below(q, yb)
      ensures Hits(st'.out, q) + Rays(op, p, done + [AboveStrand(e')], st'.out, q)
              + Rays(op, ParityBelow(st'), todo, st'.out, q)
           == Total(op, p, belows, before, q)
    {
      RaysFrame(op, p, done, st.out, st'.out, q);
      RaysFrame(op, ParityBelow(st'), todo, st.out, st'.out, q);
      RaysFirst(op, ParityBelow(st), b, todo, st.out, q);
      RaysLast(op, p, done, AboveStrand(e'), st'.out, q);
      assert TalliedAt(line, st, e, Inside(op, ParityBelow(st)), Inside(op, st.parity), (st', e'), q);
    }
  }

  /** The ends held while the row is scanned. */
  function ScanGrips(op: Op, p: Flags, done: seq<Strand>, todo: seq<Strand>, st: Scan): seq<Grip> {
    Grips(op, p, done) + GripOf(st.cf, SideAt(Inside(op, st.parity)), NOWHERE) + Grips(op, ParityBelow(st), todo)
  }

  /** Below the boundary, contours lie beside and within one another if they did so when the scan
      began with `belows` and `before`. */
  ghost predicate ScanTurned(op: Op, yb: real, p: Flags, done: seq<Strand>, todo: seq<Strand>, st: Scan,
                             belows: seq<Strand>, before: Store) {
    forall q :: Below(q, yb) && Planar(Grips(op, p, belows), before, q) ==>
      Planar(ScanGrips(op, p, done, todo, st), st.out, q)
  }

  lemma RowStepTurned(op: Op, segs: set<Segment>, yb: real, p: Flags, done: seq<Strand>, todo: seq<Strand>,
                      st: Scan, e: Edge, line: Segment, belows: seq<Strand>, before: Store)
    requires ScanInv(op, segs, yb, p, done, [Strand(e.below, e.outBelow, NO_FLAGS, line)] + todo, st)
    requires Stands(segs, yb, e, line) && e.outAbove.None? && UpTo(st.out, yb)
    requires ScanTurned(op, yb, p, done, [Strand(e.below, e.outBelow, NO_FLAGS, line)] + todo, st, belows, before)
    ensures Ready(op, st, e)
    ensures var (st', e') := Step(op, yb, st, e);
            ScanTurned(op, yb, p, done + [AboveStrand(e')], todo, st', belows, before)
  {
    hide Step, StepPre, Matched, Anchored, Sided, Ends, Ready, Between, UpTo, Grips, GripOf, Held, Planar, Inside,
      ParityAfter;
    var b := Strand(e.below, e.outBelow, NO_FLAGS, line);
    var below := ParityBelow(st).Toggle(e.below);
    var rest := Elsewhere(op, p, done, todo, below);
    RowReaches(op, segs, yb, p, done, todo, st, e, line);
    StepIsReady(op, segs, yb, rest, st, e, line);
    var ends, more := Grips(op, p, done), Grips(op, below, todo);
    GripsElsewhere(op, p, done, todo, below);
    StepGrips(op, yb, p, done, todo, st, e, line);
    forall q | Below(q, yb) && Planar(Grips(op, p, belows), before, q)
      ensures Planar(ScanGrips(op, p, done + [AboveStrand(Step(op, yb, st, e).1)], todo, Step(op, yb, st, e).0),
                     Step(op, yb, st, e).0.out, q)
    {
      StepTurned(op, segs, yb, rest, st, e, line, ends, more, q);
    }
  }

  lemma GripsElsewhere(op: Op, p: Flags, done: seq<Strand>, todo: seq<Strand>, below: Flags)
    ensures Held(Grips(op, p, done), Elsewhere(op, p, done, todo, below))
    ensures Held(Grips(op, below, todo), Elsewhere(op, p, done, todo, below))
  {
    hide Grips, Held, Ends;
    GripsHeld(op, p, done);
    GripsHeld(op, below, todo);
    HeldMore(Grips(op, p, done), Ends(op, p, done), Elsewhere(op, p, done, todo, below));
    HeldMore(Grips(op, below, todo), Ends(op, below, todo), Elsewhere(op, p, done, todo, below));
  }

  /** The ends held before and after a step, around the edge. */
  lemma StepGrips(op: Op, yb: real, p: Flags, done: seq<Strand>, todo: seq<Strand>, st: Scan, e: Edge, line: Segment)
    requires Ready(op, st, e) && st.parity == ParityAfter(p, done)
    ensures var b := Strand(e.below, e.outBelow, NO_FLAGS, line); var below := ParityBelow(st).Toggle(e.below);
            var (st', e') := Step(op, yb, st, e); var (ends, more) := (Grips(op, p, done), Grips(op, below, todo));
            && ScanGrips(op, p, done, [b] + todo, st)
               == Reaching(ends, st, e, line, Inside(op, ParityBelow(st)), Inside(op, st.parity), more)
            && ScanGrips(op, p, done + [AboveStrand(e')], todo, st')
               == Leaving(ends, st', e', Inside(op, st.parity), Inside(op, st.parity.Toggle(e.above)), more)
  {
    var b := Strand(e.below, e.outBelow, NO_FLAGS, line);
    var (st', e') := Step(op, yb, st, e);
    hide Step, Grips, GripOf, Inside, Ready, ParityAfter;
    GripsFirst(op, ParityBelow(st), b, todo);
    GripsLast(op, p, done, AboveStrand(e'));
    Regrouped(Grips(op, p, done), GripOf(st.cf, SideAt(Inside(op, st.parity)), NOWHERE),
      GripOf(e.outBelow, HeldSide(op, ParityBelow(st)), line), Grips(op, ParityBelow(st'), todo));
    Regrouped(Grips(op, p, done), GripOf(e'.outAbove, HeldSide(op, st.parity), e'.info.seg),
      GripOf(st'.cf, SideAt(Inside(op, st'.parity)), NOWHERE), Grips(op, ParityBelow(st'), todo));
  }

  lemma Regrouped(a: seq<Grip>, x: seq<Grip>, y: seq<Grip>, b: seq<Grip>)
    ensures a + x + (y + b) == a + (x + y) + b == a + x + y + b
  {
  }

  lemma ScanTurnStarts(op: Op, yb: real, p: Flags, belows: seq<Strand>, st: Scan)
    requires st.parity == p && st.hclip == NH && st.hsubj == NH && st.cf == None
    ensures ScanTurned(op, yb, p, [], belows, st, belows, st.out)
  {
    hide Planar;
    assert ParityBelow(st) == p;
    assert [] + [] + Grips(op, p, belows) == Grips(op, p, belows);
  }

  lemma BothValid(op: Op, segs: set<Segment>, yb: real, rest: multiset<End>, st: Scan, e: Edge, r: (Scan, Edge))
    requires Stepped(op, segs, yb, rest, st, e, r)
    ensures Valid(st.out) && Valid(r.0.out)
  {
  }

  lemma ScanTallyStarts(op: Op, yb: real, p: Flags, belows: seq<Strand>, st: Scan)
    requires UpTo(st.out, yb) && st.parity == p && st.hclip == NH && st.hsubj == NH
    ensures ScanTallied(op, yb, p, [], belows, st, belows, st.out)
  {
    hide UpTo, Hits, Ray;
    assert ParityBelow(st) == p;
  }

  /** Below the boundary the scan changes nothing. */
  ghost predicate SameBelow(op: Op, yb: real, p: Flags, belows: seq<Strand>, before: Store, aboves: seq<Strand>,
                            out: Store) {
    UpTo(out, yb) && forall q :: Below(q, yb) ==>
      && Total(op, p, aboves, out, q) == Total(op, p, belows, before, q)
      && (Planar(Grips(op, p, belows), before, q) ==> Planar(Grips(op, p, aboves), out, q))
  }

  lemma ScanTallyEnds(op: Op, yb: real, p: Flags, aboves: seq<Strand>, st: Scan, belows: seq<Strand>, before: Store)
    requires ScanTallied(op, yb, p, aboves, [], st, belows, before)
    requires ScanTurned(op, yb, p, aboves, [], st, belows, before) && st.cf.None?
    ensures SameBelow(op, yb, p, belows, before, aboves, st.out)
  {
    hide UpTo, Hits, Ray, Planar;
    assert Grips(op, p, aboves) + [] + [] == Grips(op, p, aboves);
  }

  /** What the scan needs of the active edge table: the row below is held, and both
      rows leave the parity as they found it. */
  ghost predicate ScanPre(op: Op, t: Table, yb: real, p: Flags, aet: seq<Edge>, out: Store) {
    && RowHeld(op, Segments(t), p, Belows(t, yb, aet), out)
    && ParityAfter(p, Belows(t, yb, aet)) == p
    && ParityAfter(p, Aboves(aet)) == p
    && forall i :: 0 <= i < |aet| ==>
         aet[i].outAbove.None? && Stands(Segments(t), yb, aet[i], LowerLine(t, yb, aet[i]))
  }

  /** The class that the four quadrants around place `k` of the row call for. */
  ghost predicate Classed(op: Op, p: Flags, belows: seq<Strand>, aboves: seq<Strand>, classes: seq<VertexClass>, k: nat)
    requires k < |classes| <= |belows| && |belows| == |aboves|
  {
    classes[k] == Classify(
      Inside(op, ParityAfter(p, belows[..k])),
      Inside(op, ParityAfter(p, belows[..k + 1])),
      Inside(op, ParityAfter(p, aboves[..k])),
      Inside(op, ParityAfter(p, aboves[..k + 1])))
  }

  /** Passing one strand. */
  lemma ParityStep(p: Flags, s: seq<Strand>, k: nat)
    requires k < |s|
    ensures ParityAfter(p, s[..k + 1]) == ParityAfter(p, s[..k]).Toggle(s[k].flags)
  {
    assert s[..k + 1] == s[..k] + [s[k]];
    ParityAfterConcat(p, s[..k], [s[k]]);
  }

  /** The occupancies around place `k` of the row: below to the left and right, above to the left
      and right. */
  datatype Around = Around(tr: bool, tl: bool, br: bool, bl: bool)

  function AroundAt(op: Op, p: Flags, belows: seq<Strand>, aboves: seq<Strand>, k: nat): Around
    requires k < |belows| == |aboves|
  {
    Around(
      Inside(op, ParityAfter(p, belows[..k])),
      Inside(op, ParityAfter(p, belows[..k + 1])),
      Inside(op, ParityAfter(p, aboves[..k])),
      Inside(op, ParityAfter(p, aboves[..k + 1])))
  }

  /** The place of the last edge before place `k` that bounds the result. */
  function LastX(aet: seq<Edge>, around: seq<Around>, k: nat): real
    requires k <= |aet| == |around|
  {
    if k == 0 then -DBL_MAX
    else
      var a := around[k - 1];
      if Bounds(a.tr, a.tl, a.br, a.bl) then aet[k - 1].xb else LastX(aet, around, k - 1)
  }

  /** How often the scan of the first `k` edges adds the vertex `v`. */
  function ScanCorners(yb: real, aet: seq<Edge>, around: seq<Around>, k: nat, v: Point): nat
    requires k <= |aet| == |around|
  {
    if k == 0 then 0
    else
      var e, a := aet[k - 1], around[k - 1];
      ScanCorners(yb, aet, around, k - 1, v) +
      if v == Point(e.xb, yb) then
        EdgeCorners(a.tr, a.tl, a.br, a.bl, e.xb != LastX(aet, around, k - 1), e.BotY() == yb)
      else 0
  }

  /** Where the scan of the first `k` edges lets the two ends of one contour meet. */
  function ScanMeets(yb: real, aet: seq<Edge>, around: seq<Around>, k: nat): set<Meeting>
    requires k <= |aet| == |around|
  {
    if k == 0 then {}
    else
      var a := around[k - 1];
      ScanMeets(yb, aet, around, k - 1) + EdgeMeets(Point(aet[k - 1].xb, yb), a.tr, a.tl, a.br)
  }

  /** Such a meeting is at some edge, where a horizontal comes in and the edge bounds the result below;
      the contour is a hole exactly if the region below, left of the edge, is not part of it. */
  lemma {:induction false} ScanMeetsAt(yb: real, aet: seq<Edge>, around: seq<Around>, k: nat, m: Meeting)
    returns (j: nat)
    requires k <= |aet| == |around| && m in ScanMeets(yb, aet, around, k)
    ensures j < k && m.pt == Point(aet[j].xb, yb) && m.hole == !around[j].tr
    ensures around[j].tr != around[j].br && around[j].tr != around[j].tl
  {
    if m in ScanMeets(yb, aet, around, k - 1) {
      j := ScanMeetsAt(yb, aet, around, k - 1, m);
    } else {
      j := k - 1;
    }
  }

  function Arounds(op: Op, p: Flags, belows: seq<Strand>, aboves: seq<Strand>): (a: seq<Around>)
    requires |belows| == |aboves|
    ensures |a| == |belows|
    ensures forall k :: 0 <= k < |a| ==> a[k] == AroundAt(op, p, belows, aboves, k)
  {
    seq(|belows|, k requires 0 <= k < |belows| => AroundAt(op, p, belows, aboves, k))
  }

  /** The vertices added so far. */
  ghost predicate Cornered(yb: real, aet: seq<Edge>, around: seq<Around>, k: nat, before: Store, st: Scan)
    requires k <= |aet| == |around|
  {
    && st.px == LastX(aet, around, k)
    && forall v :: Vertices(st.out, v) == Vertices(before, v) + ScanCorners(yb, aet, around, k, v)
  }

  lemma RowStepCornered(op: Op, segs: set<Segment>, yb: real, p: Flags, rest: multiset<End>, t: Table, aet: seq<Edge>,
                        k: nat, before: Store, st: Scan)
    requires k < |aet| && StepPre(op, segs, yb, rest, st, aet[k], LowerLine(t, yb, aet[k])) && Ready(op, st, aet[k])
    requires Cornered(yb, aet, Arounds(op, p, Belows(t, yb, aet), Aboves(aet)), k, before, st)
    requires st.parity == ParityAfter(p, Aboves(aet)[..k])
    requires ParityBelow(st) == ParityAfter(p, Belows(t, yb, aet)[..k])
    ensures Cornered(yb, aet, Arounds(op, p, Belows(t, yb, aet), Aboves(aet)), k + 1, before,
                     Step(op, yb, st, aet[k]).0)
  {
    hide StepPre, Ready, Step, Vertices, Inside, EdgeCorners, Bounds, ParityAfter;
    ParityPast(p, t, yb, aet, k);
    StepAdds(op, segs, yb, rest, st, aet[k], LowerLine(t, yb, aet[k]));
  }

  lemma RowStepCloses(op: Op, segs: set<Segment>, yb: real, p: Flags, rest: multiset<End>, t: Table, aet: seq<Edge>,
                      k: nat, before: Store, st: Scan)
    requires k < |aet| && StepPre(op, segs, yb, rest, st, aet[k], LowerLine(t, yb, aet[k])) && Ready(op, st, aet[k])
    requires Closes(before, st.out, ScanMeets(yb, aet, Arounds(op, p, Belows(t, yb, aet), Aboves(aet)), k))
    requires st.parity == ParityAfter(p, Aboves(aet)[..k])
    requires ParityBelow(st) == ParityAfter(p, Belows(t, yb, aet)[..k])
    ensures Closes(before, Step(op, yb, st, aet[k]).0.out,
                   ScanMeets(yb, aet, Arounds(op, p, Belows(t, yb, aet), Aboves(aet)), k + 1))
  {
    hide StepPre, Ready, Step, Inside, EdgeMeets, ParityAfter, Closes;
    ParityPast(p, t, yb, aet, k);
    StepCloses(op, segs, yb, rest, st, aet[k], LowerLine(t, yb, aet[k]));
    var around := Arounds(op, p, Belows(t, yb, aet), Aboves(aet));
    var a := around[k];
    ClosesBoth(before, st.out, Step(op, yb, st, aet[k]).0.out, ScanMeets(yb, aet, around, k),
      EdgeMeets(Point(aet[k].xb, yb), a.tr, a.tl, a.br));
  }

  lemma CorneredAtFirst(yb: real, aet: seq<Edge>, around: seq<Around>, st: Scan)
    requires |aet| == |around| && st.px == -DBL_MAX
    ensures Cornered(yb, aet, around, 0, st.out, st)
  {
  }

  lemma CorneredVertices(yb: real, aet: seq<Edge>, around: seq<Around>, before: Store, st: Scan)
    requires |aet| == |around| && Cornered(yb, aet, around, |aet|, before, st)
    ensures forall v :: Vertices(st.out, v) == Vertices(before, v) + ScanCorners(yb, aet, around, |aet|, v)
  {
  }

  lemma RowStepDiffers(op: Op, segs: set<Segment>, yb: real, p: Flags, done: seq<Strand>, todo: seq<Strand>,
                       st: Scan, e: Edge, line: Segment)
    requires ScanInv(op, segs, yb, p, done, [Strand(e.below, e.outBelow, NO_FLAGS, line)] + todo, st)
    requires Stands(segs, yb, e, line) && e.outAbove.None? && NoRepeats(st.out)
    requires EndsLower(yb, st.out, Ends(op, ParityBelow(st), [Strand(e.below, e.outBelow, NO_FLAGS, line)] + todo))
    ensures Ready(op, st, e)
    ensures var st' := Step(op, yb, st, e).0;
            NoRepeats(st'.out) && EndsLower(yb, st'.out, Ends(op, ParityBelow(st'), todo))
  {
    hide Step, StepPre, Matched, Anchored, Sided, Ends, Ready, Between, NoRepeats, Inside, ParityAfter, Owned, Traced;
    var b := Strand(e.below, e.outBelow, NO_FLAGS, line);
    var rest := Elsewhere(op, p, done, todo, ParityBelow(st).Toggle(e.below));
    RowReaches(op, segs, yb, p, done, todo, st, e, line);
    Unroll(op, ParityBelow(st), b, todo, st.out);
    StepKeeps(op, segs, yb, rest, st, e, line);
    BothValid(op, segs, yb, rest, st, e, Step(op, yb, st, e));
    var more := Ends(op, ParityBelow(st).Toggle(e.below), todo);
    assert EndOf(e.outBelow, HeldSide(op, ParityBelow(st))) <= Ends(op, ParityBelow(st), [b] + todo);
    StepDiffers(op, segs, yb, rest, st, e, line);
    var st' := Step(op, yb, st, e).0;
    forall f | f in more
      ensures f.poly < |st'.out| && EndVertex(st'.out, f).y < yb
    {
      assert f in rest && f in Ends(op, ParityBelow(st), [b] + todo);
    }
  }

  lemma ParityPast(p: Flags, t: Table, yb: real, aet: seq<Edge>, k: nat)
    requires k < |aet|
    ensures ParityAfter(p, Aboves(aet)[..k + 1]) == ParityAfter(p, Aboves(aet)[..k]).Toggle(aet[k].above)
    ensures ParityAfter(p, Belows(t, yb, aet)[..k + 1]) == ParityAfter(p, Belows(t, yb, aet)[..k]).Toggle(aet[k].below)
  {
    hide ParityAfter;
    ParityStep(p, Aboves(aet), k);
    ParityStep(p, Belows(t, yb, aet), k);
  }

  /** An edge is classed by the running parities above and below the boundary. */
  lemma StepClassed(op: Op, p: Flags, t: Table, yb: real, aet: seq<Edge>, classes: seq<VertexClass>, k: nat, st: Scan)
    requires k < |aet| && |classes| == k + 1 && classes[k] == EdgeClass(op, st, aet[k])
    requires st.parity == ParityAfter(p, Aboves(aet)[..k])
    requires ParityBelow(st) == ParityAfter(p, Belows(t, yb, aet)[..k])
    ensures Classed(op, p, Belows(t, yb, aet), Aboves(aet), classes, k)
    ensures st.parity.Toggle(aet[k].above) == ParityAfter(p, Aboves(aet)[..k + 1])
    ensures ParityBelow(st).Toggle(aet[k].below) == ParityAfter(p, Belows(t, yb, aet)[..k + 1])
  {
    ParityPast(p, t, yb, aet, k);
  }

  /** The state of the scan when `k` edges are done; they make up the row `done`. */
  ghost predicate Scanned(op: Op, p: Flags, t: Table, yb: real, aet: seq<Edge>, out: Store, k: nat, done: seq<Edge>,
                          st: Scan)
    requires k <= |aet|
  {
    var belows, aboves := Belows(t, yb, aet), Aboves(aet);
    && ScanInv(op, Segments(t), yb, p, Aboves(done), belows[k..], st)
    && ScanTallied(op, yb, p, Aboves(done), belows[k..], st, belows, out)
    && ScanTurned(op, yb, p, Aboves(done), belows[k..], st, belows, out)
    && Cornered(yb, aet, Arounds(op, p, belows, aboves), k, out, st)
    && Closes(out, st.out, ScanMeets(yb, aet, Arounds(op, p, belows, aboves), k))
    && (Tidy(op, p, belows, yb, out) ==>
          NoRepeats(st.out) && EndsLower(yb, st.out, Ends(op, ParityBelow(st), belows[k..])))
    && st.parity == ParityAfter(p, aboves[..k]) && ParityBelow(st) == ParityAfter(p, belows[..k])
  }

  /** No vertex is repeated, and no end that is held is at the boundary yet. */
  ghost predicate Tidy(op: Op, p: Flags, belows: seq<Strand>, yb: real, out: Store) {
    NoRepeats(out) && EndsLower(yb, out, Ends(op, p, belows))
  }

  lemma ScannedAtFirst(op: Op, p: Flags, t: Table, yb: real, aet: seq<Edge>, st: Scan)
    requires ScanPre(op, t, yb, p, aet, st.out) && UpTo(st.out, yb)
    requires st == Scan(p, NH, NH, None, -DBL_MAX, st.out)
    ensures Scanned(op, p, t, yb, aet, st.out, 0, [], st)
  {
    hide ScanInv, ScanTallied, ScanTurned, Cornered, Belows, Aboves, RowHeld, UpTo, NoRepeats, EndsLower, ParityAfter,
      Closes;
    var belows, aboves := Belows(t, yb, aet), Aboves(aet);
    assert Aboves([]) == [];
    assert ParityBelow(st) == p && belows[0..] == belows;
    ScanStarts(op, Segments(t), yb, p, belows, st);
    ScanTallyStarts(op, yb, p, belows, st);
    ScanTurnStarts(op, yb, p, belows, st);
    CorneredAtFirst(yb, aet, Arounds(op, p, belows, aboves), st);
    ClosesNone(st.out);
    NothingPassed(p, aboves);
    NothingPassed(p, belows);
  }

  /** One edge. */
  lemma ScannedNext(op: Op, p: Flags, t: Table, yb: real, aet: seq<Edge>, out: Store, k: nat, done: seq<Edge>, st: Scan)
    requires ScanPre(op, t, yb, p, aet, out) && k < |aet| && Scanned(op, p, t, yb, aet, out, k, done, st)
    ensures Ready(op, st, aet[k])
    ensures var (st', e) := Step(op, yb, st, aet[k]); Scanned(op, p, t, yb, aet, out, k + 1, done + [e], st')
  {
    hide ScanInv, ScanTallied, ScanTurned, Cornered, Aboves, RowHeld, UpTo, NoRepeats, EndsLower, ParityAfter, Step,
      StepPre, Ready, Matched, Anchored, Stands, Ends, EdgeClass, Closes, ScanMeets;
    var segs, belows, aboves := Segments(t), Belows(t, yb, aet), Aboves(aet);
    var e, line, more := aet[k], LowerLine(t, yb, aet[k]), belows[k + 1..];
    assert belows[k..] == [BelowStrand(t, yb, e)] + more;
    hide Belows, LowerLine;
    RowStep(op, segs, yb, p, Aboves(done), more, st, e, line);
    TalliedUpTo(op, yb, p, Aboves(done), belows[k..], st, belows, out);
    RowReaches(op, segs, yb, p, Aboves(done), more, st, e, line);
    var rest := Elsewhere(op, p, Aboves(done), more, ParityBelow(st).Toggle(e.below));
    RowStepCornered(op, segs, yb, p, rest, t, aet, k, out, st);
    RowStepCloses(op, segs, yb, p, rest, t, aet, k, out, st);
    if Tidy(op, p, belows, yb, out) {
      RowStepDiffers(op, segs, yb, p, Aboves(done), more, st, e, line);
    }
    RowStepTurned(op, segs, yb, p, Aboves(done), more, st, e, line, belows, out);
    RowStepTallied(op, segs, yb, p, Aboves(done), more, st, e, line, belows, out);
    ParityPast(p, t, yb, aet, k);
    AbovesLast(done, Step(op, yb, st, e).1);
  }

  lemma AbovesLast(s: seq<Edge>, e: Edge)
    ensures Aboves(s + [e]) == Aboves(s) + [AboveStrand(e)]
  {
  }

  lemma ScannedAtLast(op: Op, p: Flags, t: Table, yb: real, aet: seq<Edge>, out: Store, done: seq<Edge>, st: Scan)
    requires ScanPre(op, t, yb, p, aet, out) && Scanned(op, p, t, yb, aet, out, |aet|, done, st)
    ensures RowHeld(op, Segments(t), p, Aboves(done), st.out) && Sided(p, Aboves(done))
    ensures st.parity == p && st.cf == None && ParityAfter(p, Aboves(done)) == p
    ensures SameBelow(op, yb, p, Belows(t, yb, aet), out, Aboves(done), st.out)
    ensures forall v :: Vertices(st.out, v) == Vertices(out, v) +
              ScanCorners(yb, aet, Arounds(op, p, Belows(t, yb, aet), Aboves(aet)), |aet|, v)
    ensures Tidy(op, p, Belows(t, yb, aet), yb, out) ==> NoRepeats(st.out)
    ensures Closes(out, st.out, ScanMeets(yb, aet, Arounds(op, p, Belows(t, yb, aet), Aboves(aet)), |aet|))
  {
    hide ScanTallied, ScanTurned, Cornered, RowHeld, UpTo, NoRepeats, EndsLower, ParityAfter, Between, SameBelow,
      Vertices, ScanCorners, Closes, ScanMeets;
    var belows, aboves := Belows(t, yb, aet), Aboves(aet);
    assert aboves[..|aet|] == aboves && belows[..|aet|] == belows && belows[|aet|..] == [];
    ScanEnds(op, Segments(t), yb, p, Aboves(done), st);
    ScanTallyEnds(op, yb, p, Aboves(done), st, belows, out);
    CorneredVertices(yb, aet, Arounds(op, p, belows, aboves), out, st);
  }

  /** Scans the whole row at height `yb`: the ends held below the boundary become
      the ends held above it, the running parity returns to its initial value, and no
      horizontal edge is left dangling.  Below the boundary, the sides drawn and still to be
      drawn stay the same.  `classes` are the edge classes found. */
  method ScanBoundary(op: Op, yb: real, p: Flags, aet: seq<Edge>, out: Store, ghost t: Table)
    returns (aet': seq<Edge>, parity: Flags, cf: Option<nat>, out': Store, ghost classes: seq<VertexClass>)
    requires ScanPre(op, t, yb, p, aet, out) && UpTo(out, yb)
    ensures |aet'| == |aet| && forall i :: 0 <= i < |aet| ==> SameButPointers(aet[i], aet'[i])
    ensures RowHeld(op, Segments(t), p, Aboves(aet'), out') && Sided(p, Aboves(aet'))
    ensures parity == p && cf == None
    ensures ParityAfter(p, Aboves(aet')) == p
    ensures SameBelow(op, yb, p, Belows(t, yb, aet), out, Aboves(aet'), out')
    ensures |classes| == |aet|
    ensures forall k :: 0 <= k < |aet| ==> Classed(op, p, Belows(t, yb, aet), Aboves(aet), classes, k)
    ensures var around := Arounds(op, p, Belows(t, yb, aet), Aboves(aet));
            forall v :: Vertices(out', v) == Vertices(out, v) + ScanCorners(yb, aet, around, |aet|, v)
    ensures Closes(out, out', ScanMeets(yb, aet, Arounds(op, p, Belows(t, yb, aet), Aboves(aet)), |aet|))
    ensures Tidy(op, p, Belows(t, yb, aet), yb, out) ==> NoRepeats(out')
  {
    hide ScanPre, Scanned, Ready, Step, RowHeld, Sided, SameBelow, Tidy, UpTo, Classed, ParityAfter, ScanCorners,
      Vertices, Aboves, Belows, EdgeClass, Closes, ScanMeets;
    var st := Scan(p, NH, NH, None, -DBL_MAX, out);
    aet', classes := [], [];
    ScannedAtFirst(op, p, t, yb, aet, st);
    for k := 0 to |aet|
      invariant |aet'| == k && forall i :: 0 <= i < k ==> SameButPointers(aet[i], aet'[i])
      invariant Scanned(op, p, t, yb, aet, out, k, aet', st)
      invariant |classes| == k
      invariant forall i :: 0 <= i < k ==> Classed(op, p, Belows(t, yb, aet), Aboves(aet), classes, i)
    {
      ScannedNext(op, p, t, yb, aet, out, k, aet', st);
      ghost var seen := classes;
      classes := classes + [EdgeClass(op, st, aet[k])];
      ClassedMore(op, p, t, yb, aet, out, seen, classes, k, aet', st);
      var (st', e) := Step(op, yb, st, aet[k]);
      st, aet' := st', aet' + [e];
    }
    ScannedAtLast(op, p, t, yb, aet, out, aet', st);
    parity, cf, out' := st.parity, st.cf, st.out;
  }

  lemma ClassedMore(op: Op, p: Flags, t: Table, yb: real, aet: seq<Edge>, out: Store, seen: seq<VertexClass>,
                    classes: seq<VertexClass>, k: nat, done: seq<Edge>, st: Scan)
    requires k < |aet| && Scanned(op, p, t, yb, aet, out, k, done, st)
    requires |seen| == k && classes == seen + [EdgeClass(op, st, aet[k])]
    requires forall i :: 0 <= i < k ==> Classed(op, p, Belows(t, yb, aet), Aboves(aet), seen, i)
    ensures forall i :: 0 <= i <= k ==> Classed(op, p, Belows(t, yb, aet), Aboves(aet), classes, i)
  {
    hide ScanInv, ScanTallied, ScanTurned, Cornered, EdgeClass, ParityAfter, Inside, Classify, Aboves, Belows, Tidy,
      Closes, ScanMeets;
    StepClassed(op, p, t, yb, aet, classes, k, st);
    forall i | 0 <= i < k
      ensures Classed(op, p, Belows(t, yb, aet), Aboves(aet), classes, i)
    {
      assert Classed(op, p, Belows(t, yb, aet), Aboves(aet), seen, i) && classes[i] == seen[i];
    }
  }

  lemma TalliedUpTo(op: Op, yb: real, p: Flags, done: seq<Strand>, todo: seq<Strand>, st: Scan, belows: seq<Strand>,
                    before: Store)
    requires ScanTallied(op, yb, p, done, todo, st, belows, before)
    ensures UpTo(st.out, yb)
  {
  }

  lemma NothingPassed(p: Flags, s: seq<Strand>)
    ensures ParityAfter(p, s[..0]) == p
  {
  }

  lemma ScanStarts(op: Op, segs: set<Segment>, yb: real, p: Flags, belows: seq<Strand>, st: Scan)
    requires RowHeld(op, segs, p, belows, st.out)
    requires st.parity == p && st.hclip == NH && st.hsubj == NH && st.cf == None
    ensures ScanInv(op, segs, yb, p, [], belows, st)
  {
    assert ParityBelow(st) == p;
    assert Ends(op, p, []) + Ends(op, p, belows) + EndOf(st.cf, SideAt(Inside(op, p))) == Ends(op, p, belows);
  }

  lemma ScanEnds(op: Op, segs: set<Segment>, yb: real, p: Flags, aboves: seq<Strand>, st: Scan)
    requires ScanInv(op, segs, yb, p, aboves, [], st)
    requires st.parity == ParityBelow(st) == p
    ensures st.cf.None? && RowHeld(op, segs, p, aboves, st.out) && ParityAfter(p, aboves) == p
  {
    assert Ends(op, p, aboves) + Ends(op, p, []) + EndOf(st.cf, SideAt(Inside(op, p))) == Ends(op, p, aboves);
  }
}
