/**
 The left-to-right automaton that `gpc_polygon_clip` runs over the active edge
 table at a scanbeam boundary.
 */
module Boundary {
  import opened Base
  import opened Edges
  import opened Output
  import opened Strands
  import opened Conservation

  datatype HState = NH | BH | TH

  /** `next_h_state`: rows NH, BH, TH; columns ABOVE, BELOW, CROSS, each with left
      and right parity. */
  const NEXT_H_STATE: seq<seq<HState>> :=
    [[BH, TH, TH, BH, NH, NH],
     [NH, NH, NH, NH, TH, TH],
     [NH, NH, NH, NH, BH, BH]]

  function Row(h: HState): nat {
    match h case NH => 0 case BH => 1 case TH => 2
  }

  /** The value of `exists`: bit 0 is the flag above the boundary, bit 1 below. */
  function Exists(above: bool, below: bool): nat {
    (if above then 1 else 0) + (if below then 2 else 0)
  }

  /** A horizontal edge is being followed exactly where the parities above and
      below the boundary differ.  Its state says, with the parity, whether the edge
      that it starts from comes from below or goes on above: BH is kept in step with the
      parity in the first case, and against it in the second. */
  function NextHState(h: HState, above: bool, below: bool, parity: bool): (r: HState)
    ensures r != NH <==> ((h != NH) != above) != below
    ensures h == NH && r != NH ==> (r == BH <==> parity == below)
    ensures h != NH && r != NH ==> (r == h <==> !above && !below)
  {
    var exists_ := Exists(above, below);
    if exists_ == 0 then h
    else NEXT_H_STATE[Row(h)][(exists_ - 1) * 2 + if parity then 1 else 0]
  }

  /** The edge classes, numbered in declaration order. */
  datatype VertexClass =
    NUL | EMX | ELI | TED | ERI | RED | IMM | IMN | EMN | EMM | LED | ILI | BED | IRI | IMX | FUL

  /** `tr + (tl << 1) + (br << 2) + (bl << 3)` */
  function Classify(tr: bool, tl: bool, br: bool, bl: bool): VertexClass {
    match (bl, br, tl, tr)
    case (false, false, false, false) => NUL
    case (false, false, false, true) => EMX
    case (false, false, true, false) => ELI
    case (false, false, true, true) => TED
    case (false, true, false, false) => ERI
    case (false, true, false, true) => RED
    case (false, true, true, false) => IMM
    case (false, true, true, true) => IMN
    case (true, false, false, false) => EMN
    case (true, false, false, true) => EMM
    case (true, false, true, false) => LED
    case (true, false, true, true) => ILI
    case (true, true, false, false) => BED
    case (true, true, false, true) => IRI
    case (true, true, true, false) => IMX
    case (true, true, true, true) => FUL
  }

  /** How many vertices an edge gets.  Where a horizontal comes in from the left, as the occupancies there differ, it
      gets a vertex at an edge that bounds the result, above or below, unless its last vertex is
      there already; and if the edge bounds the result on both sides, a contour starts besides.
      Without a horizontal, an edge that bounds the result on one side gets a vertex, and one that
      does so on both sides gets one just if it starts here. */
  function EdgeCorners(tr: bool, tl: bool, br: bool, bl: bool, moves: bool, starts: bool): nat {
    var above, below := br != bl, tr != tl;
    if tr != br then One((above || below) && moves) + One(above && below)
    else if above && below then One(starts)
    else One(above || below)
  }

  /** The contour has a vertex at the edge afterwards. */
  predicate Bounds(tr: bool, tl: bool, br: bool, bl: bool) {
    br != bl || tr != tl
  }

  /** How many vertices an edge gets, by its class. */
  lemma EdgeCornersByClass(tr: bool, tl: bool, br: bool, bl: bool, moves: bool, starts: bool)
    ensures EdgeCorners(tr, tl, br, bl, moves, starts) ==
      var c := Classify(tr, tl, br, bl);
      if c in {EMN, IMN, ELI, IRI} then 1
      else if c in {ERI, ILI, EMX, IMX} then if moves then 1 else 0
      else if c in {IMM, EMM} then if moves then 2 else 1
      else if c in {LED, RED} then if starts then 1 else 0
      else 0
  {
  }

  lemma EdgeCases(tr: bool, tl: bool, br: bool, bl: bool, moves: bool, starts: bool)
    ensures EdgeCorners(tr, tl, br, bl, moves, starts) ==
      if tr != br && tr != tl then One(moves) + One(bl != br)
      else if tr == tl == br != bl then 1
      else if tr != br then One(br != bl && moves)
      else if tr != tl then One(br == bl || starts)
      else 0
  {
  }

  /** The variables that the scan carries from edge to edge. */
  datatype Scan = Scan(parity: Flags, hclip: HState, hsubj: HState, cf: Option<nat>, px: real, out: Store)

  /** The running parity below the boundary. */
  function ParityBelow(st: Scan): Flags {
    st.parity.Toggle(Flags(st.hclip != NH, st.hsubj != NH))
  }

  predicate Contributing(op: Op, st: Scan, e: Edge) {
    var clip := Exists(e.above.clip, e.below.clip) != 0;
    var subj := Exists(e.above.subj, e.below.subj) != 0;
    match op
    case Xor => clip || subj
    case Union =>
      || (clip && (!st.parity.subj || st.hsubj != NH))
      || (subj && (!st.parity.clip || st.hclip != NH))
      || (clip && subj && st.parity.clip == st.parity.subj)
    case _ =>
      || (clip && (st.parity.subj || st.hsubj != NH))
      || (subj && (st.parity.clip || st.hclip != NH))
      || (clip && subj && st.parity.clip == st.parity.subj)
  }

  function EdgeClass(op: Op, st: Scan, e: Edge): VertexClass {
    Classify(
      Inside(op, ParityBelow(st)),
      Inside(op, ParityBelow(st).Toggle(e.below)),
      Inside(op, st.parity),
      Inside(op, st.parity.Toggle(e.above)))
  }

  /** The pointers that the scan is about to follow are set. */
  ghost predicate Ready(op: Op, st: Scan, e: Edge) {
    var p := ParityBelow(st);
    && Valid(st.out)
    && (st.cf.Some? <==> Inside(op, st.parity) != Inside(op, p))
    && (st.cf.Some? ==> st.cf.value < |st.out|)
    && (e.outBelow.Some? <==> Inside(op, p) != Inside(op, p.Toggle(e.below)))
    && (e.outBelow.Some? ==> e.outBelow.value < |st.out|)
  }

  /** The scan variables once the edge's flags are counted in. */
  function Count(st: Scan, e: Edge): (r: Scan)
    ensures r.parity == st.parity.Toggle(e.above)
    ensures ParityBelow(r) == ParityBelow(st).Toggle(e.below)
  {
    var parity := st.parity.Toggle(e.above);
    st.(
    parity := parity,
    hclip := NextHState(st.hclip, e.above.clip, e.below.clip, parity.clip),
    hsubj := NextHState(st.hsubj, e.above.subj, e.below.subj, parity.subj))
  }

  /** Handles one edge of the active edge table. */
  function Step(op: Op, yb: real, st: Scan, e: Edge): (r: (Scan, Edge))
    requires Ready(op, st, e)
    ensures r.0.parity == st.parity.Toggle(e.above)
    ensures ParityBelow(r.0) == ParityBelow(st).Toggle(e.below)
    ensures r.1 == e.(side := r.1.side, outAbove := r.1.outAbove, outBelow := r.1.outBelow)
  {
    if !e.above.Any() && !e.below.Any() then (st, e)
    else if !Contributing(op, st, e) then (Count(st, e), e.(side := st.parity))
    else Edit(EdgeClass(op, st, e), yb, Count(st, e), e.(side := st.parity))
  }

  /** The vertex that ends the horizontal edge, unless it is already there. */
  function Touch(s: Store, e: End, px: real, pt: Point): (t: Store)
    requires e.poly < |s| && s[e.poly].proxy < |s|
    ensures |t| == |s| && forall i :: 0 <= i < |s| ==> t[i].proxy == s[i].proxy
  {
    if pt.x != px then Add(s, e, pt) else s
  }

  /** The contour edit for an edge of class `c`. */
  function Edit(c: VertexClass, yb: real, st: Scan, e: Edge): (r: (Scan, Edge))
    requires Valid(st.out)
    requires c in {ERI, EMX, ILI, IMX, IMM, EMM} ==> st.cf.Some? && st.cf.value < |st.out|
    requires c in {ELI, EMX, IRI, IMX, IMM, EMM, LED, RED} ==> e.outBelow.Some? && e.outBelow.value < |st.out|
    ensures r.0 == st.(cf := r.0.cf, px := r.0.px, out := r.0.out)
    ensures r.1 == e.(outAbove := r.1.outAbove, outBelow := r.1.outBelow)
  {
    var pt := Point(e.xb, yb);
    match c
    case EMN | IMN =>
      (st.(out := AddLocalMin(st.out, pt), px := e.xb, cf := Some(|st.out|)), e.(outAbove := Some(|st.out|)))
    case ERI =>
      var out := Touch(st.out, End(st.cf.value, Right), st.px, pt);
      (st.(out := out, px := e.xb, cf := None), e.(outAbove := st.cf))
    case ELI =>
      (st.(out := AddLeft(st.out, e.outBelow.value, pt), px := e.xb, cf := e.outBelow), e)
    case EMX =>
      var out := Touch(st.out, End(st.cf.value, Left), st.px, pt);
      (st.(out := MergeRight(out, st.cf.value, e.outBelow.value), px := e.xb, cf := None), e)
    case ILI =>
      var out := Touch(st.out, End(st.cf.value, Left), st.px, pt);
      (st.(out := out, px := e.xb, cf := None), e.(outAbove := st.cf))
    case IRI =>
      (st.(out := AddRight(st.out, e.outBelow.value, pt), px := e.xb, cf := e.outBelow), e.(outBelow := None))
    case IMX =>
      var out := Touch(st.out, End(st.cf.value, Right), st.px, pt);
      (st.(out := MergeLeft(out, st.cf.value, e.outBelow.value), px := e.xb, cf := None), e.(outBelow := None))
    case IMM =>
      var out := Touch(st.out, End(st.cf.value, Right), st.px, pt);
      var merged := MergeLeft(out, st.cf.value, e.outBelow.value);
      (st.(out := AddLocalMin(merged, pt), px := e.xb, cf := Some(|merged|)),
       e.(outBelow := None, outAbove := Some(|merged|)))
    case EMM =>
      var out := Touch(st.out, End(st.cf.value, Left), st.px, pt);
      var merged := MergeRight(out, st.cf.value, e.outBelow.value);
      (st.(out := AddLocalMin(merged, pt), px := e.xb, cf := Some(|merged|)),
       e.(outBelow := None, outAbove := Some(|merged|)))
    case LED =>
      var out := if e.BotY() == yb then AddLeft(st.out, e.outBelow.value, pt) else st.out;
      (st.(out := out, px := e.xb), e.(outAbove := e.outBelow))
    case RED =>
      var out := if e.BotY() == yb then AddRight(st.out, e.outBelow.value, pt) else st.out;
      (st.(out := out, px := e.xb), e.(outAbove := e.outBelow))
    case _ => (st, e)
  }

  /** An edge that is passed over as not contributing lies wholly in or wholly out
      of the result. */
  lemma NotContributing(op: Op, st: Scan, e: Edge)
    requires e.above.Any() || e.below.Any()
    requires !Contributing(op, st, e)
    ensures EdgeClass(op, st, e) == if op == Union then FUL else NUL
  {
  }

  /** So it changes neither occupancy. */
  lemma PassedOver(op: Op, st: Scan, e: Edge)
    requires (e.above.Any() || e.below.Any()) && !Contributing(op, st, e)
    ensures Inside(op, ParityBelow(st)) == Inside(op, ParityBelow(st).Toggle(e.below))
    ensures Inside(op, st.parity) == Inside(op, st.parity.Toggle(e.above))
  {
    NotContributing(op, st, e);
  }

  /** What holds between two edges of the scan, given the occupancies above and
      below the boundary there.  `rest` are the ends held elsewhere. */
  ghost predicate Between(segs: set<Segment>, yb: real, rest: multiset<End>, above: bool, below: bool, st: Scan) {
    && (st.cf.Some? <==> above != below)
    && Sound(segs, rest + EndOf(st.cf, SideAt(above)), st.out)
    && (st.cf.Some? ==> At(st.out, st.cf.value, SideAt(above), Point(st.px, yb)))
  }

  ghost predicate At(s: Store, p: nat, side: Side, pt: Point) {
    Valid(s) && p < |s| && EndVertex(s, End(p, side)) == pt
  }

  /** A pointer is set exactly where the occupancy changes, and the vertex it leads
      to lies on `line`. */
  ghost predicate Strung(line: Segment, s: Store, o: Option<nat>, before: bool, after: bool) {
    && (o.Some? <==> before != after)
    && (o.Some? ==> Valid(s) && o.value < |s| && line.Contains(EndVertex(s, End(o.value, SideAt(before)))))
  }

  /** Where an edge stands on the boundary: on its own side, and on the side `line`
      that it continues from below. */
  ghost predicate Stands(segs: set<Segment>, yb: real, e: Edge, line: Segment) {
    && line in segs && line.Contains(Point(e.xb, yb))
    && e.info.seg in segs && e.info.seg.Contains(Point(e.xb, yb))
    && (e.BotY() != yb ==> line == e.info.seg)
  }

  /** The effect that an edit of an edge must have. */
  ghost predicate Edited(segs: set<Segment>, yb: real, rest: multiset<End>, st: Scan, e: Edge, r: (Scan, Edge),
                         tl: bool, br: bool, bl: bool)
  {
    && Valid(st.out)
    && Between(segs, yb, rest + EndOf(r.1.outAbove, SideAt(br)), bl, tl, r.0)
    && Strung(e.info.seg, r.0.out, r.1.outAbove, br, bl)
    && |st.out| <= |r.0.out| && Undisturbed(rest, st.out, r.0.out)
  }

  lemma TouchSound(segs: set<Segment>, rest: multiset<End>, s: Store, e: End, px: real, pt: Point)
    requires Sound(segs, rest + multiset{e}, s)
    requires e.poly < |s| && EndVertex(s, e) == Point(px, pt.y) && OnSide(segs, pt)
    ensures var t := Touch(s, e, px, pt);
            && |t| == |s| && Sound(segs, rest + multiset{e}, t) && EndVertex(t, e) == pt
            && Undisturbed(rest, s, t)
  {
    if pt.x != px {
      Extend(segs, rest, s, e, pt);
    }
  }

  ghost predicate EditPre(segs: set<Segment>, yb: real, rest: multiset<End>, st: Scan, e: Edge, line: Segment,
                          tr: bool, tl: bool, br: bool)
  {
    && Between(segs, yb, rest + EndOf(e.outBelow, SideAt(tr)), br, tr, st)
    && Strung(line, st.out, e.outBelow, tr, tl)
    && Stands(segs, yb, e, line)
    && e.outAbove.None?
  }

  /** The edit of a class finds the pointers that it follows. */
  ghost predicate EditOk(c: VertexClass, st: Scan, e: Edge) {
    && Valid(st.out)
    && (c in {ERI, EMX, ILI, IMX, IMM, EMM} ==> st.cf.Some? && st.cf.value < |st.out|)
    && (c in {ELI, EMX, IRI, IMX, IMM, EMM, LED, RED} ==> e.outBelow.Some? && e.outBelow.value < |st.out|)
  }

  lemma EditPointers(segs: set<Segment>, yb: real, rest: multiset<End>, st: Scan, e: Edge, line: Segment,
                     tr: bool, tl: bool, br: bool)
    requires EditPre(segs, yb, rest, st, e, line, tr, tl, br)
    ensures Valid(st.out) && (st.cf.Some? <==> tr != br) && (e.outBelow.Some? <==> tr != tl)
    ensures (st.cf.Some? ==> st.cf.value < |st.out|) && (e.outBelow.Some? ==> e.outBelow.value < |st.out|)
    ensures forall bl :: EditOk(Classify(tr, tl, br, bl), st, e)
  {
    hide Traced;
  }

  /** What the cases that move one end do. */

  lemma TurnsUpIs(yb: real, st: Scan, e: Edge, o: bool)
    requires Valid(st.out) && st.cf.Some? && st.cf.value < |st.out|
    ensures var (st', e') := Edit(if o then ERI else ILI, yb, st, e);
            && st'.out == Touch(st.out, End(st.cf.value, SideAt(o)), st.px, Point(e.xb, yb))
            && st'.cf.None? && e'.outAbove == st.cf
  {
  }

  lemma TurnsAcrossIs(yb: real, st: Scan, e: Edge, o: bool)
    requires Valid(st.out) && e.outBelow.Some? && e.outBelow.value < |st.out|
    ensures var (st', e') := Edit(if o then IRI else ELI, yb, st, e);
            && st'.out == Add(st.out, End(e.outBelow.value, SideAt(o)), Point(e.xb, yb))
            && st'.cf == e.outBelow && st'.px == e.xb && e'.outAbove == e.outAbove
  {
  }

  lemma GoesOnIs(yb: real, st: Scan, e: Edge, o: bool)
    requires Valid(st.out) && e.outBelow.Some? && e.outBelow.value < |st.out|
    ensures var (st', e') := Edit(if o then RED else LED, yb, st, e);
            && st'.out == (if e.BotY() == yb then Add(st.out, End(e.outBelow.value, SideAt(o)), Point(e.xb, yb))
                           else st.out)
            && st'.cf == st.cf && e'.outAbove == e.outBelow
  {
  }

  /** The vertices that these cases add. */

  lemma TurnsUpAdds(segs: set<Segment>, yb: real, rest: multiset<End>, st: Scan, e: Edge, line: Segment, o: bool)
    requires EditPre(segs, yb, rest, st, e, line, !o, !o, o)
    ensures Valid(st.out) && st.cf.Some? && st.cf.value < |st.out|
    ensures Adds(st.out, Edit(if o then ERI else ILI, yb, st, e).0.out, Point(e.xb, yb), if e.xb != st.px then 1 else 0)
  {
    EditPointers(segs, yb, rest, st, e, line, !o, !o, o);
    hide EditPre, Edit, Add, Adds, Valid;
    TurnsUpIs(yb, st, e, o);
    var held, pt := End(st.cf.value, SideAt(o)), Point(e.xb, yb);
    AddsNone(st.out, pt);
    AddsOne(st.out, held, pt);
  }

  lemma MeetsAdds(segs: set<Segment>, yb: real, rest: multiset<End>, st: Scan, e: Edge, line: Segment, o: bool,
                  starts: bool)
    requires EditPre(segs, yb, rest, st, e, line, !o, o, o)
    ensures Valid(st.out) && st.cf.Some? && st.cf.value < |st.out|
    ensures e.outBelow.Some? && e.outBelow.value < |st.out|
    ensures Adds(st.out, Edit(Classify(!o, o, o, o != starts), yb, st, e).0.out, Point(e.xb, yb),
           (if e.xb != st.px then 1 else 0) + if starts then 1 else 0)
  {
    EditPointers(segs, yb, rest, st, e, line, !o, o, o);
    hide EditPre, Edit, Add, Adds, Valid, Merge, AddLocalMin, Classify;
    MeetsIs(yb, st, e, o, starts);
    MeetAdds(st.out, st.cf.value, e.outBelow.value, SideAt(o), e.xb != st.px, starts, Point(e.xb, yb));
  }

  /** The horizontal edge turns up into this edge: it held a left end (ILI) or a right end (ERI). */
  lemma EditTurnsUp(segs: set<Segment>, yb: real, rest: multiset<End>, st: Scan, e: Edge, line: Segment, o: bool)
    requires EditPre(segs, yb, rest, st, e, line, !o, !o, o)
    ensures Edited(segs, yb, rest, st, e, Edit(if o then ERI else ILI, yb, st, e), !o, o, !o)
    ensures Adds(st.out, Edit(if o then ERI else ILI, yb, st, e).0.out, Point(e.xb, yb), if e.xb != st.px then 1 else 0)
  {
    hide Sound, Undisturbed, EndVertex, Edit, Add, Valid, Adds;
    TurnsUpAdds(segs, yb, rest, st, e, line, o);
    var held := End(st.cf.value, SideAt(o));
    var pt := Point(e.xb, yb);
    assert rest + EndOf(e.outBelow, SideAt(!o)) + EndOf(st.cf, SideAt(o)) == rest + multiset{held};
    SoundIsValid(segs, rest + multiset{held}, st.out);
    TurnsUpIs(yb, st, e, o);
    TouchSound(segs, rest, st.out, held, st.px, pt);
    SoundIsValid(segs, rest + multiset{held}, Touch(st.out, held, st.px, pt));
    assert rest + EndOf(st.cf, SideAt(o)) + EndOf(None, SideAt(!o)) == rest + multiset{held};
  }

  /** The edge coming from below turns into the horizontal. */
  lemma EditTurnsAcross(segs: set<Segment>, yb: real, rest: multiset<End>, st: Scan, e: Edge, line: Segment, o: bool)
    requires EditPre(segs, yb, rest, st, e, line, o, !o, o)
    ensures Edited(segs, yb, rest, st, e, Edit(if o then IRI else ELI, yb, st, e), !o, o, o)
  {
    hide Sound, Undisturbed, EndVertex, Edit, Add, Valid;
    var held := End(e.outBelow.value, SideAt(o));
    var pt := Point(e.xb, yb);
    assert rest + EndOf(e.outBelow, SideAt(o)) + EndOf(st.cf, SideAt(o)) == rest + multiset{held};
    SoundIsValid(segs, rest + multiset{held}, st.out);
    TurnsAcrossIs(yb, st, e, o);
    assert Along(segs, EndVertex(st.out, held), pt);
    Extend(segs, rest, st.out, held, pt);
    SoundIsValid(segs, rest + multiset{held}, Add(st.out, held, pt));
    assert rest + EndOf(e.outAbove, SideAt(o)) + EndOf(e.outBelow, SideAt(o)) == rest + multiset{held};
  }

  /** The edge goes straight on, with a vertex if it begins here. */
  lemma EditGoesOn(segs: set<Segment>, yb: real, rest: multiset<End>, st: Scan, e: Edge, line: Segment, o: bool)
    requires EditPre(segs, yb, rest, st, e, line, o, !o, o)
    ensures Edited(segs, yb, rest, st, e, Edit(if o then RED else LED, yb, st, e), !o, o, !o)
  {
    hide Sound, Undisturbed, EndVertex, Edit, Add, Valid;
    var held := End(e.outBelow.value, SideAt(o));
    var pt := Point(e.xb, yb);
    assert rest + EndOf(e.outBelow, SideAt(o)) + EndOf(st.cf, SideAt(o)) == rest + multiset{held};
    SoundIsValid(segs, rest + multiset{held}, st.out);
    GoesOnIs(yb, st, e, o);
    if e.BotY() == yb {
      assert Along(segs, EndVertex(st.out, held), pt);
      Extend(segs, rest, st.out, held, pt);
      SoundIsValid(segs, rest + multiset{held}, Add(st.out, held, pt));
    } else {
      UndisturbedSelf(rest, st.out);
    }
    assert rest + EndOf(e.outBelow, SideAt(o)) + EndOf(st.cf, SideAt(!o)) == rest + multiset{held};
  }

  /** A new contour's ends go up the edge and along the horizontal. */
  lemma StartBetween(segs: set<Segment>, yb: real, rest: multiset<End>, s: Store, e: Edge, st: Scan, o: bool)
    requires Sound(segs, rest, s)
    requires e.info.seg in segs && e.info.seg.Contains(Point(e.xb, yb))
    requires st.out == AddLocalMin(s, Point(e.xb, yb)) && st.cf == Some(|s|) && st.px == e.xb
    ensures Between(segs, yb, rest + EndOf(Some(|s|), SideAt(o)), !o, o, st)
    ensures Strung(e.info.seg, st.out, Some(|s|), o, !o)
    ensures |s| <= |st.out| && Undisturbed(rest, s, st.out)
  {
    Start(segs, rest, s, Point(e.xb, yb));
    assert rest + EndOf(Some(|s|), SideAt(o)) + EndOf(st.cf, SideAt(!o))
        == rest + multiset{End(|s|, Left), End(|s|, Right)};
  }

  /** A contour starts with this edge. */
  lemma EditStarts(segs: set<Segment>, yb: real, rest: multiset<End>, st: Scan, e: Edge, line: Segment, o: bool)
    requires EditPre(segs, yb, rest, st, e, line, o, o, o)
    ensures Edited(segs, yb, rest, st, e, Edit(if o then IMN else EMN, yb, st, e), o, o, !o)
  {
    SoundIsValid(segs, rest + EndOf(e.outBelow, SideAt(o)) + EndOf(st.cf, SideAt(o)), st.out);
    hide Sound, AddLocalMin, Undisturbed, EndVertex, Valid;
    var (st', e') := Edit(if o then IMN else EMN, yb, st, e);
    assert rest + EndOf(e.outBelow, SideAt(o)) + EndOf(st.cf, SideAt(o)) == rest;
    StartBetween(segs, yb, rest, st.out, e, st', o);
  }

  /** Joining the end that the horizontal carries with the edge's lower end. */
  lemma Meet(segs: set<Segment>, yb: real, rest: multiset<End>, st: Scan, e: Edge, line: Segment, o: bool)
    requires EditPre(segs, yb, rest, st, e, line, !o, o, o)
    ensures st.cf.Some? && e.outBelow.Some? && st.cf.value < |st.out| && e.outBelow.value < |st.out|
    ensures Valid(st.out)
    ensures var t := Touch(st.out, End(st.cf.value, SideAt(o)), st.px, Point(e.xb, yb));
            && |t| == |st.out| && Valid(t)
            && var s := Merge(t, st.cf.value, e.outBelow.value, SideAt(o));
               Sound(segs, rest, s) && Undisturbed(rest, st.out, s)
  {
    var pt := Point(e.xb, yb);
    var a, b := End(st.cf.value, SideAt(o)), End(e.outBelow.value, SideAt(!o));
    var held := rest + multiset{b};
    assert rest + EndOf(e.outBelow, SideAt(!o)) + EndOf(st.cf, SideAt(o)) == held + multiset{a};
    TouchSound(segs, held, st.out, a, st.px, pt);
    var t := Touch(st.out, a, st.px, pt);
    assert b in held && forall e :: e in rest ==> e in held;
    assert EndVertex(t, b) == EndVertex(st.out, b);
    assert held + multiset{a} == rest + multiset{a} + multiset{b};
    Join(segs, rest, t, a.poly, b.poly, a.side);
  }

  /** The horizontal meets the edge coming from below: their ends are joined. */
  lemma EditMeets(segs: set<Segment>, yb: real, rest: multiset<End>, st: Scan, e: Edge, line: Segment, o: bool)
    requires EditPre(segs, yb, rest, st, e, line, !o, o, o)
    ensures Edited(segs, yb, rest, st, e, Edit(if o then IMX else EMX, yb, st, e), o, o, o)
    ensures Adds(st.out, Edit(if o then IMX else EMX, yb, st, e).0.out, Point(e.xb, yb), if e.xb != st.px then 1 else 0)
  {
    hide Sound, Along, MergeLeft, MergeRight, AddLeft, AddRight, AddLocalMin, Undisturbed, EndVertex, Adds;
    MeetsAdds(segs, yb, rest, st, e, line, o, false);
    var (st', e') := Edit(if o then IMX else EMX, yb, st, e);
    Meet(segs, yb, rest, st, e, line, o);
    var pt := Point(e.xb, yb);
    var s := Merge(Touch(st.out, End(st.cf.value, SideAt(o)), st.px, pt), st.cf.value, e.outBelow.value, SideAt(o));
    assert st'.out == s;
    assert rest + EndOf(e'.outAbove, SideAt(o)) + EndOf(st'.cf, SideAt(o)) == rest;
  }

  /** The ends are joined, and a new contour starts at the same point. */
  lemma EditMeetsAndStarts(segs: set<Segment>, yb: real, rest: multiset<End>, st: Scan, e: Edge, line: Segment, o: bool)
    requires EditPre(segs, yb, rest, st, e, line, !o, o, o)
    ensures Edited(segs, yb, rest, st, e, Edit(if o then IMM else EMM, yb, st, e), o, o, !o)
    ensures Adds(st.out, Edit(if o then IMM else EMM, yb, st, e).0.out, Point(e.xb, yb), if e.xb != st.px then 2 else 1)
  {
    hide Along, MergeLeft, MergeRight, AddLeft, AddRight, AddLocalMin, EndVertex, Adds;
    MeetsAdds(segs, yb, rest, st, e, line, o, true);
    var (st', e') := Edit(if o then IMM else EMM, yb, st, e);
    Meet(segs, yb, rest, st, e, line, o);
    var t := Touch(st.out, End(st.cf.value, SideAt(o)), st.px, Point(e.xb, yb));
    var s := Merge(t, st.cf.value, e.outBelow.value, SideAt(o));
    StartBetween(segs, yb, rest, s, e, st', o);
    UndisturbedTrans(rest, st.out, s, st'.out);
  }

  /** What the cases that join two ends do: with `o`, a right end comes along the horizontal. */
  lemma MeetsIs(yb: real, st: Scan, e: Edge, o: bool, starts: bool)
    requires Valid(st.out) && st.cf.Some? && st.cf.value < |st.out|
    requires e.outBelow.Some? && e.outBelow.value < |st.out|
    ensures var t := Touch(st.out, End(st.cf.value, SideAt(o)), st.px, Point(e.xb, yb));
            && Valid(t) && |t| == |st.out|
            && var s := Merge(t, st.cf.value, e.outBelow.value, SideAt(o));
               Edit(Classify(!o, o, o, o != starts), yb, st, e).0.out ==
               if starts then AddLocalMin(s, Point(e.xb, yb)) else s
  {
    TouchKeepsNodes(st.out, End(st.cf.value, SideAt(o)), st.px, Point(e.xb, yb));
    hide Valid, AddLocalMin, MergeLeft, MergeRight, AddLeft, AddRight;
  }

  lemma MeetingEnds(segs: set<Segment>, yb: real, rest: multiset<End>, st: Scan, e: Edge, line: Segment, o: bool)
    requires EditPre(segs, yb, rest, st, e, line, !o, o, o)
    ensures Valid(st.out) && st.cf.Some? && st.cf.value < |st.out| && e.outBelow.Some? && e.outBelow.value < |st.out|
  {
    SoundIsValid(segs, rest + EndOf(e.outBelow, SideAt(!o)) + EndOf(st.cf, SideAt(o)), st.out);
    hide Sound;
  }

  /** A contour is closed as a hole exactly if the region below the boundary, between the two ends
      that meet, is not part of the result. */
  lemma ClosedAsHole(segs: set<Segment>, yb: real, rest: multiset<End>, st: Scan, e: Edge, line: Segment,
                     tr: bool, tl: bool, br: bool, bl: bool)
    requires EditPre(segs, yb, rest, st, e, line, tr, tl, br) && tr != tl && br != tr
    ensures Valid(st.out) && st.cf.Some? && st.cf.value < |st.out| && e.outBelow.Some? && e.outBelow.value < |st.out|
    ensures Classify(tr, tl, br, bl) in {EMX, IMX, EMM, IMM}
    ensures st.out[st.cf.value].proxy == st.out[e.outBelow.value].proxy ==>
      var out := Edit(Classify(tr, tl, br, bl), yb, st, e).0.out; var r := st.out[st.cf.value].proxy;
      r < |out| && out[r].closed && out[r].hole == Some(!tr)
  {
    MeetingEnds(segs, yb, rest, st, e, line, br);
    hide EditPre, Edit, Merge, Touch;
    var a, pt := End(st.cf.value, SideAt(br)), Point(e.xb, yb);
    TouchKeepsNodes(st.out, a, st.px, pt);
    MeetsIs(yb, st, e, br, bl != br);
    MergeNodes(Touch(st.out, a, st.px, pt), st.cf.value, e.outBelow.value, a.side);
  }

  lemma TouchKeepsNodes(s: Store, e: End, px: real, pt: Point)
    requires Valid(s) && e.poly < |s|
    ensures var t := Touch(s, e, px, pt);
            |t| == |s| && Valid(t) && forall r :: 0 <= r < |s| ==> t[r].proxy == s[r].proxy
  {
    AddKeepsOthers(s, e, pt);
  }

  /** The edge crosses no border of the result. */
  lemma EditPasses(segs: set<Segment>, yb: real, rest: multiset<End>, st: Scan, e: Edge, line: Segment,
                   below: bool, above: bool)
    requires EditPre(segs, yb, rest, st, e, line, below, below, above)
    ensures Edited(segs, yb, rest, st, e, (st, e), below, above, above)
  {
    SoundIsValid(segs, rest + EndOf(e.outBelow, SideAt(below)) + EndOf(st.cf, SideAt(above)), st.out);
    hide Sound, Along, EndVertex;
    assert EndOf(e.outAbove, SideAt(above)) == EndOf(e.outBelow, SideAt(below));
  }

  lemma MovesPx(yb: real, st: Scan, e: Edge, tr: bool, tl: bool, br: bool, bl: bool)
    requires EditOk(Classify(tr, tl, br, bl), st, e)
    ensures Edit(Classify(tr, tl, br, bl), yb, st, e).0.px == if Bounds(tr, tl, br, bl) then e.xb else st.px
  {
  }

  /** What the cases that start a contour or move one end do. */
  lemma MovesIs(yb: real, st: Scan, e: Edge, tr: bool, tl: bool, br: bool, bl: bool)
    requires EditOk(Classify(tr, tl, br, bl), st, e) && !(tr != br && tr != tl)
    requires (st.cf.Some? <==> tr != br) && (e.outBelow.Some? <==> tr != tl)
    requires (st.cf.Some? ==> st.cf.value < |st.out|) && (e.outBelow.Some? ==> e.outBelow.value < |st.out|)
    ensures Edit(Classify(tr, tl, br, bl), yb, st, e).0.out ==
      var pt := Point(e.xb, yb);
      if tr == tl == br != bl then AddLocalMin(st.out, pt)
      else if tr != br && br != bl && pt.x != st.px then Add(st.out, End(st.cf.value, SideAt(br)), pt)
      else if tr != tl && (br == bl || e.BotY() == yb) then Add(st.out, End(e.outBelow.value, SideAt(tr)), pt)
      else st.out
  {
    hide AddLeft, AddRight, AddLocalMin, Valid;
  }

  lemma EditCounts(segs: set<Segment>, yb: real, rest: multiset<End>, st: Scan, e: Edge, line: Segment,
                   tr: bool, tl: bool, br: bool, bl: bool)
    requires EditPre(segs, yb, rest, st, e, line, tr, tl, br)
    ensures EditOk(Classify(tr, tl, br, bl), st, e)
    ensures var st' := Edit(Classify(tr, tl, br, bl), yb, st, e).0;
            && Adds(st.out, st'.out, Point(e.xb, yb),
                    EdgeCorners(tr, tl, br, bl, e.xb != st.px, e.BotY() == yb))
            && st'.px == if Bounds(tr, tl, br, bl) then e.xb else st.px
  {
    EditPointers(segs, yb, rest, st, e, line, tr, tl, br);
    MovesPx(yb, st, e, tr, tl, br, bl);
    EdgeCases(tr, tl, br, bl, e.xb != st.px, e.BotY() == yb);
    var pt := Point(e.xb, yb);
    hide EditPre, Adds, Valid, Edit, Add, AddLocalMin, Merge, Classify, EdgeCorners, Bounds, EditOk;
    if tr != br && tr != tl {
      MeetsIs(yb, st, e, br, bl != br);
      MeetAdds(st.out, st.cf.value, e.outBelow.value, SideAt(br), e.xb != st.px, bl != br, pt);
    } else {
      MovesIs(yb, st, e, tr, tl, br, bl);
      AddsNone(st.out, pt);
      if tr == tl == br != bl {
        AddsLocalMin(st.out, pt);
      } else if tr != br {
        AddsOne(st.out, End(st.cf.value, SideAt(br)), pt);
      } else if tr != tl {
        AddsOne(st.out, End(e.outBelow.value, SideAt(tr)), pt);
      }
    }
  }

  lemma EditHolds(segs: set<Segment>, yb: real, rest: multiset<End>, st: Scan, e: Edge, line: Segment,
                  tr: bool, tl: bool, br: bool, bl: bool)
    requires EditPre(segs, yb, rest, st, e, line, tr, tl, br)
    ensures Edited(segs, yb, rest, st, e, Edit(Classify(tr, tl, br, bl), yb, st, e), tl, br, bl)
  {
    hide Edited, EditPre;
    if br == bl && tr == tl {
      EditPasses(segs, yb, rest, st, e, line, tr, br);
    } else if br == bl {
      if br == tr {
        EditTurnsAcross(segs, yb, rest, st, e, line, br);
      } else {
        EditMeets(segs, yb, rest, st, e, line, br);
      }
    } else if tr == tl {
      if br == tr {
        EditStarts(segs, yb, rest, st, e, line, br);
      } else {
        EditTurnsUp(segs, yb, rest, st, e, line, br);
      }
    } else {
      if br == tr {
        EditGoesOn(segs, yb, rest, st, e, line, br);
      } else {
        EditMeetsAndStarts(segs, yb, rest, st, e, line, br);
      }
    }
  }

  /** Whatever its class, the edit has the right effect, and it adds just the vertices that the
      occupancies around the edge call for, all of them where the edge is. */
  lemma EditKeeps(segs: set<Segment>, yb: real, rest: multiset<End>, st: Scan, e: Edge, line: Segment,
                  tr: bool, tl: bool, br: bool, bl: bool)
    requires EditPre(segs, yb, rest, st, e, line, tr, tl, br)
    ensures Edited(segs, yb, rest, st, e, Edit(Classify(tr, tl, br, bl), yb, st, e), tl, br, bl)
    ensures var st' := Edit(Classify(tr, tl, br, bl), yb, st, e).0; var pt := Point(e.xb, yb);
            && st'.px == (if Bounds(tr, tl, br, bl) then e.xb else st.px)
            && Adds(st.out, st'.out, pt, EdgeCorners(tr, tl, br, bl, e.xb != st.px, e.BotY() == yb))
    ensures var c := Classify(tr, tl, br, bl);
            EdgeCorners(tr, tl, br, bl, e.xb != st.px, e.BotY() == yb) ==
            if c in {EMN, IMN, ELI, IRI} then 1
            else if c in {ERI, ILI, EMX, IMX} then if e.xb != st.px then 1 else 0
            else if c in {IMM, EMM} then if e.xb != st.px then 2 else 1
            else if c in {LED, RED} then if e.BotY() == yb then 1 else 0
            else 0
  {
    EdgeCornersByClass(tr, tl, br, bl, e.xb != st.px, e.BotY() == yb);
    EditPointers(segs, yb, rest, st, e, line, tr, tl, br);
    MovesPx(yb, st, e, tr, tl, br, bl);
    hide EditPre, Adds, Edit, Edited, Classify, EdgeCorners, Bounds, EditOk;
    EditHolds(segs, yb, rest, st, e, line, tr, tl, br, bl);
    EditCounts(segs, yb, rest, st, e, line, tr, tl, br, bl);
  }

  /** What holds when the scan reaches an edge; `rest` are the ends held by the
      edges already handled and those still to come. */
  ghost predicate StepPre(op: Op, segs: set<Segment>, yb: real, rest: multiset<End>, st: Scan, e: Edge, line: Segment) {
    var p := ParityBelow(st);
    EditPre(segs, yb, rest, st, e, line, Inside(op, p), Inside(op, p.Toggle(e.below)), Inside(op, st.parity))
  }

  ghost predicate Stepped(op: Op, segs: set<Segment>, yb: real, rest: multiset<End>, st: Scan, e: Edge,
                          r: (Scan, Edge)) {
    && Edited(segs, yb, rest, st, e, r, Inside(op, ParityBelow(r.0)), Inside(op, st.parity), Inside(op, r.0.parity))
    && (e.above.Any() ==> r.1.side == st.parity)
  }

  /** An edge without effect on the occupancies may be passed over. */
  lemma PassKeeps(op: Op, segs: set<Segment>, yb: real, rest: multiset<End>, st: Scan, e: Edge, line: Segment,
                  side: Flags)
    requires StepPre(op, segs, yb, rest, st, e, line)
    requires Inside(op, st.parity) == Inside(op, st.parity.Toggle(e.above))
    requires Inside(op, ParityBelow(st)) == Inside(op, ParityBelow(st).Toggle(e.below))
    requires e.above.Any() ==> side == st.parity
    ensures Stepped(op, segs, yb, rest, st, e, (Count(st, e), e.(side := side)))
  {
    EditPasses(segs, yb, rest, Count(st, e), e.(side := side), line, Inside(op, ParityBelow(st)),
      Inside(op, st.parity));
  }

  lemma ContributingKeeps(op: Op, segs: set<Segment>, yb: real, rest: multiset<End>, st: Scan, e: Edge, line: Segment)
    requires StepPre(op, segs, yb, rest, st, e, line)
    requires Ready(op, st, e) && (e.above.Any() || e.below.Any()) && Contributing(op, st, e)
    ensures Stepped(op, segs, yb, rest, st, e, Step(op, yb, st, e))
  {
    hide Edit, Edited, EditPre, Classify, Contributing, Ready, Inside;
    var p := ParityBelow(st);
    var tr, tl := Inside(op, p), Inside(op, p.Toggle(e.below));
    var br, bl := Inside(op, st.parity), Inside(op, st.parity.Toggle(e.above));
    Counted(op, segs, yb, rest, st, e, line);
    EditHolds(segs, yb, rest, Count(st, e), e.(side := st.parity), line, tr, tl, br, bl);
    CountedEdited(segs, yb, rest, st, e, Step(op, yb, st, e), tl, br, bl);
  }

  /** Counting an edge in changes nothing that an edit reads. */

  lemma Counted(op: Op, segs: set<Segment>, yb: real, rest: multiset<End>, st: Scan, e: Edge, line: Segment)
    requires StepPre(op, segs, yb, rest, st, e, line)
    ensures var p := ParityBelow(st);
            EditPre(segs, yb, rest, Count(st, e), e.(side := st.parity), line,
                    Inside(op, p), Inside(op, p.Toggle(e.below)), Inside(op, st.parity))
    ensures Count(st, e).out == st.out
  {
    hide Sound;
  }

  lemma CountedEdited(segs: set<Segment>, yb: real, rest: multiset<End>, st: Scan, e: Edge, r: (Scan, Edge),
                      tl: bool, br: bool, bl: bool)
    requires Edited(segs, yb, rest, Count(st, e), e.(side := st.parity), r, tl, br, bl)
    ensures Edited(segs, yb, rest, st, e, r, tl, br, bl)
  {
    hide Sound, EndVertex, Undisturbed;
  }

  lemma StepIsReady(op: Op, segs: set<Segment>, yb: real, rest: multiset<End>, st: Scan, e: Edge, line: Segment)
    requires StepPre(op, segs, yb, rest, st, e, line)
    ensures Ready(op, st, e)
  {
    var p := ParityBelow(st);
    SoundIsValid(segs, rest + EndOf(e.outBelow, SideAt(Inside(op, p))) + EndOf(st.cf, SideAt(Inside(op, st.parity))),
      st.out);
    hide Sound, Inside;
  }

  /** Handling one edge finds every pointer it follows, keeps exactly one holder for
      each end of each open contour, and leaves a vertex of the edge at the end that
      the edge now holds. */
  lemma StepKeeps(op: Op, segs: set<Segment>, yb: real, rest: multiset<End>, st: Scan, e: Edge, line: Segment)
    requires StepPre(op, segs, yb, rest, st, e, line)
    ensures Ready(op, st, e)
    ensures Stepped(op, segs, yb, rest, st, e, Step(op, yb, st, e))
  {
    StepIsReady(op, segs, yb, rest, st, e, line);
    hide StepPre, Ready, Stepped, Edit, EdgeClass, Contributing, Inside;
    if !e.above.Any() && !e.below.Any() {
      PassKeeps(op, segs, yb, rest, st, e, line, e.side);
      assert Count(st, e) == st && e.(side := e.side) == e;
    } else if Contributing(op, st, e) {
      ContributingKeeps(op, segs, yb, rest, st, e, line);
    } else {
      NotContributing(op, st, e);
      PassKeeps(op, segs, yb, rest, st, e, line, st.parity);
    }
  }
}
