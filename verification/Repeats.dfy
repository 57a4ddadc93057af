/**
 No vertex is repeated by a boundary scan: where no contour has two equal neighbouring vertices
 and no held end is at the boundary yet, none has them afterwards.
 */
module Repeats {
  import opened Base
  import opened Edges
  import opened Output
  import opened Strands
  import opened Boundary

  /** Neighbouring vertices of the contour differ, also across the side that closed it. */
  ghost predicate Differs(c: Poly) {
    && PathDiffers(c.verts)
    && (c.closed && c.verts != [] ==> c.verts[|c.verts| - 1] != c.verts[0])
  }

  ghost predicate PathDiffers(v: seq<Point>) {
    forall i :: 0 <= i < |v| - 1 ==> v[i] != v[i + 1]
  }

  ghost predicate NoRepeats(s: Store) {
    forall r :: 0 <= r < |s| ==> Differs(s[r])
  }

  lemma ConcatDiffers(v: seq<Point>, w: seq<Point>)
    requires PathDiffers(v) && PathDiffers(w) && v != [] && w != [] && v[|v| - 1] != w[0]
    ensures PathDiffers(v + w)
  {
    forall i | 0 <= i < |v + w| - 1
      ensures (v + w)[i] != (v + w)[i + 1]
    {
      if |v| <= i {
        assert w[i - |v|] != w[i - |v| + 1];
      }
    }
  }

  lemma AddDiffers(s: Store, e: End, pt: Point)
    requires NoRepeats(s) && Valid(s) && e.poly < |s| && Open(s, Rep(s, e)) && EndVertex(s, e) != pt
    ensures NoRepeats(Add(s, e, pt))
  {
    var t := Add(s, e, pt);
    var r := Rep(s, e);
    assert Differs(s[r]);
    assert Differs(t[r]);
    forall i | 0 <= i < |t| && i != r
      ensures Differs(t[i])
    {
      assert t[i] == s[i];
    }
  }

  lemma StartDiffers(s: Store, pt: Point)
    requires NoRepeats(s)
    ensures NoRepeats(AddLocalMin(s, pt))
  {
    hide Differs;
    assert Differs(Poly(|s|, true, None, [pt], false)) by { SinglePointDiffers(|s|, pt); }
  }

  lemma SinglePointDiffers(n: nat, pt: Point)
    ensures Differs(Poly(n, true, None, [pt], false))
  {
  }

  /** What a merge does to the vertices. */
  lemma MergedVertices(s: Store, p: nat, q: nat, side: Side)
    requires Valid(s) && p < |s| && q < |s| && Open(s, s[p].proxy) && Open(s, s[q].proxy)
    ensures var t := Merge(s, p, q, side); var (rp, rq) := (s[p].proxy, s[q].proxy);
            && (forall i :: 0 <= i < |s| && i != rq ==> t[i].verts == [] || t[i] == s[i])
            && t[rq].closed == (rp == rq)
            && t[rq].verts == if rp == rq then s[rq].verts
                              else if side == Right then s[rp].verts + s[rq].verts
                              else s[rq].verts + s[rp].verts
  {
  }

  lemma MergeDiffers(s: Store, p: nat, q: nat, side: Side)
    requires NoRepeats(s) && Valid(s) && p < |s| && q < |s| && Open(s, s[p].proxy) && Open(s, s[q].proxy)
    requires EndVertex(s, End(p, side)) != EndVertex(s, End(q, Other(side)))
    ensures NoRepeats(Merge(s, p, q, side))
  {
    MergedVertices(s, p, q, side);
    var t, rp, rq := Merge(s, p, q, side), s[p].proxy, s[q].proxy;
    hide Merge;
    assert Differs(s[rp]) && Differs(s[rq]);
    var v, w := if side == Right then s[rp].verts else s[rq].verts, if side == Right then s[rq].verts else s[rp].verts;
    if rp != rq {
      ConcatDiffers(v, w);
    }
    hide Valid, PathDiffers;
    assert Differs(t[rq]);
    forall i | 0 <= i < |t| && i != rq
      ensures Differs(t[i])
    {
      assert Differs(s[i]);
      EmptyDiffers(t[i]);
    }
  }

  lemma EmptyDiffers(c: Poly)
    ensures c.verts == [] ==> Differs(c)
  {
  }

  /** The end that the edge holds from below is not at the boundary yet. */
  ghost predicate Lower(yb: real, s: Store, o: Option<nat>, side: Side) {
    o.Some? ==> Valid(s) && o.value < |s| && EndVertex(s, End(o.value, side)).y < yb
  }

  lemma TouchDiffers(s: Store, e: End, px: real, pt: Point)
    requires NoRepeats(s) && Valid(s) && e.poly < |s| && Open(s, Rep(s, e)) && EndVertex(s, e) == Point(px, pt.y)
    ensures NoRepeats(Touch(s, e, px, pt))
  {
    if pt.x != px {
      AddDiffers(s, e, pt);
    }
  }

  lemma MeetDiffers(segs: set<Segment>, yb: real, rest: multiset<End>, st: Scan, e: Edge, line: Segment, o: bool)
    requires EditPre(segs, yb, rest, st, e, line, !o, o, o) && NoRepeats(st.out)
    requires Lower(yb, st.out, e.outBelow, SideAt(!o))
    ensures Valid(st.out) && st.cf.Some? && st.cf.value < |st.out| && e.outBelow.Some? && e.outBelow.value < |st.out|
    ensures var t := Touch(st.out, End(st.cf.value, SideAt(o)), st.px, Point(e.xb, yb));
            && Valid(t) && |t| == |st.out| && NoRepeats(Merge(t, st.cf.value, e.outBelow.value, SideAt(o)))
  {
    MeetingEnds(segs, yb, rest, st, e, line, o);
    hide Traced, Owned, Merge, Touch, NoRepeats, Along;
    var pt := Point(e.xb, yb);
    var c, d := End(st.cf.value, SideAt(o)), End(e.outBelow.value, SideAt(!o));
    var held := rest + multiset{d};
    assert rest + EndOf(e.outBelow, SideAt(!o)) + EndOf(st.cf, SideAt(o)) == held + multiset{c};
    HeldIsOpen(segs, held + multiset{c}, st.out, c);
    TouchSound(segs, held, st.out, c, st.px, pt);
    TouchDiffers(st.out, c, st.px, pt);
    var t := Touch(st.out, c, st.px, pt);
    assert d in held && EndVertex(t, d) == EndVertex(st.out, d);
    HeldIsOpen(segs, held + multiset{c}, t, c);
    HeldIsOpen(segs, held + multiset{c}, t, d);
    MergeDiffers(t, c.poly, d.poly, SideAt(o));
  }

  lemma MoveDiffers(segs: set<Segment>, rest: multiset<End>, s: Store, e: End, pt: Point)
    requires Sound(segs, rest + multiset{e}, s) && NoRepeats(s) && Valid(s) && e.poly < |s| && EndVertex(s, e) != pt
    ensures NoRepeats(Add(s, e, pt))
  {
    hide Sound, Add, NoRepeats, EndVertex;
    HeldIsOpen(segs, rest + multiset{e}, s, e);
    AddDiffers(s, e, pt);
  }

  /** Whatever its class, the edit repeats no vertex. */
  lemma EditDiffers(segs: set<Segment>, yb: real, rest: multiset<End>, st: Scan, e: Edge, line: Segment,
                    tr: bool, tl: bool, br: bool, bl: bool)
    requires EditPre(segs, yb, rest, st, e, line, tr, tl, br) && NoRepeats(st.out)
    requires Lower(yb, st.out, e.outBelow, SideAt(tr))
    ensures EditOk(Classify(tr, tl, br, bl), st, e)
    ensures NoRepeats(Edit(Classify(tr, tl, br, bl), yb, st, e).0.out)
  {
    EditPointers(segs, yb, rest, st, e, line, tr, tl, br);
    var pt := Point(e.xb, yb);
    if tr != br && tr != tl {
      MeetDiffers(segs, yb, rest, st, e, line, br);
      Boundary.MeetsIs(yb, st, e, br, bl != br);
      hide EditPre, Edit, Merge, Touch, NoRepeats, AddLocalMin, Valid;
      var s := Merge(Touch(st.out, End(st.cf.value, SideAt(br)), st.px, pt), st.cf.value, e.outBelow.value, SideAt(br));
      StartDiffers(s, pt);
    } else {
      MovesIs(yb, st, e, tr, tl, br, bl);
      hide Edit, Add, NoRepeats, AddLocalMin, Traced, Owned;
      StartDiffers(st.out, pt);
      if tr != br {
        var c := End(st.cf.value, SideAt(br));
        assert rest + EndOf(e.outBelow, SideAt(tr)) + EndOf(st.cf, SideAt(br)) == rest + multiset{c};
        if e.xb != st.px {
          MoveDiffers(segs, rest, st.out, c, pt);
        }
      } else if tr != tl {
        var d := End(e.outBelow.value, SideAt(tr));
        assert rest + EndOf(e.outBelow, SideAt(tr)) + EndOf(st.cf, SideAt(br)) == rest + multiset{d};
        MoveDiffers(segs, rest, st.out, d, pt);
      }
    }
  }

  /** None of the ends is at height `yb` yet. */
  ghost predicate EndsLower(yb: real, s: Store, ends: multiset<End>) {
    forall e :: e in ends ==> Valid(s) && e.poly < |s| && EndVertex(s, e).y < yb
  }

  lemma StepDiffers(op: Op, segs: set<Segment>, yb: real, rest: multiset<End>, st: Scan, e: Edge, line: Segment)
    requires StepPre(op, segs, yb, rest, st, e, line) && Ready(op, st, e) && NoRepeats(st.out)
    requires Lower(yb, st.out, e.outBelow, HeldSide(op, ParityBelow(st)))
    ensures NoRepeats(Step(op, yb, st, e).0.out)
  {
    hide Edit, Inside, Contributing, Classify, Sound, NoRepeats, EditPre, Between, Strung, Lower;
    var p := ParityBelow(st);
    Counted(op, segs, yb, rest, st, e, line);
    if (e.above.Any() || e.below.Any()) && Contributing(op, st, e) {
      EditDiffers(segs, yb, rest, Count(st, e), e.(side := st.parity), line, Inside(op, p),
        Inside(op, p.Toggle(e.below)), Inside(op, st.parity), Inside(op, st.parity.Toggle(e.above)));
    }
  }
}
