/**
 The active edge table as the sweep's case analysis sees it: a row of strands
 crossing one level from left to right.  Each strand may toggle the parity, and
 holds one end of an output contour where it changes the occupancy.

 The same view serves above a scanbeam boundary, below it, and between crossings.
 */
module Strands {
  import opened Base
  import opened Edges
  import opened Output

  /** `side` is the strand's bundle side, `line` the input side it runs along. */
  datatype Strand = Strand(flags: Flags, out: Option<nat>, side: Flags, line: Segment)

  function AboveStrand(e: Edge): Strand {
    Strand(e.above, e.outAbove, e.side, e.info.seg)
  }

  function BelowStrand(t: Table, y: real, e: Edge): Strand {
    Strand(e.below, e.outBelow, NO_FLAGS, LowerLine(t, y, e))
  }

  /** The row just above the current height. */
  function Aboves(aet: seq<Edge>): (s: seq<Strand>)
    ensures |s| == |aet|
  {
    seq(|aet|, i requires 0 <= i < |aet| => AboveStrand(aet[i]))
  }

  /** The row just below height `y`. */
  function Belows(t: Table, y: real, aet: seq<Edge>): (s: seq<Strand>)
    ensures |s| == |aet|
  {
    seq(|aet|, i requires 0 <= i < |aet| => BelowStrand(t, y, aet[i]))
  }

  /** The parity to the right of a row that starts with parity `p`. */
  function ParityAfter(p: Flags, s: seq<Strand>): Flags
    decreases |s|
  {
    if s == [] then p else ParityAfter(p.Toggle(s[0].flags), s[1..])
  }

  /** A left end is held where occupancy rises, a right end where it falls. */
  function HeldSide(op: Op, before: Flags): Side {
    SideAt(Inside(op, before))
  }

  function SideAt(before: bool): Side {
    if before then Right else Left
  }

  /** The end that a pointer holds, if it is set. */
  function EndOf(o: Option<nat>, side: Side): multiset<End> {
    if o.None? then multiset{} else multiset{End(o.value, side)}
  }

  /** The ends that the row's output pointers hold. */
  function Ends(op: Op, p: Flags, s: seq<Strand>): multiset<End>
    decreases |s|
  {
    if s == [] then multiset{}
    else EndOf(s[0].out, HeldSide(op, p)) + Ends(op, p.Toggle(s[0].flags), s[1..])
  }

  /** An output pointer is set exactly where the occupancy changes. */
  ghost predicate Matched(op: Op, p: Flags, s: seq<Strand>)
    decreases |s|
  {
    s == [] ||
    (var q := p.Toggle(s[0].flags);
     (s[0].out.Some? <==> Inside(op, p) != Inside(op, q)) && Matched(op, q, s[1..]))
  }

  /** The bundle side of a strand that toggles anything is the parity to its left. */
  ghost predicate Sided(p: Flags, s: seq<Strand>)
    decreases |s|
  {
    s == [] || ((s[0].flags.Any() ==> s[0].side == p) && Sided(p.Toggle(s[0].flags), s[1..]))
  }

  /** The vertex at a held end lies on the input side that its strand runs along. */
  ghost predicate Anchored(op: Op, p: Flags, s: seq<Strand>, out: Store)
    decreases |s|
  {
    s == [] ||
    (&& (s[0].out.Some? ==> OnLine(s[0], HeldSide(op, p), out))
     && Anchored(op, p.Toggle(s[0].flags), s[1..], out))
  }

  ghost predicate OnLine(s: Strand, side: Side, out: Store)
    requires s.out.Some?
  {
    Valid(out) && s.out.value < |out| && s.line.Contains(EndVertex(out, End(s.out.value, side)))
  }

  /** Rows can be cut and joined. */

  lemma {:induction false} ParityAfterConcat(p: Flags, a: seq<Strand>, b: seq<Strand>)
    ensures ParityAfter(p, a + b) == ParityAfter(ParityAfter(p, a), b)
    decreases |a|
  {
    if a == [] {
      assert a + b == b;
    } else {
      assert (a + b)[1..] == a[1..] + b;
      ParityAfterConcat(p.Toggle(a[0].flags), a[1..], b);
    }
  }

  lemma {:induction false} EndsConcat(op: Op, p: Flags, a: seq<Strand>, b: seq<Strand>)
    ensures Ends(op, p, a + b) == Ends(op, p, a) + Ends(op, ParityAfter(p, a), b)
    decreases |a|
  {
    if a == [] {
      assert a + b == b;
    } else {
      assert (a + b)[1..] == a[1..] + b;
      EndsConcat(op, p.Toggle(a[0].flags), a[1..], b);
    }
  }

  lemma {:induction false} MatchedConcat(op: Op, p: Flags, a: seq<Strand>, b: seq<Strand>)
    ensures Matched(op, p, a + b) <==> Matched(op, p, a) && Matched(op, ParityAfter(p, a), b)
    decreases |a|
  {
    if a == [] {
      assert a + b == b;
    } else {
      assert (a + b)[1..] == a[1..] + b;
      MatchedConcat(op, p.Toggle(a[0].flags), a[1..], b);
    }
  }

  lemma {:induction false} SidedConcat(p: Flags, a: seq<Strand>, b: seq<Strand>)
    ensures Sided(p, a + b) <==> Sided(p, a) && Sided(ParityAfter(p, a), b)
    decreases |a|
  {
    if a == [] {
      assert a + b == b;
    } else {
      assert (a + b)[1..] == a[1..] + b;
      SidedConcat(p.Toggle(a[0].flags), a[1..], b);
    }
  }

  lemma {:induction false} AnchoredConcat(op: Op, p: Flags, a: seq<Strand>, b: seq<Strand>, out: Store)
    ensures Anchored(op, p, a + b, out) <==>
            Anchored(op, p, a, out) && Anchored(op, ParityAfter(p, a), b, out)
    decreases |a|
  {
    if a == [] {
      assert a + b == b;
    } else {
      assert (a + b)[1..] == a[1..] + b;
      AnchoredConcat(op, p.Toggle(a[0].flags), a[1..], b, out);
    }
  }

  lemma Unroll(op: Op, p: Flags, x: Strand, s: seq<Strand>, out: Store)
    ensures Ends(op, p, [x] + s) == EndOf(x.out, HeldSide(op, p)) + Ends(op, p.Toggle(x.flags), s)
    ensures ParityAfter(p, [x] + s) == ParityAfter(p.Toggle(x.flags), s)
    ensures Matched(op, p, [x] + s) <==>
            (x.out.Some? <==> Inside(op, p) != Inside(op, p.Toggle(x.flags))) && Matched(op, p.Toggle(x.flags), s)
    ensures Anchored(op, p, [x] + s, out) <==>
            (x.out.Some? ==> OnLine(x, HeldSide(op, p), out)) && Anchored(op, p.Toggle(x.flags), s, out)
    ensures Sided(p, [x] + s) <==> (x.flags.Any() ==> x.side == p) && Sided(p.Toggle(x.flags), s)
  {
    assert ([x] + s)[1..] == s;
  }

  /** A row can be extended on the right. */
  lemma Append(op: Op, p: Flags, s: seq<Strand>, x: Strand, out: Store)
    ensures var q := ParityAfter(p, s);
            && Ends(op, p, s + [x]) == Ends(op, p, s) + EndOf(x.out, HeldSide(op, q))
            && ParityAfter(p, s + [x]) == q.Toggle(x.flags)
            && (Matched(op, p, s + [x]) <==>
                  Matched(op, p, s) && (x.out.Some? <==> Inside(op, q) != Inside(op, q.Toggle(x.flags))))
            && (Anchored(op, p, s + [x], out) <==>
                  Anchored(op, p, s, out) && (x.out.Some? ==> OnLine(x, HeldSide(op, q), out)))
            && (Sided(p, s + [x]) <==> Sided(p, s) && (x.flags.Any() ==> x.side == q))
  {
    var q := ParityAfter(p, s);
    EndsConcat(op, p, s, [x]);
    ParityAfterConcat(p, s, [x]);
    MatchedConcat(op, p, s, [x]);
    AnchoredConcat(op, p, s, [x], out);
    SidedConcat(p, s, [x]);
    assert [x] + [] == [x];
    Unroll(op, q, x, [], out);
  }

  /** A row can be cut around two neighbours. */
  lemma CutPair(op: Op, p: Flags, a: seq<Strand>, x: Strand, y: Strand, b: seq<Strand>, out: Store)
    ensures var q := ParityAfter(p, a); var r := q.Toggle(x.flags); var t := r.Toggle(y.flags);
            && Ends(op, p, a + [x, y] + b)
               == Ends(op, p, a) + Ends(op, t, b) + EndOf(x.out, HeldSide(op, q)) + EndOf(y.out, HeldSide(op, r))
            && ParityAfter(p, a + [x, y] + b) == ParityAfter(t, b)
            && (Matched(op, p, a + [x, y] + b) <==>
                  && Matched(op, p, a) && (x.out.Some? <==> Inside(op, q) != Inside(op, r))
                  && (y.out.Some? <==> Inside(op, r) != Inside(op, t)) && Matched(op, t, b))
            && (Anchored(op, p, a + [x, y] + b, out) <==>
                  && Anchored(op, p, a, out) && (x.out.Some? ==> OnLine(x, HeldSide(op, q), out))
                  && (y.out.Some? ==> OnLine(y, HeldSide(op, r), out)) && Anchored(op, t, b, out))
            && (Sided(p, a + [x, y] + b) <==>
                  && Sided(p, a) && (x.flags.Any() ==> x.side == q)
                  && (y.flags.Any() ==> y.side == r) && Sided(t, b))
  {
    hide Inside, OnLine, HeldSide, Ends, ParityAfter, Matched, Anchored, Sided;
    var q := ParityAfter(p, a);
    assert a + [x, y] + b == a + ([x] + ([y] + b));
    EndsConcat(op, p, a, [x] + ([y] + b));
    ParityAfterConcat(p, a, [x] + ([y] + b));
    MatchedConcat(op, p, a, [x] + ([y] + b));
    AnchoredConcat(op, p, a, [x] + ([y] + b), out);
    SidedConcat(p, a, [x] + ([y] + b));
    Unroll(op, q, x, [y] + b, out);
    Unroll(op, q.Toggle(x.flags), y, b, out);
  }

  /** Anchors survive any change of the contours that leaves the row's ends alone. */
  lemma {:induction false} AnchoredFrame(op: Op, p: Flags, s: seq<Strand>, out: Store, out': Store)
    requires Valid(out) && Valid(out') && |out| <= |out'|
    requires Anchored(op, p, s, out) && Undisturbed(Ends(op, p, s), out, out')
    ensures Anchored(op, p, s, out')
    decreases |s|
  {
    if s != [] {
      var q := p.Toggle(s[0].flags);
      if s[0].out.Some? {
        var e := End(s[0].out.value, HeldSide(op, p));
        assert Ends(op, p, s)[e] > 0;
        assert EndVertex(out', e) == EndVertex(out, e);
      }
      assert Ends(op, q, s[1..]) <= Ends(op, p, s);
      AnchoredFrame(op, q, s[1..], out, out');
    }
  }

  /** The row's pointers hold exactly the ends of the open contours, each at a vertex
      of its own edge. */
  ghost predicate RowHeld(op: Op, segs: set<Segment>, p: Flags, s: seq<Strand>, out: Store) {
    Matched(op, p, s) && Anchored(op, p, s, out) && Sound(segs, Ends(op, p, s), out)
  }

  /** A strand that toggles nothing and holds nothing. */
  predicate Idle(s: Strand) {
    !s.flags.Any() && s.out.None?
  }

  /** The row without its idle strands. */
  function Busy(s: seq<Strand>): seq<Strand> {
    if s == [] then [] else (if Idle(s[0]) then [] else [s[0]]) + Busy(s[1..])
  }

  lemma {:induction false} BusyConcat(a: seq<Strand>, b: seq<Strand>)
    ensures Busy(a + b) == Busy(a) + Busy(b)
  {
    if a == [] {
      assert a + b == b;
    } else {
      assert (a + b)[1..] == a[1..] + b;
      BusyConcat(a[1..], b);
    }
  }

  /** Idle strands do not count. */

  lemma {:induction false} BusyEnds(op: Op, p: Flags, s: seq<Strand>)
    ensures ParityAfter(p, Busy(s)) == ParityAfter(p, s)
    ensures Ends(op, p, Busy(s)) == Ends(op, p, s)
    decreases |s|
  {
    hide HeldSide;
    if s != [] {
      var q := p.Toggle(s[0].flags);
      BusyEnds(op, q, s[1..]);
      if Idle(s[0]) {
        assert q == p;
        assert Busy(s) == Busy(s[1..]);
        assert EndOf(s[0].out, HeldSide(op, p)) + Ends(op, q, s[1..]) == Ends(op, q, s[1..]);
      } else {
        assert Busy(s)[1..] == Busy(s[1..]);
      }
    }
  }

  lemma {:induction false} BusyMatched(op: Op, p: Flags, s: seq<Strand>)
    ensures Matched(op, p, Busy(s)) == Matched(op, p, s)
    decreases |s|
  {
    hide Inside;
    if s != [] {
      var q := p.Toggle(s[0].flags);
      BusyMatched(op, q, s[1..]);
      if Idle(s[0]) {
        assert q == p;
        assert Busy(s) == Busy(s[1..]);
      } else {
        assert Busy(s)[1..] == Busy(s[1..]);
      }
    }
  }

  lemma {:induction false} BusyAnchored(op: Op, p: Flags, s: seq<Strand>, out: Store)
    ensures Anchored(op, p, Busy(s), out) == Anchored(op, p, s, out)
    decreases |s|
  {
    hide HeldSide, OnLine;
    if s != [] {
      var q := p.Toggle(s[0].flags);
      BusyAnchored(op, q, s[1..], out);
      if Idle(s[0]) {
        assert q == p;
        assert Busy(s) == Busy(s[1..]);
      } else {
        assert Busy(s)[1..] == Busy(s[1..]);
      }
    }
  }

  lemma {:induction false} BusySided(p: Flags, s: seq<Strand>)
    ensures Sided(p, Busy(s)) == Sided(p, s)
    decreases |s|
  {
    if s != [] {
      var q := p.Toggle(s[0].flags);
      BusySided(q, s[1..]);
      if Idle(s[0]) {
        assert q == p;
        assert Busy(s) == Busy(s[1..]);
      } else {
        assert Busy(s)[1..] == Busy(s[1..]);
      }
    }
  }

  lemma BusyRow(op: Op, p: Flags, s: seq<Strand>, out: Store)
    ensures ParityAfter(p, Busy(s)) == ParityAfter(p, s)
    ensures Ends(op, p, Busy(s)) == Ends(op, p, s)
    ensures Matched(op, p, Busy(s)) == Matched(op, p, s)
    ensures Anchored(op, p, Busy(s), out) == Anchored(op, p, s, out)
    ensures Sided(p, Busy(s)) == Sided(p, s)
  {
    hide *;
    BusyEnds(op, p, s);
    BusyMatched(op, p, s);
    BusyAnchored(op, p, s, out);
    BusySided(p, s);
  }

  lemma SameBusyRow(op: Op, segs: set<Segment>, p: Flags, s: seq<Strand>, t: seq<Strand>, out: Store)
    requires Busy(s) == Busy(t)
    ensures ParityAfter(p, s) == ParityAfter(p, t)
    ensures RowHeld(op, segs, p, s, out) <==> RowHeld(op, segs, p, t, out)
    ensures Sided(p, s) <==> Sided(p, t)
  {
    BusyRow(op, p, s, out);
    BusyRow(op, p, t, out);
  }

  /** Two rows that differ at most in bundle sides. */
  predicate SameButSides(s: seq<Strand>, t: seq<Strand>) {
    |s| == |t| && forall i :: 0 <= i < |s| ==> t[i] == s[i].(side := t[i].side)
  }

  lemma {:induction false} SidesDoNotCount(op: Op, p: Flags, s: seq<Strand>, t: seq<Strand>, out: Store)
    requires SameButSides(s, t)
    ensures ParityAfter(p, s) == ParityAfter(p, t)
    ensures Ends(op, p, s) == Ends(op, p, t)
    ensures Matched(op, p, s) <==> Matched(op, p, t)
    ensures Anchored(op, p, s, out) <==> Anchored(op, p, t, out)
    decreases |s|
  {
    if s != [] {
      SidesDoNotCount(op, p.Toggle(s[0].flags), s[1..], t[1..], out);
    }
  }
}
