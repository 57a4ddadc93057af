/**
 How the contours lie in one another.  The held ends, from left to right, are marks in a row:
 every open contour has two of them.  What a contour counts at a probe, together with the rays
 of its two ends, is written `w`; with that, contours lie side by side or one in the other.
 */
module Nesting {
  import opened Base
  import opened Output
  import opened Tally

  /** A held end: its contour, and which end of it. */
  datatype Mark = Mark(rep: nat, side: Side)

  /** Places i and j are those of the two ends of one contour. */
  predicate Pair(m: seq<Mark>, i: nat, j: nat) {
    i < j < |m| && m[i].rep == m[j].rep
  }

  ghost predicate HasPartner(m: seq<Mark>, i: nat) {
    exists j: nat :: Pair(m, i, j) || Pair(m, j, i)
  }

  /** A contour whose left mark is a left end counts 0 or 1, any other 0 or -1. */
  predicate Counts(side: Side, n: int) {
    n == 0 || n == Sign(side)
  }

  /** Of the contours with ends at i and j and at k and l, counting u and v, the second either
      lies beside the first, and then one of them counts nothing, or within the first, and then
      it counts nothing unless the first does. */
  predicate Fit(i: nat, j: nat, u: int, k: nat, l: nat, v: int) {
    i < k ==> if j < k then u == 0 || v == 0 else l < j && (v != 0 ==> u != 0)
  }

  ghost predicate Nested(m: seq<Mark>, w: seq<int>) {
    && (forall i :: 0 <= i < |m| ==> m[i].rep < |w| && HasPartner(m, i))
    && (forall i: nat, j: nat :: Pair(m, i, j) ==> PairCounts(m, w, i, j))
    && (forall i: nat, j: nat, k: nat, l: nat :: Pair(m, i, j) && Pair(m, k, l) ==> PairsFit(m, w, i, j, k, l))
  }

  predicate PairCounts(m: seq<Mark>, w: seq<int>, i: nat, j: nat)
    requires Pair(m, i, j)
  {
    m[i].side != m[j].side && m[i].rep < |w| && Counts(m[i].side, w[m[i].rep])
  }

  predicate PairsFit(m: seq<Mark>, w: seq<int>, i: nat, j: nat, k: nat, l: nat)
    requires Pair(m, i, j) && Pair(m, k, l)
  {
    m[i].rep < |w| && m[k].rep < |w| && Fit(i, j, w[m[i].rep], k, l, w[m[k].rep])
  }

  /** The parts of `Nested`, one at a time. */

  lemma Partner(m: seq<Mark>, w: seq<int>, i: nat) returns (j: nat)
    requires Nested(m, w) && i < |m|
    ensures m[i].rep < |w| && (Pair(m, i, j) || Pair(m, j, i))
  {
    assert HasPartner(m, i);
    j :| Pair(m, i, j) || Pair(m, j, i);
  }

  lemma OfPair(m: seq<Mark>, w: seq<int>, i: nat, j: nat)
    requires Nested(m, w) && Pair(m, i, j)
    ensures PairCounts(m, w, i, j)
  {
  }

  lemma OfPairs(m: seq<Mark>, w: seq<int>, i: nat, j: nat, k: nat, l: nat)
    requires Nested(m, w) && Pair(m, i, j) && Pair(m, k, l)
    ensures PairsFit(m, w, i, j, k, l)
  {
  }

  /** A mark has one partner. */
  lemma OnePartner(m: seq<Mark>, w: seq<int>, i: nat, j: nat, k: nat)
    requires Nested(m, w) && i < |m| && j < |m| && k < |m| && i != j && i != k
    requires m[j].rep == m[i].rep == m[k].rep
    ensures j == k
  {
    if j != k {
      var x := if i < j && i < k then i else if j < k then j else k;
      var z := if i > j && i > k then i else if j > k then j else k;
      var y := if x != i && z != i then i else if x != j && z != j then j else k;
      OfPairs(m, w, x, z, y, z);
    }
  }

  lemma NestedInAll(m: seq<Mark>, w: seq<int>)
    requires forall i :: 0 <= i < |m| ==> m[i].rep < |w| && HasPartner(m, i)
    requires forall i: nat, j: nat :: Pair(m, i, j) ==> PairCounts(m, w, i, j)
    requires forall i: nat, j: nat, k: nat, l: nat :: Pair(m, i, j) && Pair(m, k, l) ==> PairsFit(m, w, i, j, k, l)
    ensures Nested(m, w)
  {
  }

  /** A row with two marks put in, of a left end and a right end or the other way round. */

  function With(a: seq<Mark>, r: nat, r': nat, side: Side, b: seq<Mark>): seq<Mark> {
    a + [Mark(r, side), Mark(r', Other(side))] + b
  }

  /** Where a place of the longer row is in the shorter one, and the other way round. */

  function Lower(x: nat, i: nat): nat {
    if i < x || i < 2 then i else i - 2
  }

  function Upper(x: nat, i: nat): nat {
    if i < x then i else i + 2
  }

  lemma WithAt(a: seq<Mark>, r: nat, r': nat, side: Side, b: seq<Mark>, i: nat)
    requires i < |a| + |b|
    ensures var m, x := With(a, r, r', side, b), |a|;
            Upper(x, i) < |m| && m[Upper(x, i)] == (a + b)[i] && Lower(x, Upper(x, i)) == i
  {
  }

  lemma OpenedPair(a: seq<Mark>, w: seq<int>, side: Side, b: seq<Mark>, i: nat, j: nat)
    requires Nested(a + b, w) && Pair(With(a, |w|, |w|, side, b), i, j)
    ensures var x, m := |a|, With(a, |w|, |w|, side, b);
            if i == x || i == x + 1 || j == x || j == x + 1 then i == x && j == x + 1
            else Pair(a + b, Lower(x, i), Lower(x, j)) && m[i] == (a + b)[Lower(x, i)] && m[j] == (a + b)[Lower(x, j)]
  {
    hide Nested, With;
    OpenedMark(a, w, side, b, i);
    OpenedMark(a, w, side, b, j);
  }

  lemma OpenedMark(a: seq<Mark>, w: seq<int>, side: Side, b: seq<Mark>, i: nat)
    requires Nested(a + b, w) && i < |With(a, |w|, |w|, side, b)|
    ensures var x, m := |a|, With(a, |w|, |w|, side, b);
            && |m| == |a + b| + 2
            && if i == x || i == x + 1 then m[i].rep == |w|
               else Lower(x, i) < |a + b| && m[i] == (a + b)[Lower(x, i)] && m[i].rep < |w|
  {
  }

  lemma OpenedPartner(a: seq<Mark>, w: seq<int>, side: Side, b: seq<Mark>, i: nat)
    requires Nested(a + b, w) && i < |With(a, |w|, |w|, side, b)|
    ensures var m := With(a, |w|, |w|, side, b); m[i].rep < |w| + 1 && HasPartner(m, i)
  {
    var x, m := |a|, With(a, |w|, |w|, side, b);
    if i == x || i == x + 1 {
      assert Pair(m, x, x + 1);
    } else {
      var j := Partner(a + b, w, Lower(x, i));
      WithAt(a, |w|, |w|, side, b, Lower(x, i));
      WithAt(a, |w|, |w|, side, b, j);
      assert Pair(m, i, Upper(x, j)) || Pair(m, Upper(x, j), i);
    }
  }

  lemma OpenedNested(a: seq<Mark>, w: seq<int>, side: Side, b: seq<Mark>)
    requires Nested(a + b, w)
    ensures Nested(With(a, |w|, |w|, side, b), w + [0])
  {
    hide Nested, With, HasPartner;
    var x, m := |a|, With(a, |w|, |w|, side, b);
    forall i | 0 <= i < |m|
      ensures m[i].rep < |w + [0]| && HasPartner(m, i)
    {
      OpenedPartner(a, w, side, b, i);
    }
    WithIs(a, |w|, |w|, side, b);
    forall i: nat, j: nat | Pair(m, i, j)
      ensures PairCounts(m, w + [0], i, j)
    {
      OpenedPair(a, w, side, b, i, j);
      if i != x {
        OfPair(a + b, w, Lower(x, i), Lower(x, j));
      }
    }
    forall i: nat, j: nat, k: nat, l: nat | Pair(m, i, j) && Pair(m, k, l)
      ensures PairsFit(m, w + [0], i, j, k, l)
    {
      OpenedPair(a, w, side, b, i, j);
      OpenedPair(a, w, side, b, k, l);
      if i != x {
        OfPair(a + b, w, Lower(x, i), Lower(x, j));
      }
      if k != x {
        OfPair(a + b, w, Lower(x, k), Lower(x, l));
      }
      if i != x && k != x {
        OfPairs(a + b, w, Lower(x, i), Lower(x, j), Lower(x, k), Lower(x, l));
      }
    }
    NestedInAll(m, w + [0]);
  }

  lemma WithIs(a: seq<Mark>, r: nat, r': nat, side: Side, b: seq<Mark>)
    ensures var m, x := With(a, r, r', side, b), |a|;
            |m| == x + 2 + |b| && m[x] == Mark(r, side) && m[x + 1] == Mark(r', Other(side))
  {
  }

  /** Two neighbouring marks of one contour are taken out: the contour is closed. */
  lemma ClosedNested(a: seq<Mark>, w: seq<int>, r: nat, side: Side, b: seq<Mark>)
    requires Nested(With(a, r, r, side, b), w)
    ensures Nested(a + b, w) && r < |w| && Counts(side, w[r])
    ensures forall i :: 0 <= i < |a + b| ==> (a + b)[i].rep != r
  {
    hide Nested, With, HasPartner, Counts;
    var x, m := |a|, With(a, r, r, side, b);
    WithIs(a, r, r, side, b);
    OfPair(m, w, x, x + 1);
    forall i | 0 <= i < |a + b|
      ensures (a + b)[i].rep < |w| && HasPartner(a + b, i) && (a + b)[i].rep != r
    {
      ClosedPartner(a, w, r, side, b, i);
    }
    forall i: nat, j: nat | Pair(a + b, i, j)
      ensures PairCounts(a + b, w, i, j)
    {
      WithAt(a, r, r, side, b, i);
      WithAt(a, r, r, side, b, j);
      OfPair(m, w, Upper(x, i), Upper(x, j));
    }
    forall i: nat, j: nat, k: nat, l: nat | Pair(a + b, i, j) && Pair(a + b, k, l)
      ensures PairsFit(a + b, w, i, j, k, l)
    {
      WithAt(a, r, r, side, b, i);
      WithAt(a, r, r, side, b, j);
      WithAt(a, r, r, side, b, k);
      WithAt(a, r, r, side, b, l);
      OfPairs(m, w, Upper(x, i), Upper(x, j), Upper(x, k), Upper(x, l));
    }
    NestedInAll(a + b, w);
  }

  lemma ClosedPartner(a: seq<Mark>, w: seq<int>, r: nat, side: Side, b: seq<Mark>, i: nat)
    requires Nested(With(a, r, r, side, b), w) && i < |a + b|
    ensures (a + b)[i].rep < |w| && HasPartner(a + b, i) && (a + b)[i].rep != r
  {
    hide Nested, HasPartner, With;
    var x, m := |a|, With(a, r, r, side, b);
    WithIs(a, r, r, side, b);
    WithAt(a, r, r, side, b, i);
    if m[Upper(x, i)].rep == r {
      OnePartner(m, w, Upper(x, i), x, x + 1);
    }
    var j := Partner(m, w, Upper(x, i));
    assert j != x && j != x + 1;
    WithAt(a, r, r, side, b, Lower(x, j));
    Paired(a + b, i, Lower(x, j));
  }

  lemma Paired(m: seq<Mark>, i: nat, j: nat)
    requires Pair(m, i, j) || Pair(m, j, i)
    ensures HasPartner(m, i)
  {
  }

  /** Joining two contours at neighbouring marks x and x + 1, whose other marks are ia and ib,
      counting u and v: the new contour fits with any other, at k and l, that both fit with. */
  lemma JoinFits(x: nat, ia: nat, ib: nat, side: Side, u: int, v: int, k: nat, l: nat, n: int)
    requires ia != x && ia != x + 1 && ib != x && ib != x + 1 && ia != ib
    requires k < l && k != x && k != x + 1 && l != x && l != x + 1 && k != ia && k != ib && l != ia && l != ib
    requires var (i, j) := if ia < x then (ia, x) else (x, ia);
             var (i', j') := if ib < x then (ib, x + 1) else (x + 1, ib);
             && Fit(i, j, u, i', j', v) && Fit(i', j', v, i, j, u)
             && Fit(i, j, u, k, l, n) && Fit(k, l, n, i, j, u)
             && Fit(i', j', v, k, l, n) && Fit(k, l, n, i', j', v)
    requires Counts(if ia < x then Other(side) else side, u) && Counts(if ib < x then side else Other(side), v)
    ensures var (i, j) := if ia < ib then (ia, ib) else (ib, ia);
            Fit(i, j, u + v, k, l, n) && Fit(k, l, n, i, j, u + v)
  {
  }

  lemma JoinCounts(x: nat, ia: nat, ib: nat, side: Side, u: int, v: int)
    requires ia != x && ia != x + 1 && ib != x && ib != x + 1 && ia != ib
    requires var (i, j) := if ia < x then (ia, x) else (x, ia);
             var (i', j') := if ib < x then (ib, x + 1) else (x + 1, ib);
             && Fit(i, j, u, i', j', v) && Fit(i', j', v, i, j, u)
    requires Counts(if ia < x then Other(side) else side, u) && Counts(if ib < x then side else Other(side), v)
    ensures Counts(if ia < ib then Other(side) else side, u + v)
  {
  }

  /** Two contours become one, called `to`. */
  function Renamed(m: seq<Mark>, from: nat, to: nat): (r: seq<Mark>)
    ensures |r| == |m|
    ensures forall i :: 0 <= i < |m| ==> r[i] == if m[i].rep == from then m[i].(rep := to) else m[i]
  {
    seq(|m|, i requires 0 <= i < |m| => if m[i].rep == from then m[i].(rep := to) else m[i])
  }

  /** What the contours count after the one called `from` has been joined to the one called `to`. */
  ghost predicate Added(w: seq<int>, from: nat, to: nat, w': seq<int>) {
    && |w'| == |w| && from < |w| && to < |w| && w'[to] == w[from] + w[to]
    && forall r :: 0 <= r < |w| && r != from && r != to ==> w'[r] == w[r]
  }

  /** The partners of the two marks that meet. */
  ghost predicate Meeting(m: seq<Mark>, x: nat, ia: nat, ib: nat, r: nat, r': nat, side: Side) {
    && x + 1 < |m| && m[x] == Mark(r, side) && m[x + 1] == Mark(r', Other(side)) && r != r'
    && ia < |m| && ib < |m| && m[ia].rep == r && m[ib].rep == r' && ia != x && ib != x + 1
  }

  lemma MeetingMarks(m: seq<Mark>, w: seq<int>, x: nat, ia: nat, ib: nat, r: nat, r': nat, side: Side)
    requires Nested(m, w) && Meeting(m, x, ia, ib, r, r', side)
    ensures r < |w| && r' < |w|
    ensures m[ia].side == Other(side) && m[ib].side == side
    ensures Counts(if ia < x then Other(side) else side, w[r]) && Counts(if ib < x then side else Other(side), w[r'])
    ensures var (i, j) := if ia < x then (ia, x) else (x, ia);
            var (i', j') := if ib < x then (ib, x + 1) else (x + 1, ib);
            && Pair(m, i, j) && Pair(m, i', j')
            && Fit(i, j, w[r], i', j', w[r']) && Fit(i', j', w[r'], i, j, w[r])
  {
    hide Nested, Counts, Fit;
    var (i, j) := if ia < x then (ia, x) else (x, ia);
    var (i', j') := if ib < x then (ib, x + 1) else (x + 1, ib);
    OfPair(m, w, i, j);
    OfPair(m, w, i', j');
    OfPairs(m, w, i, j, i', j');
    OfPairs(m, w, i', j', i, j);
  }

  /** A pair of the joined row is an old pair, or the pair of the new contour. */
  lemma JoinedPair(m: seq<Mark>, w: seq<int>, x: nat, ia: nat, ib: nat, r: nat, r': nat, side: Side, i: nat, j: nat)
    requires Nested(m, w) && Meeting(m, x, ia, ib, r, r', side)
    requires i < j < |m| && i != x && i != x + 1 && j != x && j != x + 1
    requires Renamed(m, r, r')[i].rep == Renamed(m, r, r')[j].rep
    ensures if m[i].rep == r || m[i].rep == r' then (i == ia && j == ib) || (i == ib && j == ia)
            else Pair(m, i, j)
  {
    hide Nested;
    if m[i].rep == r {
      OnePartner(m, w, x, ia, i);
    } else if m[i].rep == r' {
      OnePartner(m, w, x + 1, ib, i);
    }
    if m[j].rep == r {
      OnePartner(m, w, x, ia, j);
    } else if m[j].rep == r' {
      OnePartner(m, w, x + 1, ib, j);
    }
  }

  lemma JoinedPairCounts(m: seq<Mark>, w: seq<int>, w': seq<int>, x: nat, ia: nat, ib: nat, r: nat, r': nat, side: Side,
                         i: nat, j: nat)
    requires Nested(m, w) && Meeting(m, x, ia, ib, r, r', side) && Added(w, r, r', w')
    requires i < j < |m| && i != x && i != x + 1 && j != x && j != x + 1
    requires Renamed(m, r, r')[i].rep == Renamed(m, r, r')[j].rep
    ensures m[i].side != m[j].side && Renamed(m, r, r')[i].rep < |w'|
    ensures Counts(m[i].side, w'[Renamed(m, r, r')[i].rep])
  {
    hide Nested, Counts, Fit;
    JoinedPair(m, w, x, ia, ib, r, r', side, i, j);
    MeetingMarks(m, w, x, ia, ib, r, r', side);
    if m[i].rep == r || m[i].rep == r' {
      JoinCounts(x, ia, ib, side, w[r], w[r']);
    } else {
      OfPair(m, w, i, j);
    }
  }

  lemma OldFitsNew(m: seq<Mark>, w: seq<int>, x: nat, ia: nat, ib: nat, r: nat, r': nat, side: Side, k: nat, l: nat)
    requires Nested(m, w) && Meeting(m, x, ia, ib, r, r', side)
    requires Pair(m, k, l) && m[k].rep != r && m[k].rep != r'
    ensures r < |w| && r' < |w| && m[k].rep < |w|
    ensures var (i, j) := if ia < ib then (ia, ib) else (ib, ia); var n := w[m[k].rep];
            Fit(i, j, w[r] + w[r'], k, l, n) && Fit(k, l, n, i, j, w[r] + w[r'])
  {
    hide Nested, Counts, Fit;
    MeetingMarks(m, w, x, ia, ib, r, r', side);
    var (i, j) := if ia < x then (ia, x) else (x, ia);
    var (i', j') := if ib < x then (ib, x + 1) else (x + 1, ib);
    OfPairs(m, w, i, j, k, l);
    OfPairs(m, w, k, l, i, j);
    OfPairs(m, w, i', j', k, l);
    OfPairs(m, w, k, l, i', j');
    JoinFits(x, ia, ib, side, w[r], w[r'], k, l, w[m[k].rep]);
  }

  lemma JoinedPairsFit(m: seq<Mark>, w: seq<int>, w': seq<int>, x: nat, ia: nat, ib: nat, r: nat, r': nat, side: Side,
                       i: nat, j: nat, k: nat, l: nat)
    requires Nested(m, w) && Meeting(m, x, ia, ib, r, r', side) && Added(w, r, r', w')
    requires i < j < |m| && i != x && i != x + 1 && j != x && j != x + 1
    requires k < l < |m| && k != x && k != x + 1 && l != x && l != x + 1
    requires Renamed(m, r, r')[i].rep == Renamed(m, r, r')[j].rep
    requires Renamed(m, r, r')[k].rep == Renamed(m, r, r')[l].rep
    ensures var q := Renamed(m, r, r');
            q[i].rep < |w'| && q[k].rep < |w'| && Fit(i, j, w'[q[i].rep], k, l, w'[q[k].rep])
  {
    hide Nested, Counts, Fit, Meeting;
    JoinedPair(m, w, x, ia, ib, r, r', side, i, j);
    JoinedPair(m, w, x, ia, ib, r, r', side, k, l);
    JoinedPairCounts(m, w, w', x, ia, ib, r, r', side, i, j);
    JoinedPairCounts(m, w, w', x, ia, ib, r, r', side, k, l);
    var inew, knew := m[i].rep == r || m[i].rep == r', m[k].rep == r || m[k].rep == r';
    if inew && knew {
      FitItself(i, j, w'[r'], w'[r']);
    } else if inew {
      OldFitsNew(m, w, x, ia, ib, r, r', side, k, l);
    } else if knew {
      OldFitsNew(m, w, x, ia, ib, r, r', side, i, j);
    } else {
      OfPairs(m, w, i, j, k, l);
    }
  }

  lemma FitItself(i: nat, j: nat, u: int, v: int)
    ensures Fit(i, j, u, i, j, v)
  {
  }

  /** Places of the shorter row fit as those of the longer one do. */
  lemma FitUpper(x: nat, i: nat, j: nat, u: int, k: nat, l: nat, v: int)
    ensures Fit(Upper(x, i), Upper(x, j), u, Upper(x, k), Upper(x, l), v) == Fit(i, j, u, k, l, v)
  {
  }

  lemma JoinedAt(a: seq<Mark>, r: nat, r': nat, side: Side, b: seq<Mark>, i: nat)
    requires i < |a + b|
    ensures var m, x := With(a, r, r', side, b), |a|;
            && Upper(x, i) < |m| && Upper(x, i) != x && Upper(x, i) != x + 1
            && Renamed(m, r, r')[Upper(x, i)] == Renamed(a + b, r, r')[i] && m[Upper(x, i)].side == (a + b)[i].side
  {
    WithAt(a, r, r', side, b, i);
  }

  lemma Partners(a: seq<Mark>, w: seq<int>, r: nat, r': nat, side: Side, b: seq<Mark>) returns (ia: nat, ib: nat)
    requires Nested(With(a, r, r', side, b), w) && r != r'
    ensures Meeting(With(a, r, r', side, b), |a|, ia, ib, r, r', side)
  {
    hide Nested, With;
    var m := With(a, r, r', side, b);
    WithIs(a, r, r', side, b);
    ia := Partner(m, w, |a|);
    ib := Partner(m, w, |a| + 1);
  }

  lemma JoinedPartner(a: seq<Mark>, w: seq<int>, r: nat, r': nat, side: Side, b: seq<Mark>, i: nat)
    requires Nested(With(a, r, r', side, b), w) && r != r' && i < |a + b|
    ensures var m := Renamed(a + b, r, r'); m[i].rep < |w| && HasPartner(m, i)
  {
    hide Nested, With, HasPartner;
    var m, x := With(a, r, r', side, b), |a|;
    var ia, ib := Partners(a, w, r, r', side, b);
    MeetingMarks(m, w, x, ia, ib, r, r', side);
    WithIs(a, r, r', side, b);
    JoinedAt(a, r, r', side, b, i);
    var j := Partner(m, w, Upper(x, i));
    if j == x {
      OnePartner(m, w, x, ia, Upper(x, i));
      j := ib;
    } else if j == x + 1 {
      OnePartner(m, w, x + 1, ib, Upper(x, i));
      j := ia;
    }
    JoinedAt(a, r, r', side, b, Lower(x, j));
    Paired(Renamed(a + b, r, r'), i, Lower(x, j));
  }

  /** Two contours are joined at neighbouring marks. */
  lemma JoinedNested(a: seq<Mark>, w: seq<int>, r: nat, r': nat, side: Side, b: seq<Mark>, w': seq<int>)
    requires Nested(With(a, r, r', side, b), w) && r != r' && Added(w, r, r', w')
    ensures Nested(Renamed(a + b, r, r'), w')
  {
    hide Nested, With, HasPartner, Counts, Fit, Added, Meeting;
    var m, x, q := With(a, r, r', side, b), |a|, Renamed(a + b, r, r');
    var ia, ib := Partners(a, w, r, r', side, b);
    AddedSize(w, r, r', w');
    forall i | 0 <= i < |q|
      ensures q[i].rep < |w'| && HasPartner(q, i)
    {
      JoinedPartner(a, w, r, r', side, b, i);
    }
    forall i: nat, j: nat | Pair(q, i, j)
      ensures PairCounts(q, w', i, j)
    {
      JoinedAt(a, r, r', side, b, i);
      JoinedAt(a, r, r', side, b, j);
      JoinedPairCounts(m, w, w', x, ia, ib, r, r', side, Upper(x, i), Upper(x, j));
    }
    forall i: nat, j: nat, k: nat, l: nat | Pair(q, i, j) && Pair(q, k, l)
      ensures PairsFit(q, w', i, j, k, l)
    {
      JoinedAt(a, r, r', side, b, i);
      JoinedAt(a, r, r', side, b, j);
      JoinedAt(a, r, r', side, b, k);
      JoinedAt(a, r, r', side, b, l);
      JoinedPairsFit(m, w, w', x, ia, ib, r, r', side, Upper(x, i), Upper(x, j), Upper(x, k), Upper(x, l));
      FitUpper(x, i, j, w'[q[i].rep], k, l, w'[q[k].rep]);
    }
    NestedInAll(q, w');
  }

  lemma AddedSize(w: seq<int>, r: nat, r': nat, w': seq<int>)
    requires Added(w, r, r', w')
    ensures |w'| == |w|
  {
  }

  /** Above all vertices a contour counts what its ends left of the probe do, which are those of
      the first n marks. */
  lemma SortedNested(m: seq<Mark>, w0: seq<int>, w: seq<int>, n: nat)
    requires Nested(m, w0) && |w| == |w0|
    requires forall i: nat, j: nat :: Pair(m, i, j) ==> PairSorted(m, w, n, i, j)
    ensures Nested(m, w)
  {
    hide HasPartner;
    forall i: nat, j: nat | Pair(m, i, j)
      ensures PairCounts(m, w, i, j)
    {
      OfPair(m, w0, i, j);
      assert PairSorted(m, w, n, i, j);
    }
    forall i: nat, j: nat, k: nat, l: nat | Pair(m, i, j) && Pair(m, k, l)
      ensures PairsFit(m, w, i, j, k, l)
    {
      OfPair(m, w0, i, j);
      OfPair(m, w0, k, l);
      OfPairs(m, w0, i, j, k, l);
      assert PairSorted(m, w, n, i, j) && PairSorted(m, w, n, k, l);
    }
  }

  predicate PairSorted(m: seq<Mark>, w: seq<int>, n: nat, i: nat, j: nat)
    requires Pair(m, i, j)
  {
    m[i].rep < |w| && w[m[i].rep] == (if i < n then Sign(m[i].side) else 0) + if j < n then Sign(m[j].side) else 0
  }
}
