/**
 What the edge classes of a boundary scan mean: the four quadrants around an edge are
 occupied exactly where the requested set operation holds of even-odd membership in the
 two polygons.
 */
module Quadrants {
  import opened Base
  import opened Edges
  import opened Strands
  import opened Membership
  import opened Boundary
  import opened BoundaryScan

  /** The occupancies around an edge of class `c`: below and above the boundary, to the
      left and to the right of the edge. */

  predicate LeftBelowIn(c: VertexClass) {
    c in {EMX, TED, RED, IMN, EMM, ILI, IRI, FUL}
  }

  predicate RightBelowIn(c: VertexClass) {
    c in {ELI, TED, IMM, IMN, LED, ILI, IMX, FUL}
  }

  predicate LeftAboveIn(c: VertexClass) {
    c in {ERI, RED, IMM, IMN, BED, IRI, IMX, FUL}
  }

  predicate RightAboveIn(c: VertexClass) {
    c in {EMN, EMM, LED, ILI, BED, IRI, IMX, FUL}
  }

  /** The number of a class: its place in the declaration. */
  function Number(c: VertexClass): nat {
    match c
    case NUL => 0 case EMX => 1 case ELI => 2 case TED => 3 case ERI => 4 case RED => 5 case IMM => 6 case IMN => 7
    case EMN => 8 case EMM => 9 case LED => 10 case ILI => 11
    case BED => 12 case IRI => 13 case IMX => 14 case FUL => 15
  }

  function Bit(b: bool): nat {
    if b then 1 else 0
  }

  /** The four occupancies are the binary digits of the class's number. */
  lemma ClassHasQuadrants(tr: bool, tl: bool, br: bool, bl: bool)
    ensures var c := Classify(tr, tl, br, bl);
            && LeftBelowIn(c) == tr && RightBelowIn(c) == tl && LeftAboveIn(c) == br && RightAboveIn(c) == bl
            && Number(c) == Bit(tr) + 2 * Bit(tl) + 4 * Bit(br) + 8 * Bit(bl)
  {
  }

  /** One boundary scan: the height, where the edges of the row stand, and their classes. */
  datatype Visit = Visit(y: real, xs: seq<real>, classes: seq<VertexClass>)

  function Xs(s: seq<Edge>): (xs: seq<real>)
    ensures |xs| == |s| && forall i :: 0 <= i < |s| ==> xs[i] == s[i].xb
  {
    seq(|s|, i requires 0 <= i < |s| => s[i].xb)
  }

  /** The first `i` edges stand to the left of x, the others do not. */
  predicate Parts(xs: seq<real>, x: real, i: nat) {
    && i <= |xs|
    && (forall j :: 0 <= j < i ==> xs[j] < x)
    && (forall j :: i <= j < |xs| ==> xs[j] >= x)
  }

  /** The result just left of (x, y), above and below the boundary. */

  predicate WantedAbove(op: Op, t: Table, x: real, y: real) {
    SetOperation(op, MemberAbove(t, Subj, x, y), MemberAbove(t, Clip, x, y))
  }

  predicate WantedBelow(op: Op, t: Table, x: real, y: real) {
    SetOperation(op, MemberBelow(t, Subj, x, y), MemberBelow(t, Clip, x, y))
  }

  /** The gap between the edges before and after x is classed as the polygons require. */
  ghost predicate GapIsRight(op: Op, t: Table, v: Visit, x: real, i: nat)
    requires |v.classes| == |v.xs| && i <= |v.xs|
  {
    && (i < |v.xs| ==>
          LeftAboveIn(v.classes[i]) == WantedAbove(op, t, x, v.y) &&
          LeftBelowIn(v.classes[i]) == WantedBelow(op, t, x, v.y))
    && (i > 0 ==>
          RightAboveIn(v.classes[i - 1]) == WantedAbove(op, t, x, v.y) &&
          RightBelowIn(v.classes[i - 1]) == WantedBelow(op, t, x, v.y))
  }

  /** Every quadrant is occupied exactly where the result is wanted, and neighbouring
      edges agree on the quadrants that they share. */
  ghost predicate ClassesAreRight(op: Op, t: Table, v: Visit) {
    && |v.classes| == |v.xs|
    && (forall k {:trigger v.classes[k]} :: 0 < k < |v.xs| ==>
          && RightAboveIn(v.classes[k - 1]) == LeftAboveIn(v.classes[k])
          && RightBelowIn(v.classes[k - 1]) == LeftBelowIn(v.classes[k]))
    && (forall x, i: nat :: Parts(v.xs, x, i) ==> GapIsRight(op, t, v, x, i))
  }

  lemma SplitPrefix(t: Table, y: real, s: seq<Edge>, i: nat)
    requires i <= |s|
    ensures Aboves(s)[..i] == Aboves(s[..i]) && Belows(t, y, s)[..i] == Belows(t, y, s[..i])
  {
  }

  lemma GapRead(op: Op, t: Table, y: real, s: seq<Edge>, classes: seq<VertexClass>, x: real, i: nat)
    requires ReadsAbove(t, StartParity(op), y, s) && ReadsBelow(t, StartParity(op), y, s)
    requires SplitsAt(s, x, i)
    ensures Inside(op, ParityAfter(StartParity(op), Aboves(s)[..i])) == WantedAbove(op, t, x, y)
    ensures Inside(op, ParityAfter(StartParity(op), Belows(t, y, s)[..i])) == WantedBelow(op, t, x, y)
  {
    hide ParityAfter, MemberAbove, MemberBelow, Inside, SetOperation;
    SplitPrefix(t, y, s, i);
    ReadingIsSetOperation(op, MemberAbove(t, Subj, x, y), MemberAbove(t, Clip, x, y));
    ReadingIsSetOperation(op, MemberBelow(t, Subj, x, y), MemberBelow(t, Clip, x, y));
  }

  lemma ClassedQuadrants(op: Op, p: Flags, belows: seq<Strand>, aboves: seq<Strand>, classes: seq<VertexClass>, k: nat)
    requires k < |classes| <= |belows| && |belows| == |aboves|
    requires Classed(op, p, belows, aboves, classes, k)
    ensures LeftBelowIn(classes[k]) == Inside(op, ParityAfter(p, belows[..k]))
    ensures RightBelowIn(classes[k]) == Inside(op, ParityAfter(p, belows[..k + 1]))
    ensures LeftAboveIn(classes[k]) == Inside(op, ParityAfter(p, aboves[..k]))
    ensures RightAboveIn(classes[k]) == Inside(op, ParityAfter(p, aboves[..k + 1]))
  {
    hide ParityAfter, Inside, Classify, LeftBelowIn, RightBelowIn, LeftAboveIn, RightAboveIn;
    ClassHasQuadrants(
      Inside(op, ParityAfter(p, belows[..k])), Inside(op, ParityAfter(p, belows[..k + 1])),
      Inside(op, ParityAfter(p, aboves[..k])), Inside(op, ParityAfter(p, aboves[..k + 1])));
  }

  /** The classes that a boundary scan finds are right. */
  lemma ScanIsRight(op: Op, t: Table, y: real, s: seq<Edge>, classes: seq<VertexClass>)
    requires ReadsAbove(t, StartParity(op), y, s) && ReadsBelow(t, StartParity(op), y, s)
    requires |classes| == |s|
    requires forall k :: 0 <= k < |s| ==> Classed(op, StartParity(op), Belows(t, y, s), Aboves(s), classes, k)
    ensures ClassesAreRight(op, t, Visit(y, Xs(s), classes))
  {
    hide ParityAfter, Inside, Classed, ReadsAbove, ReadsBelow, WantedAbove, WantedBelow, LeftAboveIn, LeftBelowIn,
      RightAboveIn, RightBelowIn;
    var v, p := Visit(y, Xs(s), classes), StartParity(op);
    forall k | 0 < k < |s|
      ensures RightAboveIn(classes[k - 1]) == LeftAboveIn(classes[k])
      ensures RightBelowIn(classes[k - 1]) == LeftBelowIn(classes[k])
    {
      ClassedQuadrants(op, p, Belows(t, y, s), Aboves(s), classes, k - 1);
      ClassedQuadrants(op, p, Belows(t, y, s), Aboves(s), classes, k);
    }
    forall x, i: nat | Parts(v.xs, x, i)
      ensures GapIsRight(op, t, v, x, i)
    {
      assert SplitsAt(s, x, i) by {
        assert forall j :: 0 <= j < |s| ==> v.xs[j] == s[j].xb;
      }
      GapRead(op, t, y, s, classes, x, i);
      if i < |s| {
        ClassedQuadrants(op, p, Belows(t, y, s), Aboves(s), classes, i);
      }
      if i > 0 {
        ClassedQuadrants(op, p, Belows(t, y, s), Aboves(s), classes, i - 1);
      }
    }
  }
}
