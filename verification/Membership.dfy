/**
 Even-odd membership of a point in the two polygons, and its reading off the active
 edge table.

 A side counts at height y if the height lies between its ends.  Just above y the
 lower end belongs to the side and the upper end does not; just below y it is the
 other way round.
 */
module Membership {
  import opened Base
  import opened Edges
  import opened EdgeTable
  import opened Strands

  /** The sides of a polygon that lie to the left of (x, y), just above height y. */
  function LeftAbove(t: Table, kind: Kind, x: real, y: real): set<nat> {
    set i: nat | 0 <= i < |t| && t[i].kind == kind && CrossedAbove(t, i, y) && t[i].seg.XAt(y) < x
  }

  /** The same just below height y. */
  function LeftBelow(t: Table, kind: Kind, x: real, y: real): set<nat> {
    set i: nat | 0 <= i < |t| && t[i].kind == kind && CrossedBelow(t, i, y) && t[i].seg.XAt(y) < x
  }

  predicate MemberAbove(t: Table, kind: Kind, x: real, y: real) {
    Odd(|LeftAbove(t, kind, x, y)|)
  }

  predicate MemberBelow(t: Table, kind: Kind, x: real, y: real) {
    Odd(|LeftBelow(t, kind, x, y)|)
  }

  /** Place `i` of the row is where x belongs. */
  predicate SplitsAt(s: seq<Edge>, x: real, i: nat) {
    && i <= |s|
    && (forall j :: 0 <= j < i ==> s[j].xb < x)
    && (forall j :: i <= j < |s| ==> s[j].xb >= x)
  }

  /** Left of every x, the upper row of the table toggles the parity as the sides of the
      two polygons do. */
  ghost predicate ReadsAbove(t: Table, p: Flags, y: real, s: seq<Edge>) {
    forall x, i: nat :: SplitsAt(s, x, i) ==>
      ParityAfter(p, Aboves(s[..i])) == p.Toggle(Flags(MemberAbove(t, Clip, x, y), MemberAbove(t, Subj, x, y)))
  }

  /** The same for the lower row. */
  ghost predicate ReadsBelow(t: Table, p: Flags, y: real, s: seq<Edge>) {
    forall x, i: nat :: SplitsAt(s, x, i) ==>
      ParityAfter(p, Belows(t, y, s[..i])) == p.Toggle(Flags(MemberBelow(t, Clip, x, y), MemberBelow(t, Subj, x, y)))
  }

  /** The parity read off the table is the requested operation on even-odd membership. */
  lemma ReadingIsSetOperation(op: Op, inSubj: bool, inClip: bool)
    ensures Inside(op, StartParity(op).Toggle(Flags(inClip, inSubj))) == SetOperation(op, inSubj, inClip)
  {
  }
}
