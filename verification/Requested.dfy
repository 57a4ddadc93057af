/**
 What the caller asks for, point by point, and that the contours which `minimax_test` leaves
 out have no part in it.
 */
module Requested {
  import opened Base
  import opened Sides
  import opened Polygons
  import opened Regions
  import opened Minimax
  import opened BuildLmt
  import opened TableFacts

  /** The set operation on even-odd membership in the two polygons, just left of (x, y). */
  predicate Wanted(op: Op, l: Level, subj: Polygon, clip: Polygon, x: real, y: real) {
    SetOperation(op, Member(l, subj, x, y), Member(l, clip, x, y))
  }

  predicate UsesMinimax(op: Op, subj: Polygon, clip: Polygon) {
    (op == Int || op == Diff) && |subj| > 0 && |clip| > 0
  }

  /** The polygons as they are when the tables are built. */

  ghost function SubjUsed(op: Op, subj: Polygon, clip: Polygon): Polygon {
    if UsesMinimax(op, subj, clip) && op == Int then Flagged(subj, clip) else subj
  }

  ghost function ClipUsed(op: Op, subj: Polygon, clip: Polygon): Polygon {
    if UsesMinimax(op, subj, clip) then Flagged(clip, subj) else clip
  }

  lemma WantedOfUsed(op: Op, l: Level, subj: Polygon, clip: Polygon, x: real, y: real)
    ensures Wanted(op, l, SubjUsed(op, subj, clip), ClipUsed(op, subj, clip), x, y) == Wanted(op, l, subj, clip, x, y)
  {
    hide Member, Flagged;
    if UsesMinimax(op, subj, clip) {
      MinimaxIsSound(op, l, subj, clip, x, y);
    }
  }

  /** The trivial cases. */
  predicate Trivial(op: Op, subj: Polygon, clip: Polygon) {
    || (|subj| == 0 && |clip| == 0)
    || (|subj| == 0 && (op == Int || op == Diff))
    || (|clip| == 0 && op == Int)
  }

  lemma NothingWanted(op: Op, l: Level, subj: Polygon, clip: Polygon, x: real, y: real)
    requires Trivial(op, subj, clip)
    ensures !Wanted(op, l, subj, clip, x, y)
  {
    MemberSplits(l, subj, x, y);
    MemberSplits(l, clip, x, y);
  }

  /** The side crosses the height somewhere between its ends. */
  lemma MemberHasSide(l: Level, p: Polygon, x: real, y: real) returns (s: Segment)
    requires Member(l, p, x, y)
    ensures s in SidesOfPolygon(p) && s.bot.y <= y <= s.top.y
  {
    if forall s :: s in SidesOfPolygon(p) ==> !ToLeft(l, x, y)(s) {
      CountNone(SidesOfPolygon(p), ToLeft(l, x, y));
    }
    s :| s in SidesOfPolygon(p) && ToLeft(l, x, y)(s);
  }

  /** Nothing is wanted below the first recorded height or above the last. */
  lemma WantedIsSpanned(op: Op, l: Level, subj: Polygon, clip: Polygon, ys: seq<real>, x: real, y: real)
    requires RecordedHeights(ys, SubjUsed(op, subj, clip), ClipUsed(op, subj, clip))
    requires Wanted(op, l, subj, clip, x, y)
    ensures ys != [] && ys[0] <= y <= ys[|ys| - 1]
  {
    hide Member, SubjUsed, ClipUsed, KeptOfPolygon, SidesOfPolygon;
    var s', c' := SubjUsed(op, subj, clip), ClipUsed(op, subj, clip);
    WantedOfUsed(op, l, subj, clip, x, y);
    var p := if Member(l, s', x, y) then s' else c';
    var s := MemberHasSide(l, p, x, y);
    PolygonSideEnds(p, s);
    assert s.bot.y in ys && s.top.y in ys;
    Extremes(ys, s.bot.y);
    Extremes(ys, s.top.y);
  }

  lemma Extremes(ys: seq<real>, y: real)
    requires (forall k, l :: 0 <= k < l < |ys| ==> ys[k] < ys[l]) && y in ys
    ensures ys[0] <= y <= ys[|ys| - 1]
  {
    var k :| 0 <= k < |ys| && ys[k] == y;
    assert k == 0 || ys[0] < ys[k];
    assert k == |ys| - 1 || ys[k] < ys[|ys| - 1];
  }

  /** Flagging loses sides, and makes none up. */
  lemma {:induction false} FlaggedSides(p: Polygon, q: Polygon, s: Segment)
    requires Unflagged(p) && s in SidesOfPolygon(Flagged(p, q))
    ensures s in SidesOfPolygon(p)
    decreases |p|
  {
    hide SidesOf, Involved;
    var n := |p| - 1;
    assert Flagged(p, q)[..n] == Flagged(p[..n], q);
    if s in SidesOfPolygon(Flagged(p[..n], q)) {
      FlaggedSides(p[..n], q, s);
    }
  }

  lemma FlaggedSized(p: Polygon, q: Polygon)
    requires Unflagged(p)
    ensures Polygons.Sized(Flagged(p, q)) && Repaired(Flagged(p, q)) == p && Repaired(p) == p && Polygons.Sized(p)
  {
    hide Involved;
    forall c | 0 <= c < |p|
      ensures Flagged(p, q)[c].Sized() && Repaired(Flagged(p, q))[c] == p[c] && Repaired(p)[c] == p[c]
    {
    }
  }

  /** Counts restored, the polygons are as they were. */
  lemma UsedIsRepaired(op: Op, subj: Polygon, clip: Polygon)
    requires Unflagged(subj) && Unflagged(clip)
    ensures Polygons.Sized(SubjUsed(op, subj, clip)) && Repaired(SubjUsed(op, subj, clip)) == subj
    ensures Polygons.Sized(ClipUsed(op, subj, clip)) && Repaired(ClipUsed(op, subj, clip)) == clip
  {
    FlaggedSized(subj, clip);
    FlaggedSized(clip, subj);
  }

  ghost function InputSides(subj: Polygon, clip: Polygon): set<Segment> {
    (set s | s in SidesOfPolygon(subj)) + (set s | s in SidesOfPolygon(clip))
  }

  lemma UsedSides(op: Op, subj: Polygon, clip: Polygon)
    requires Unflagged(subj) && Unflagged(clip)
    ensures InputSides(SubjUsed(op, subj, clip), ClipUsed(op, subj, clip)) <= InputSides(subj, clip)
  {
    hide SidesOfPolygon, Flagged;
    forall s | s in InputSides(SubjUsed(op, subj, clip), ClipUsed(op, subj, clip))
      ensures s in InputSides(subj, clip)
    {
      if s in SidesOfPolygon(Flagged(subj, clip)) {
        FlaggedSides(subj, clip, s);
      }
      if s in SidesOfPolygon(Flagged(clip, subj)) {
        FlaggedSides(clip, subj, s);
      }
    }
  }
}
