/**
 `minimax_test`: contours whose bounding boxes meet no box of the other polygon are flagged,
 by negating their vertex counts, and so left out.
 */
module Minimax {
  import opened Base
  import opened Polygons
  import opened Regions

  datatype Box = Box(xmin: real, ymin: real, xmax: real, ymax: real)

  /** The box that no vertex has adjusted yet. */
  const NO_BOX := Box(DBL_MAX, DBL_MAX, -DBL_MAX, -DBL_MAX)

  function Adjust(b: Box, p: Point): Box {
    Box(if p.x < b.xmin then p.x else b.xmin, if p.y < b.ymin then p.y else b.ymin,
        if p.x > b.xmax then p.x else b.xmax, if p.y > b.ymax then p.y else b.ymax)
  }

  function BoxOf(v: seq<Point>): Box
    decreases |v|
  {
    if v == [] then NO_BOX else Adjust(BoxOf(v[..|v| - 1]), v[|v| - 1])
  }

  lemma {:induction false} BoxHolds(v: seq<Point>)
    ensures var b := BoxOf(v); InBox(v, b.xmin, b.ymin, b.xmax, b.ymax)
    decreases |v|
  {
    if v != [] {
      BoxHolds(v[..|v| - 1]);
    }
  }

  /** The coordinates are finite doubles. */
  ghost predicate Finite(v: seq<Point>) {
    forall i :: 0 <= i < |v| ==> -DBL_MAX <= v[i].x <= DBL_MAX && -DBL_MAX <= v[i].y <= DBL_MAX
  }

  /** Every bound of the box is the coordinate of some vertex. */
  ghost predicate Tight(v: seq<Point>, b: Box) {
    && (exists i :: 0 <= i < |v| && v[i].x == b.xmin) && (exists i :: 0 <= i < |v| && v[i].x == b.xmax)
    && (exists i :: 0 <= i < |v| && v[i].y == b.ymin) && (exists i :: 0 <= i < |v| && v[i].y == b.ymax)
  }

  lemma {:induction false} BoxIsTight(v: seq<Point>)
    requires v != [] && Finite(v)
    ensures Tight(v, BoxOf(v))
    decreases |v|
  {
    var n := |v| - 1;
    var p := v[n];
    if n == 0 {
      assert v[..0] == [];
      assert BoxOf(v) == Box(p.x, p.y, p.x, p.y);
    } else {
      BoxIsTight(v[..n]);
      TightAdjusted(v, BoxOf(v[..n]));
    }
  }

  lemma TightAdjusted(v: seq<Point>, b: Box)
    requires v != [] && Tight(v[..|v| - 1], b)
    ensures Tight(v, Adjust(b, v[|v| - 1]))
  {
    var n := |v| - 1;
    var p := v[n];
    forall i | 0 <= i < n
      ensures v[..n][i] == v[i]
    {
    }
    assert p.x < b.xmin ==> v[n].x == p.x;
  }

  predicate Overlap(s: Box, c: Box) {
    !(s.xmax < c.xmin || s.xmin > c.xmax) && !(s.ymax < c.ymin || s.ymin > c.ymax)
  }

  /** All of `v` lies to the left of, or below, all of `w`.  A contour without vertices lies beside
      every other one that does not reach to the largest double. */

  ghost predicate LeftOf(v: seq<Point>, w: seq<Point>) {
    && (forall i, j :: 0 <= i < |v| && 0 <= j < |w| ==> v[i].x < w[j].x)
    && (forall i :: 0 <= i < |v| ==> v[i].x < DBL_MAX)
    && (forall j :: 0 <= j < |w| ==> -DBL_MAX < w[j].x)
  }

  ghost predicate BelowOf(v: seq<Point>, w: seq<Point>) {
    && (forall i, j :: 0 <= i < |v| && 0 <= j < |w| ==> v[i].y < w[j].y)
    && (forall i :: 0 <= i < |v| ==> v[i].y < DBL_MAX)
    && (forall j :: 0 <= j < |w| ==> -DBL_MAX < w[j].y)
  }

  ghost predicate Apart(v: seq<Point>, w: seq<Point>) {
    LeftOf(v, w) || LeftOf(w, v) || BelowOf(v, w) || BelowOf(w, v)
  }

  /** Of contours with vertices at finite doubles, nothing but the vertices of both counts. */
  lemma ApartIsPlain(v: seq<Point>, w: seq<Point>)
    requires v != [] && w != [] && Finite(v) && Finite(w)
    ensures LeftOf(v, w) <==> forall i, j :: 0 <= i < |v| && 0 <= j < |w| ==> v[i].x < w[j].x
    ensures BelowOf(v, w) <==> forall i, j :: 0 <= i < |v| && 0 <= j < |w| ==> v[i].y < w[j].y
  {
    if forall i, j :: 0 <= i < |v| && 0 <= j < |w| ==> v[i].x < w[j].x {
      assert forall i :: 0 <= i < |v| ==> v[i].x < w[0].x;
      assert forall j :: 0 <= j < |w| ==> v[0].x < w[j].x;
    }
    if forall i, j :: 0 <= i < |v| && 0 <= j < |w| ==> v[i].y < w[j].y {
      assert forall i :: 0 <= i < |v| ==> v[i].y < w[0].y;
      assert forall j :: 0 <= j < |w| ==> v[0].y < w[j].y;
    }
  }

  /** A bound of a box lies strictly beyond a number exactly if all the coordinates do, and the
      initial bound does. */
  lemma {:induction false} BoxBounds(v: seq<Point>, n: real)
    ensures var b := BoxOf(v);
            && (b.xmax < n <==> -DBL_MAX < n && forall i :: 0 <= i < |v| ==> v[i].x < n)
            && (b.xmin > n <==> DBL_MAX > n && forall i :: 0 <= i < |v| ==> v[i].x > n)
            && (b.ymax < n <==> -DBL_MAX < n && forall i :: 0 <= i < |v| ==> v[i].y < n)
            && (b.ymin > n <==> DBL_MAX > n && forall i :: 0 <= i < |v| ==> v[i].y > n)
    decreases |v|
  {
    if v != [] {
      var k := |v| - 1;
      BoxBounds(v[..k], n);
      assert forall i :: 0 <= i < k ==> v[..k][i] == v[i];
    }
  }

  lemma BoxIsLeft(v: seq<Point>, w: seq<Point>)
    ensures BoxOf(v).xmax < BoxOf(w).xmin <==> LeftOf(v, w)
  {
    hide BoxOf;
    var n := BoxOf(w).xmin;
    BoxBounds(v, n);
    BoxBounds(w, -DBL_MAX);
    forall i | 0 <= i < |v|
      ensures v[i].x < n <==> v[i].x < DBL_MAX && forall j :: 0 <= j < |w| ==> v[i].x < w[j].x
    {
      BoxBounds(w, v[i].x);
    }
  }

  lemma BoxIsBelow(v: seq<Point>, w: seq<Point>)
    ensures BoxOf(v).ymax < BoxOf(w).ymin <==> BelowOf(v, w)
  {
    hide BoxOf;
    var n := BoxOf(w).ymin;
    BoxBounds(v, n);
    BoxBounds(w, -DBL_MAX);
    forall i | 0 <= i < |v|
      ensures v[i].y < n <==> v[i].y < DBL_MAX && forall j :: 0 <= j < |w| ==> v[i].y < w[j].y
    {
      BoxBounds(w, v[i].y);
    }
  }

  /** The boxes of two contours are apart exactly if the contours are. */
  lemma BoxesApart(v: seq<Point>, w: seq<Point>)
    ensures Overlap(BoxOf(v), BoxOf(w)) <==> !Apart(v, w)
  {
    hide BoxOf, LeftOf, BelowOf;
    BoxIsLeft(v, w);
    BoxIsLeft(w, v);
    BoxIsBelow(v, w);
    BoxIsBelow(w, v);
  }

  /** The contour is not apart from every contour of `q`. */
  ghost predicate Involved(v: seq<Point>, q: Polygon) {
    exists d :: 0 <= d < |q| && !Apart(q[d].vertex, v)
  }

  function Negated(c: Contour): Contour {
    c.(count := -c.count)
  }

  /** `p` with those of its first k contours flagged that are apart from all contours of `q`. */
  ghost function FlaggedUpTo(p: Polygon, q: Polygon, k: nat): (r: Polygon)
    ensures |r| == |p|
  {
    seq(|p|, c requires 0 <= c < |p| => if c < k && !Involved(p[c].vertex, q) then Negated(p[c]) else p[c])
  }

  ghost function Flagged(p: Polygon, q: Polygon): Polygon {
    FlaggedUpTo(p, q, |p|)
  }

  /** No contour is flagged. */
  ghost predicate Unflagged(p: Polygon) {
    forall c :: 0 <= c < |p| ==> p[c].count == |p[c].vertex|
  }

  /** Contours that share a point are not apart. */
  lemma SharedPoint(l: Level, v: seq<Point>, w: seq<Point>, x: real, y: real)
    requires ContourMember(l, v, x, y) && ContourMember(l, w, x, y)
    ensures !Apart(v, w)
  {
    hide ContourMember, InBox, Apart;
    var b, c := BoxOf(v), BoxOf(w);
    BoxHolds(v);
    BoxHolds(w);
    MemberInBox(l, v, x, y, b.xmin, b.ymin, b.xmax, b.ymax);
    MemberInBox(l, w, x, y, c.xmin, c.ymin, c.xmax, c.ymax);
    BoxesApart(v, w);
  }

  ghost predicate NoContourHas(l: Level, p: Polygon, x: real, y: real) {
    forall c :: 0 <= c < |p| ==> !ContourMember(l, p[c].vertex, x, y)
  }

  lemma {:induction false} NoneMember(l: Level, p: Polygon, x: real, y: real)
    requires NoContourHas(l, p, x, y)
    ensures !Member(l, p, x, y)
    decreases |p|
  {
    hide ContourMember, Member;
    MemberSplits(l, p, x, y);
    if p != [] {
      NoneMember(l, p[..|p| - 1], x, y);
    }
  }

  /** No contour that would be flagged has the point. */
  ghost predicate NoFlaggedHas(l: Level, p: Polygon, q: Polygon, x: real, y: real) {
    forall c :: 0 <= c < |p| && ContourMember(l, p[c].vertex, x, y) ==> Involved(p[c].vertex, q)
  }

  lemma {:induction false} FlaggedSame(l: Level, p: Polygon, q: Polygon, x: real, y: real)
    requires NoFlaggedHas(l, p, q, x, y)
    ensures Member(l, Flagged(p, q), x, y) == Member(l, p, x, y)
    decreases |p|
  {
    hide ContourMember, Member, Involved;
    var f := Flagged(p, q);
    MemberSplits(l, p, x, y);
    MemberSplits(l, f, x, y);
    if p != [] {
      assert f[..|p| - 1] == Flagged(p[..|p| - 1], q);
      FlaggedSame(l, p[..|p| - 1], q, x, y);
    }
  }

  /** If a flagged contour of one polygon has a point, no contour of the other has it, flagged
      or not. */
  lemma FlaggedIsAlone(l: Level, p: Polygon, q: Polygon, x: real, y: real)
    requires !NoFlaggedHas(l, p, q, x, y)
    ensures !Member(l, q, x, y) && !Member(l, Flagged(q, p), x, y)
  {
    hide ContourMember, Member;
    var c :| 0 <= c < |p| && ContourMember(l, p[c].vertex, x, y) && !Involved(p[c].vertex, q);
    forall d | 0 <= d < |q|
      ensures !ContourMember(l, q[d].vertex, x, y)
    {
      if ContourMember(l, q[d].vertex, x, y) {
        SharedPoint(l, q[d].vertex, p[c].vertex, x, y);
      }
    }
    NoneMember(l, q, x, y);
    NoneMember(l, Flagged(q, p), x, y);
  }

  /** Leaving out the flagged contours changes the result nowhere, even if contours of both
      polygons are left out. */
  lemma MinimaxIsSound(op: Op, l: Level, subj: Polygon, clip: Polygon, x: real, y: real)
    requires op == Int || op == Diff
    ensures var subj' := if op == Int then Flagged(subj, clip) else subj;
            SetOperation(op, Member(l, subj', x, y), Member(l, Flagged(clip, subj), x, y))
            == SetOperation(op, Member(l, subj, x, y), Member(l, clip, x, y))
  {
    hide Member, Flagged, NoFlaggedHas;
    if !NoFlaggedHas(l, clip, subj, x, y) {
      FlaggedIsAlone(l, clip, subj, x, y);
    } else {
      FlaggedSame(l, clip, subj, x, y);
      if NoFlaggedHas(l, subj, clip, x, y) {
        FlaggedSame(l, subj, clip, x, y);
      } else {
        FlaggedIsAlone(l, subj, clip, x, y);
      }
    }
  }

  lemma NotApartFromItself(v: seq<Point>)
    requires v != []
    ensures !Apart(v, v)
  {
    assert !(v[0].x < v[0].x) && !(v[0].y < v[0].y);
  }

  /** A polygon that is compared with itself is not flagged. */
  lemma FlaggedBySelf(p: Polygon)
    requires Unflagged(p)
    ensures Flagged(p, p) == p
  {
    hide Apart;
    forall c | 0 <= c < |p|
      ensures Flagged(p, p)[c] == p[c]
    {
      if p[c].vertex != [] {
        NotApartFromItself(p[c].vertex);
        assert Involved(p[c].vertex, p);
      }
    }
  }

  /** `create_contour_bboxes` */
  method CreateContourBboxes(p: array<Contour>) returns (box: array<Box>)
    requires Unflagged(p[..])
    ensures fresh(box) && box.Length == p.Length
    ensures forall c :: 0 <= c < p.Length ==> box[c] == BoxOf(p[c].vertex) && Bounding(p[c].vertex, box[c])
  {
    box := new Box[p.Length](_ => NO_BOX);
    for c := 0 to p.Length
      invariant forall d :: 0 <= d < c ==> box[d] == BoxOf(p[d].vertex)
    {
      var w := p[..][c].vertex;
      box[c] := NO_BOX;
      for v := 0 to p[c].count
        invariant box[c] == BoxOf(w[..v])
        invariant forall d :: 0 <= d < c ==> box[d] == BoxOf(p[d].vertex)
      {
        assert w[..v + 1][..v] == w[..v];
        box[c] := Adjust(box[c], p[c].vertex[v]);
      }
      assert w[..|w|] == w;
    }
    forall c | 0 <= c < p.Length
      ensures Bounding(p[c].vertex, box[c])
    {
      BoxIsBounding(p[..][c].vertex);
    }
  }

  /** The box holds all vertices, and none of its bounds can be moved inwards. */
  ghost predicate Bounding(v: seq<Point>, b: Box) {
    InBox(v, b.xmin, b.ymin, b.xmax, b.ymax) && (v != [] && Finite(v) ==> Tight(v, b))
  }

  lemma BoxIsBounding(v: seq<Point>)
    ensures Bounding(v, BoxOf(v))
  {
    hide InBox, Finite, Tight;
    BoxHolds(v);
    if v != [] && Finite(v) {
      BoxIsTight(v);
    }
  }

  /** Places in the overlap table. */

  function Place(s: nat, c: nat, width: nat): nat {
    c * width + s
  }

  lemma PlaceFits(s: nat, c: nat, width: nat, height: nat)
    requires s < width && c < height
    ensures Place(s, c, width) < width * height
  {
    assert c * width + width == (c + 1) * width <= height * width;
  }

  lemma PlacesDiffer(s: nat, c: nat, s': nat, c': nat, width: nat)
    requires s < width && s' < width && (s != s' || c != c')
    ensures Place(s, c, width) != Place(s', c', width)
  {
    if c < c' {
      assert (c + 1) * width <= c' * width;
    } else if c' < c {
      assert (c' + 1) * width <= c * width;
    }
  }

  /** `o_table` has an entry for every pair of contours. */
  ghost predicate Tabled(table: seq<bool>, subj: Polygon, clip: Polygon) {
    forall s: nat, c: nat :: s < |subj| && c < |clip| ==> TabledAt(table, subj, clip, s, c)
  }

  ghost predicate TabledAt(table: seq<bool>, subj: Polygon, clip: Polygon, s: nat, c: nat)
    requires s < |subj| && c < |clip|
  {
    && Place(s, c, |subj|) < |table|
    && table[Place(s, c, |subj|)] == Overlap(BoxOf(subj[s].vertex), BoxOf(clip[c].vertex))
  }

  /** The entries made when the loops have reached contours s and c. */
  ghost predicate TabledUpTo(table: seq<bool>, subj: Polygon, clip: Polygon, s: nat, c: nat) {
    forall s': nat, c': nat :: s' < |subj| && c' < |clip| && (s' < s || (s' == s && c' < c)) ==>
      TabledAt(table, subj, clip, s', c')
  }

  lemma TabledNext(table: seq<bool>, subj: Polygon, clip: Polygon, s: nat, c: nat)
    requires s < |subj| && c < |clip| && |table| == |subj| * |clip|
    requires TabledUpTo(table, subj, clip, s, c)
    ensures Place(s, c, |subj|) < |table|
    ensures TabledUpTo(table[Place(s, c, |subj|) := Overlap(BoxOf(subj[s].vertex), BoxOf(clip[c].vertex))], subj, clip,
            s, c + 1)
  {
    hide Place, Overlap, BoxOf;
    PlaceFits(s, c, |subj|, |clip|);
    var table' := table[Place(s, c, |subj|) := Overlap(BoxOf(subj[s].vertex), BoxOf(clip[c].vertex))];
    forall s': nat, c': nat | s' < |subj| && c' < |clip| && (s' < s || (s' == s && c' < c + 1))
      ensures TabledAt(table', subj, clip, s', c')
    {
      if s' != s || c' != c {
        assert TabledAt(table, subj, clip, s', c');
        PlacesDiffer(s', c', s, c, |subj|);
      }
    }
  }

  method FillOverlapTable(subj: array<Contour>, clip: array<Contour>) returns (table: array<bool>)
    requires Unflagged(subj[..]) && Unflagged(clip[..])
    ensures fresh(table) && Tabled(table[..], subj[..], clip[..])
  {
    hide Place, Overlap, BoxOf, TabledAt;
    var sBox := CreateContourBboxes(subj);
    var cBox := CreateContourBboxes(clip);
    ghost var p, q := subj[..], clip[..];
    table := new bool[subj.Length * clip.Length];
    for s := 0 to subj.Length
      invariant TabledUpTo(table[..], p, q, s, 0)
      invariant forall i :: 0 <= i < |p| ==> sBox[i] == BoxOf(p[i].vertex)
      invariant forall i :: 0 <= i < |q| ==> cBox[i] == BoxOf(q[i].vertex)
    {
      for c := 0 to clip.Length
        invariant TabledUpTo(table[..], p, q, s, c)
        invariant forall i :: 0 <= i < |p| ==> sBox[i] == BoxOf(p[i].vertex)
        invariant forall i :: 0 <= i < |q| ==> cBox[i] == BoxOf(q[i].vertex)
      {
        TabledNext(table[..], p, q, s, c);
        ghost var was := table[..];
        table[Place(s, c, subj.Length)] := Overlap(sBox[s], cBox[c]);
        assert table[..] == was[Place(s, c, |p|) := Overlap(BoxOf(p[s].vertex), BoxOf(q[c].vertex))];
      }
    }
  }

  lemma TableEntry(table: seq<bool>, subj: Polygon, clip: Polygon, s: nat, c: nat)
    requires Tabled(table, subj, clip) && s < |subj| && c < |clip|
    ensures Place(s, c, |subj|) < |table|
    ensures table[Place(s, c, |subj|)] == Overlap(BoxOf(subj[s].vertex), BoxOf(clip[c].vertex))
  {
    assert TabledAt(table, subj, clip, s, c);
  }

  lemma ApartBothWays(v: seq<Point>, w: seq<Point>)
    ensures Apart(v, w) == Apart(w, v)
  {
    hide LeftOf, BelowOf;
  }

  /** Searches the row of a clip contour for a subject contour that overlaps it. */
  method ClipOverlaps(table: array<bool>, c: nat, width: nat, ghost subj: Polygon, ghost clip: Polygon)
    returns (overlap: bool)
    requires Tabled(table[..], subj, clip) && c < |clip| && width == |subj|
    ensures overlap == Involved(clip[c].vertex, subj)
  {
    hide Place, Overlap, BoxOf, Tabled, Apart;
    overlap := false;
    var s := 0;
    while !overlap && s < width
      invariant 0 <= s <= width
      invariant overlap ==> Involved(clip[c].vertex, subj)
      invariant !overlap ==> forall d :: 0 <= d < s ==> Apart(subj[d].vertex, clip[c].vertex)
    {
      TableEntry(table[..], subj, clip, s, c);
      BoxesApart(subj[s].vertex, clip[c].vertex);
      overlap := table[Place(s, c, width)];
      s := s + 1;
    }
  }

  /** Searches the column of a subject contour for a clip contour that overlaps it. */
  method SubjOverlaps(table: array<bool>, s: nat, width: nat, height: nat, ghost subj: Polygon, ghost clip: Polygon)
    returns (overlap: bool)
    requires Tabled(table[..], subj, clip) && s < |subj| == width && height == |clip|
    ensures overlap == Involved(subj[s].vertex, clip)
  {
    hide Place, Overlap, BoxOf, Tabled, Apart;
    overlap := false;
    var c := 0;
    while !overlap && c < height
      invariant 0 <= c <= height
      invariant overlap ==> Involved(subj[s].vertex, clip)
      invariant !overlap ==> forall d :: 0 <= d < c ==> Apart(clip[d].vertex, subj[s].vertex)
    {
      TableEntry(table[..], subj, clip, s, c);
      BoxesApart(subj[s].vertex, clip[c].vertex);
      ApartBothWays(subj[s].vertex, clip[c].vertex);
      overlap := table[Place(s, c, width)];
      c := c + 1;
    }
  }

  /** `minimax_test`.  The polygons may be one and the same. */
  method MinimaxTest(subj: array<Contour>, clip: array<Contour>, op: Op)
    requires Unflagged(subj[..]) && Unflagged(clip[..])
    modifies subj, clip
    ensures clip[..] == Flagged(old(clip[..]), old(subj[..]))
    ensures subj[..] == if op == Int then Flagged(old(subj[..]), old(clip[..])) else old(subj[..])
  {
    hide Involved, Tabled, Unflagged;
    ghost var p, q := subj[..], clip[..];
    if subj == clip {
      FlaggedBySelf(p);
    }
    var table := FillOverlapTable(subj, clip);
    FlaggedNone(q, p);
    for c := 0 to clip.Length
      invariant clip[..] == FlaggedUpTo(q, p, c) && (subj != clip ==> subj[..] == p)
      invariant Tabled(table[..], p, q)
    {
      var overlap := ClipOverlaps(table, c, subj.Length, p, q);
      FlaggedNext(q, p, c);
      if !overlap {
        clip[c] := Negated(clip[c]);
      }
    }
    assert clip[..] == Flagged(q, p) && subj[..] == p;
    if op == Int {
      FlaggedNone(p, q);
      for s := 0 to subj.Length
        invariant subj[..] == FlaggedUpTo(p, q, s) && (subj != clip ==> clip[..] == Flagged(q, p))
        invariant Tabled(table[..], p, q)
      {
        var overlap := SubjOverlaps(table, s, subj.Length, clip.Length, p, q);
        FlaggedNext(p, q, s);
        if !overlap {
          subj[s] := Negated(subj[s]);
        }
      }
    }
  }

  lemma FlaggedNone(p: Polygon, q: Polygon)
    ensures FlaggedUpTo(p, q, 0) == p
  {
  }

  lemma FlaggedNext(p: Polygon, q: Polygon, k: nat)
    requires k < |p|
    ensures FlaggedUpTo(p, q, k)[k] == p[k]
    ensures FlaggedUpTo(p, q, k + 1)
         == if Involved(p[k].vertex, q) then FlaggedUpTo(p, q, k) else FlaggedUpTo(p, q, k)[k := Negated(p[k])]
  {
  }
}
