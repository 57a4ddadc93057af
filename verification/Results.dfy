/**
 The result polygon: `count_contours`, and the contours read off the output nodes, newest
 first and from right to left.
 */
module Results {
  import opened Base
  import opened Output

  datatype ResultContour = ResultContour(hole: bool, vertex: seq<Point>)

  function Reversed(v: seq<Point>): (r: seq<Point>)
    ensures |r| == |v| && forall i :: 0 <= i < |v| ==> r[i] == v[|v| - 1 - i]
  {
    seq(|v|, i requires 0 <= i < |v| => v[|v| - 1 - i])
  }

  /** A representative with more than two vertices becomes a contour of the result. */
  predicate Valued(c: Poly) {
    c.active && |c.verts| > 2
  }

  function ContourOf(c: Poly): ResultContour {
    ResultContour(c.hole == Some(true), Reversed(c.verts))
  }

  /** How many contours the result has. */
  function CountContours(s: Store): nat {
    if s == [] then 0 else CountContours(s[1..]) + if Valued(s[0]) then 1 else 0
  }

  function Extract(s: Store): seq<ResultContour> {
    if s == [] then [] else Extract(s[1..]) + if Valued(s[0]) then [ContourOf(s[0])] else []
  }

  /** The result shows the nodes `s`: just one contour for each representative with more than two
      vertices, with its flag and with its vertices from right to left; a node's contour comes after
      those of all newer nodes. */
  ghost predicate Shown(s: Store, result: seq<ResultContour>) {
    && |result| == CountContours(s)
    && forall r: nat :: r < |s| && s[r].active && |s[r].verts| > 2 ==> ShownAt(s, result, r)
  }

  ghost predicate ShownAt(s: Store, result: seq<ResultContour>, r: nat)
    requires r < |s|
  {
    var place := CountContours(s[r + 1..]);
    && place < |result|
    && result[place].hole == (s[r].hole == Some(true))
    && |result[place].vertex| == |s[r].verts|
    && forall i :: 0 <= i < |s[r].verts| ==> result[place].vertex[i] == s[r].verts[|s[r].verts| - 1 - i]
  }

  lemma NothingShows()
    ensures Shown([], [])
  {
  }

  lemma ExtractShows(s: Store)
    ensures Shown(s, Extract(s))
  {
    ExtractPlaces(s, 0);
    forall r: nat | r < |s| && s[r].active && |s[r].verts| > 2
      ensures ShownAt(s, Extract(s), r)
    {
      ExtractPlaces(s, r);
    }
  }

  /** The result has just one contour for each valued node, and a node's contour comes after
      those of all newer nodes. */
  lemma {:induction false} ExtractPlaces(s: Store, r: nat)
    ensures |Extract(s)| == CountContours(s)
    ensures r < |s| && Valued(s[r]) ==>
      CountContours(s[r + 1..]) < CountContours(s) && Extract(s)[CountContours(s[r + 1..])] == ContourOf(s[r])
    decreases |s|
  {
    if s != [] {
      ExtractPlaces(s[1..], if r > 0 then r - 1 else 0);
      if 0 < r < |s| {
        assert s[1..][r..] == s[r + 1..];
      }
    }
  }

  lemma {:induction false} ExtractFrom(s: Store, c: ResultContour) returns (r: nat)
    requires c in Extract(s)
    ensures r < |s| && Valued(s[r]) && c == ContourOf(s[r])
    decreases |s|
  {
    if c in Extract(s[1..]) {
      r := ExtractFrom(s[1..], c);
      r := r + 1;
    } else {
      r := 0;
    }
  }

  /** A closed path: every vertex lies on an input side, and every side is horizontal or runs
      along an input side. */
  ghost predicate ClosedPath(segs: set<Segment>, v: seq<Point>) {
    && (forall i :: 0 <= i < |v| ==> OnSide(segs, v[i]))
    && (forall i {:trigger v[i]} :: 0 <= i < |v| ==> Along(segs, v[i], v[if i + 1 == |v| then 0 else i + 1]))
  }

  lemma AlongBack(segs: set<Segment>, a: Point, b: Point)
    requires Along(segs, a, b)
    ensures Along(segs, b, a)
  {
  }

  lemma ReversedPath(segs: set<Segment>, v: seq<Point>)
    requires v != [] && Chain(segs, v) && Along(segs, v[|v| - 1], v[0])
    ensures ClosedPath(segs, Reversed(v))
  {
    var r, n := Reversed(v), |v|;
    forall i | 0 <= i < n
      ensures OnSide(segs, r[i])
      ensures Along(segs, r[i], r[if i + 1 == n then 0 else i + 1])
    {
      assert OnSide(segs, v[n - 1 - i]);
      if i + 1 == n {
        AlongBack(segs, v[n - 1], v[0]);
      } else {
        AlongBack(segs, v[n - 2 - i], v[n - 2 - i + 1]);
      }
    }
  }

  /** When no end is held any more, every contour of the result is a closed path. */
  lemma ResultIsTraced(segs: set<Segment>, s: Store, c: ResultContour)
    requires Sound(segs, multiset{}, s) && c in Extract(s)
    ensures |c.vertex| > 2 && ClosedPath(segs, c.vertex)
  {
    var r := ExtractFrom(s, c);
    AllClosed(s, r);
    assert ContourTraced(segs, s[r]);
    ReversedPath(segs, s[r].verts);
  }

  /** When no end is held any more, every representative has been closed, and so knows whether
      it is a hole. */
  lemma AllClosed(s: Store, r: nat)
    requires Owned(multiset{}, s) && r < |s| && s[r].active
    ensures s[r].closed && s[r].hole.Some?
  {
    assert Open(s, r) ==> HasHolder(multiset{}, s, r, Left);
  }
}
