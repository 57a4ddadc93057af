/** The polygons that the clipper is called with. */
module Polygons {
  import opened Base
  import opened Sides

  /** A contour.  `count` is its number of vertices, negated while the contour is flagged
      as not contributing. */
  datatype Contour = Contour(count: int, vertex: seq<Point>) {
    predicate Sized() {
      count == |vertex| || count == -|vertex|
    }

    /** The contour is not flagged. */
    predicate Counts() {
      count >= 0
    }
  }

  type Polygon = seq<Contour>

  ghost predicate Sized(p: Polygon) {
    forall c :: 0 <= c < |p| ==> p[c].Sized()
  }

  /** The sides that are not horizontal, of the contours that are not flagged. */
  function SidesOfPolygon(p: Polygon): seq<Segment> {
    if p == [] then []
    else SidesOfPolygon(p[..|p| - 1]) + (var c := p[|p| - 1]; if c.Counts() then SidesOf(c.vertex) else [])
  }

  /** The vertices that the program keeps. */
  function KeptOfPolygon(p: Polygon): seq<Point> {
    if p == [] then []
    else KeptOfPolygon(p[..|p| - 1]) + (var c := p[|p| - 1]; if c.Counts() then Kept(c.vertex) else [])
  }

  lemma NoneCounted(test: Segment -> bool)
    ensures CountIf([], test) == 0
  {
  }

  /** A polygon crosses every level an even number of times. */
  lemma {:induction false} PolygonCrossedEvenly(p: Polygon, l: Level, y: real)
    ensures CountIf(SidesOfPolygon(p), CrossedAt(l, y)) % 2 == 0
    decreases |p|
  {
    hide CrossedAt, CountIf, SidesOf;
    if p == [] {
      NoneCounted(CrossedAt(l, y));
    } else {
      var r, c := p[..|p| - 1], p[|p| - 1];
      PolygonCrossedEvenly(r, l, y);
      CrossedEvenly(c.vertex, l, y);
      NoneCounted(CrossedAt(l, y));
      CountIfConcat(SidesOfPolygon(r), if c.Counts() then SidesOf(c.vertex) else [], CrossedAt(l, y));
    }
  }
}
