/**
 The intersection table of one scanbeam: which pairs of edges cross inside it, where,
 and in which order they are met.

 Edges (bundles, in fact) are named by their position in the active edge table at the
 bottom of the scanbeam.
 */
module Crossings {
  import opened Base

  /** An edge within a scanbeam: where it enters, where it leaves, and its slope. */
  datatype Line = Line(xb: real, xt: real, dx: real)

  /** Lines of a scanbeam of height `dy`, ordered at the bottom. */
  ghost predicate Beam(lines: seq<Line>, dy: real) {
    && dy > 0.0
    && (forall i :: 0 <= i < |lines| ==> lines[i].xt - lines[i].xb == lines[i].dx * dy)
    && (forall i, j :: 0 <= i < j < |lines| ==> lines[i].xb <= lines[j].xb)
  }

  /** A record of the intersection table: the edge on the left, the edge on the right,
      and the point, its height counted from the bottom of the scanbeam. */
  datatype Crossing = Crossing(left: nat, right: nat, point: Point)

  /** Left at the bottom, and strictly right at the top. */
  ghost predicate Inverted(lines: seq<Line>, i: nat, j: nat) {
    i < j < |lines| && lines[i].xt > lines[j].xt
  }

  /** How far a line moves to the right within the scanbeam. */
  function Rise(l: Line): real {
    l.xt - l.xb
  }

  lemma Quotient(n: real, u: real, v: real)
    requires u - v != 0.0
    ensures n / (u - v) * u - n / (u - v) * v == n
  {
    var q := n / (u - v);
    assert q * (u - v) == n;
    assert q * (u - v) == q * u - q * v;
  }

  /** The divisor `den` of `add_st_edge` is not zero. */
  predicate IsCross(lines: seq<Line>, i: nat, j: nat) {
    i < |lines| && j < |lines| && Rise(lines[i]) - Rise(lines[j]) != 0.0
  }

  /** How far up the scanbeam lines `i` and `j` meet. */
  function Ratio(lines: seq<Line>, i: nat, j: nat): (r: real)
    requires IsCross(lines, i, j)
    ensures r * Rise(lines[i]) - r * Rise(lines[j]) == lines[j].xb - lines[i].xb
  {
    Quotient(lines[j].xb - lines[i].xb, Rise(lines[i]), Rise(lines[j]));
    (lines[j].xb - lines[i].xb) / (Rise(lines[i]) - Rise(lines[j]))
  }

  /** The record that `add_st_edge` computes. */
  function Cross(lines: seq<Line>, dy: real, i: nat, j: nat): Crossing
    requires IsCross(lines, i, j)
  {
    var r := Ratio(lines, i, j);
    Crossing(i, j, Point(lines[i].xb + r * Rise(lines[i]), r * dy))
  }

  /** Comparing multiples of a positive number compares the factors. */
  lemma Factor(p: real, q: real, u: real)
    requires u > 0.0
    ensures p * u >= q * u <==> p >= q
    ensures p * u > q * u <==> p > q
  {
    assert (p - q) * u == p * u - q * u;
  }

  lemma UnitRatio(r: real, u: real, n: real)
    requires u > 0.0 && r * u == n && 0.0 <= n < u
    ensures 0.0 <= r < 1.0
  {
    Factor(r, 0.0, u);
    Factor(1.0, r, u);
  }

  /** An inverted pair crosses inside the scanbeam, so neither of the other two tests
      of `add_st_edge` ever hides its crossing. */
  lemma InvertedCross(lines: seq<Line>, dy: real, i: nat, j: nat)
    requires Beam(lines, dy) && Inverted(lines, i, j)
    ensures IsCross(lines, i, j) && Rise(lines[i]) > Rise(lines[j]) && lines[i].dx != lines[j].dx
    ensures 0.0 <= Ratio(lines, i, j) < 1.0
    ensures 0.0 <= Cross(lines, dy, i, j).point.y < dy
  {
    var u, v := Rise(lines[i]), Rise(lines[j]);
    assert u - v == (lines[i].xt - lines[j].xt) + (lines[j].xb - lines[i].xb) > 0.0;
    var r := Ratio(lines, i, j);
    assert r * (u - v) == r * u - r * v;
    UnitRatio(r, u - v, lines[j].xb - lines[i].xb);
    Factor(1.0, r, dy);
    Factor(r, 0.0, dy);
  }

  lemma Reassociate(r: real, dx: real, dy: real)
    ensures r * (dx * dy) == dx * (r * dy)
  {
  }

  /** The computed point lies on both lines. */
  lemma CrossOnBoth(lines: seq<Line>, dy: real, i: nat, j: nat)
    requires Beam(lines, dy) && Inverted(lines, i, j)
    ensures IsCross(lines, i, j)
    ensures var pt := Cross(lines, dy, i, j).point;
            && pt.x == lines[i].xb + lines[i].dx * pt.y
            && pt.x == lines[j].xb + lines[j].dx * pt.y
  {
    InvertedCross(lines, dy, i, j);
    var r := Ratio(lines, i, j);
    Reassociate(r, lines[i].dx, dy);
    Reassociate(r, lines[j].dx, dy);
  }

  /** Order of the sorted edge table from its head: descending at the top, and the
      later of two that end together first. */
  predicate Ahead(lines: seq<Line>, i: nat, j: nat)
    requires i < |lines| && j < |lines|
  {
    lines[i].xt > lines[j].xt || (lines[i].xt == lines[j].xt && i > j)
  }

  /** Order of the intersection table: by height, ties by insertion. */
  predicate Before(lines: seq<Line>, c: Crossing, d: Crossing)
    requires c.left < |lines| && d.left < |lines|
  {
    c.point.y < d.point.y ||
    (c.point.y == d.point.y &&
     (c.right < d.right || (c.right == d.right && Ahead(lines, c.left, d.left))))
  }

  ghost predicate IsRecord(lines: seq<Line>, dy: real, c: Crossing) {
    && Inverted(lines, c.left, c.right)
    && IsCross(lines, c.left, c.right)
    && c == Cross(lines, dy, c.left, c.right)
  }

  /** A weighted mean lies between its parts. */
  lemma Mean(p: real, q: real, r: real, u: real, v: real)
    requires u > 0.0 && v > 0.0 && r * (u + v) == p * u + q * v
    ensures p == q ==> r == p
    ensures p < q ==> p < r < q
    ensures p > q ==> p > r > q
  {
    assert r * (u + v) == r * u + r * v;
    Factor(r, p, u);
    Factor(p, r, u);
    Factor(q, r, v);
    Factor(r, q, v);
  }

  /** Three lines, from left to right at the bottom, that all cross each other: the
      outer two cross between the other crossings. */
  lemma CrossingsOfThree(lines: seq<Line>, dy: real, a: nat, b: nat, c: nat)
    requires Beam(lines, dy) && Inverted(lines, a, b) && Inverted(lines, b, c)
    ensures IsCross(lines, a, b) && IsCross(lines, b, c) && IsCross(lines, a, c)
    ensures var ab, ac, bc := Cross(lines, dy, a, b), Cross(lines, dy, a, c), Cross(lines, dy, b, c);
            || (Before(lines, ab, ac) && Before(lines, ac, bc))
            || (Before(lines, bc, ac) && Before(lines, ac, ab))
  {
    hide Ratio, Rise, Cross, Beam;
    InvertedCross(lines, dy, a, b);
    InvertedCross(lines, dy, b, c);
    InvertedCross(lines, dy, a, c);
    var p, q, r := Ratio(lines, a, b), Ratio(lines, b, c), Ratio(lines, a, c);
    OuterRatio(p, q, r, lines[a], lines[b], lines[c]);
    SameOrder(lines, dy, a, b, a, c);
    SameOrder(lines, dy, a, c, b, c);
  }

  lemma SameOrder(lines: seq<Line>, dy: real, i: nat, j: nat, k: nat, l: nat)
    requires dy > 0.0 && IsCross(lines, i, j) && IsCross(lines, k, l)
    ensures var p, q := Ratio(lines, i, j), Ratio(lines, k, l);
            var c, d := Cross(lines, dy, i, j), Cross(lines, dy, k, l);
            && (p < q <==> c.point.y < d.point.y) && (p == q <==> c.point.y == d.point.y)
            && c.left == i && c.right == j && d.left == k && d.right == l
  {
    Factor(Ratio(lines, i, j), Ratio(lines, k, l), dy);
    Factor(Ratio(lines, k, l), Ratio(lines, i, j), dy);
  }

  lemma OuterRatio(p: real, q: real, r: real, a: Line, b: Line, c: Line)
    requires Rise(a) > Rise(b) > Rise(c)
    requires p * Rise(a) - p * Rise(b) == b.xb - a.xb
    requires q * Rise(b) - q * Rise(c) == c.xb - b.xb
    requires r * Rise(a) - r * Rise(c) == c.xb - a.xb
    ensures p == q ==> r == p
    ensures p < q ==> p < r < q
    ensures p > q ==> p > r > q
  {
    var ra, rb, rc := Rise(a), Rise(b), Rise(c);
    var u, v := ra - rb, rb - rc;
    Spread(p, ra, rb);
    Spread(q, rb, rc);
    Spread(r, ra, rc);
    Mean(p, q, r, u, v);
  }

  lemma Spread(p: real, u: real, v: real)
    ensures p * (u - v) == p * u - p * v
  {
  }

  /** Line `a` crosses `b` and `c`, which do not cross: it meets the nearer one first. */
  lemma CrossesNearerFirst(lines: seq<Line>, dy: real, a: nat, b: nat, c: nat)
    requires Beam(lines, dy) && Inverted(lines, a, b) && Inverted(lines, a, c)
    requires b < c && !Inverted(lines, b, c)
    ensures IsCross(lines, a, b) && IsCross(lines, a, c)
    ensures Before(lines, Cross(lines, dy, a, b), Cross(lines, dy, a, c))
  {
    hide Ratio, Rise, Cross;
    InvertedCross(lines, dy, a, b);
    InvertedCross(lines, dy, a, c);
    var p, r := Ratio(lines, a, b), Ratio(lines, a, c);
    Ordered(p, lines[b], lines[c]);
    Spread(p, Rise(lines[a]), Rise(lines[c]));
    Spread(r, Rise(lines[a]), Rise(lines[c]));
    Factor(r, p, Rise(lines[a]) - Rise(lines[c]));
    SameOrder(lines, dy, a, b, a, c);
  }

  /** Line `c` is crossed by `a` and `b`, which do not cross: it meets the nearer one first. */
  lemma CrossedByNearerFirst(lines: seq<Line>, dy: real, a: nat, b: nat, c: nat)
    requires Beam(lines, dy) && Inverted(lines, a, c) && Inverted(lines, b, c)
    requires a < b && !Inverted(lines, a, b)
    ensures IsCross(lines, b, c) && IsCross(lines, a, c)
    ensures Before(lines, Cross(lines, dy, b, c), Cross(lines, dy, a, c))
  {
    hide Ratio, Rise, Cross;
    InvertedCross(lines, dy, b, c);
    InvertedCross(lines, dy, a, c);
    var q, r := Ratio(lines, b, c), Ratio(lines, a, c);
    Ordered(q, lines[a], lines[b]);
    Spread(q, Rise(lines[a]), Rise(lines[c]));
    Spread(r, Rise(lines[a]), Rise(lines[c]));
    Factor(r, q, Rise(lines[a]) - Rise(lines[c]));
    SameOrder(lines, dy, b, c, a, c);
  }

  /** Lines ordered at the bottom and at the top are ordered in between. */
  lemma Ordered(r: real, a: Line, b: Line)
    requires 0.0 <= r <= 1.0 && a.xb <= b.xb && a.xt <= b.xt
    ensures a.xb + r * Rise(a) <= b.xb + r * Rise(b)
  {
    var u, v := b.xb - a.xb, b.xt - a.xt;
    assert (1.0 - r) * u >= 0.0 && r * v >= 0.0;
    assert (1.0 - r) * u == u - r * u;
    Spread(r, b.xt, a.xt);
    Spread(r, b.xb, a.xb);
    Spread(r, b.xt, b.xb);
    Spread(r, a.xt, a.xb);
  }
}
