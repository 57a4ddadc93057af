/**
 The order of the active edge table between two crossings: at every height from the last
 crossing taken to the next one, the lines stand in order.
 */
module BeamOrder {
  import opened Regions
  import opened Crossings
  import opened IntersectionTable
  import opened Exchange

  /** Where a line is at height u above the bottom of the scanbeam. */
  function LineAt(l: Line, u: real): real {
    l.xb + l.dx * u
  }

  lemma DifferenceOfProducts(d: real, e: real, u: real, c: real)
    ensures d * u - e * u - (d * c - e * c) == (d - e) * (u - c)
  {
  }

  lemma Distribute(d: real, e: real, u: real)
    ensures d * u - e * u == (d - e) * u
  {
  }

  /** Two lines that cross stand in their old order up to the crossing, and in the new one
      from there. */
  lemma InvertedAt(lines: seq<Line>, dy: real, i: nat, j: nat, u: real)
    requires Beam(lines, dy) && Inverted(lines, i, j)
    ensures IsCross(lines, i, j)
    ensures var c := Cross(lines, dy, i, j).point.y;
            && (u <= c ==> LineAt(lines[i], u) <= LineAt(lines[j], u))
            && (u >= c ==> LineAt(lines[j], u) <= LineAt(lines[i], u))
  {
    hide Ratio, Cross;
    InvertedCross(lines, dy, i, j);
    CrossOnBoth(lines, dy, i, j);
    var c := Cross(lines, dy, i, j).point.y;
    var d, e := lines[i].dx, lines[j].dx;
    Factor(e, d, dy);
    assert d > e;
    DifferenceOfProducts(d, e, u, c);
    Slide(d - e, if u <= c then c - u else u - c, if u <= c then c - u else u - c);
    assert (d - e) * (u - c) == -((d - e) * (c - u));
  }

  lemma GapAt(l: Line, m: Line, d: real, u: real)
    requires d == m.dx - l.dx
    ensures LineAt(m, u) - LineAt(l, u) == m.xb - l.xb + d * u
  {
    Distribute(m.dx, l.dx, u);
  }

  lemma TopAt(lines: seq<Line>, dy: real, i: nat)
    requires Beam(lines, dy) && i < |lines|
    ensures LineAt(lines[i], dy) == lines[i].xt
  {
  }

  /** Two lines that do not cross keep their order. */
  lemma NotInvertedAt(lines: seq<Line>, dy: real, i: nat, j: nat, u: real)
    requires Beam(lines, dy) && i < j < |lines| && !Inverted(lines, i, j) && 0.0 <= u <= dy
    ensures LineAt(lines[i], u) <= LineAt(lines[j], u)
  {
    var d, gap := lines[j].dx - lines[i].dx, lines[j].xb - lines[i].xb;
    Slide(d, u, dy);
    TopAt(lines, dy, i);
    TopAt(lines, dy, j);
    hide LineAt;
    GapAt(lines[i], lines[j], d, u);
    GapAt(lines[i], lines[j], d, dy);
    BetweenEnds(gap, lines[j].xt - lines[i].xt, d * u, d * dy);
  }

  /** A difference that is not negative at either end is not negative in between. */
  lemma BetweenEnds(gap: real, above: real, part: real, whole: real)
    requires gap >= 0.0 && above == gap + whole && above >= 0.0
    requires 0.0 <= part <= whole || whole <= part <= 0.0
    ensures gap + part >= 0.0
  {
  }

  /** The table is in order of height. */
  lemma TableAscends(lines: seq<Line>, dy: real, it: seq<Crossing>, m: nat, n: nat)
    requires Complete(lines, dy, it) && m <= n < |it|
    ensures it[m].point.y <= it[n].point.y
  {
    hide Ratio;
    if m < n {
      RecordIsCross(lines, dy, it, m);
      RecordIsCross(lines, dy, it, n);
      assert Before(lines, it[m], it[n]);
    }
  }

  lemma PairSortedAt(lines: seq<Line>, dy: real, it: seq<Crossing>, k: nat, a: nat, b: nat, u: real)
    requires Beam(lines, dy) && Complete(lines, dy, it) && k <= |it|
    requires a < |lines| && b < |lines| && InOrder(it, k, a, b) && 0.0 <= u <= dy
    requires k > 0 ==> it[k - 1].point.y <= u
    requires k < |it| ==> u <= it[k].point.y
    ensures LineAt(lines[a], u) <= LineAt(lines[b], u)
  {
    hide Beam, Complete, LineAt, Cross, Ratio;
    if b < a {
      var m :| 0 <= m < k && m < |it| && it[m].left == b && it[m].right == a;
      TableAscends(lines, dy, it, m, k - 1);
      RecordIsCross(lines, dy, it, m);
      InvertedAt(lines, dy, b, a, u);
    } else if Inverted(lines, a, b) {
      AllTaken(lines, dy, it, a, b);
      var m :| 0 <= m < |it| && it[m].left == a && it[m].right == b;
      TableAscends(lines, dy, it, k, m);
      RecordIsCross(lines, dy, it, m);
      InvertedAt(lines, dy, a, b, u);
    } else {
      NotInvertedAt(lines, dy, a, b, u);
    }
  }

  /** The height above the bottom at which record k is taken; after the last one, the top. */
  function TurnAt(it: seq<Crossing>, k: nat, dy: real): real {
    if k < |it| then it[k].point.y else dy
  }

  lemma TurnsAscend(lines: seq<Line>, dy: real, it: seq<Crossing>, k: nat)
    requires Beam(lines, dy) && Complete(lines, dy, it) && k <= |it|
    ensures 0.0 <= TurnAt(it, k, dy) <= dy
    ensures k > 0 ==> 0.0 <= it[k - 1].point.y <= TurnAt(it, k, dy)
  {
    hide Ratio, Complete, Cross;
    if k < |it| {
      RecordIsCross(lines, dy, it, k);
      InvertedCross(lines, dy, it[k].left, it[k].right);
    }
    if k > 0 {
      RecordIsCross(lines, dy, it, k - 1);
      InvertedCross(lines, dy, it[k - 1].left, it[k - 1].right);
      if k < |it| {
        TableAscends(lines, dy, it, k - 1, k);
      }
    }
  }

  /** From the last record taken to the next one, the lines stand in order. */
  lemma RowSortedAt(lines: seq<Line>, dy: real, it: seq<Crossing>, k: nat, cur: seq<nat>, u: real)
    requires Beam(lines, dy) && Complete(lines, dy, it) && k <= |it|
    requires Arranged(|lines|, it, k, cur) && 0.0 <= u <= TurnAt(it, k, dy)
    requires k > 0 ==> it[k - 1].point.y <= u
    ensures forall p, q :: 0 <= p < q < |cur| ==> LineAt(lines[cur[p]], u) <= LineAt(lines[cur[q]], u)
  {
    hide Beam, Complete, LineAt;
    TurnsAscend(lines, dy, it, k);
    forall p, q | 0 <= p < q < |cur|
      ensures LineAt(lines[cur[p]], u) <= LineAt(lines[cur[q]], u)
    {
      assert InOrder(it, k, cur[p], cur[q]);
      PairSortedAt(lines, dy, it, k, cur[p], cur[q], u);
    }
  }
}
