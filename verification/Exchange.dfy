/**
 The order of the active edge table while the intersection table is worked off.

 Two lines stand in their original order until their crossing is taken, and in the
 opposite order from then on.  From this alone it follows that every crossing, when
 its turn comes, exchanges two neighbours.
 */
module Exchange {
  import opened Crossings
  import opened IntersectionTable

  /** The pair of lines (i, j) is among the first `k` records. */
  ghost predicate Taken(it: seq<Crossing>, k: nat, i: nat, j: nat) {
    exists m :: 0 <= m < k && m < |it| && it[m].left == i && it[m].right == j
  }

  /** `cur` holds lines 0 to n-1, in the order after the first `k` crossings. */
  ghost predicate Arranged(n: nat, it: seq<Crossing>, k: nat, cur: seq<nat>) {
    && |cur| == n
    && (forall p :: 0 <= p < n ==> cur[p] < n)
    && (forall i :: 0 <= i < n ==> i in cur)
    && (forall p, q :: 0 <= p < q < n ==> InOrder(it, k, cur[p], cur[q]))
  }

  /** Line `a` may stand to the left of line `b`. */
  ghost predicate InOrder(it: seq<Crossing>, k: nat, a: nat, b: nat) {
    (a < b && !Taken(it, k, a, b)) || (b < a && Taken(it, k, b, a))
  }

  /** A crossing has been taken exactly if it comes before the next one. */
  lemma TakenIffBefore(lines: seq<Line>, dy: real, it: seq<Crossing>, k: nat, i: nat, j: nat)
    requires Beam(lines, dy) && Complete(lines, dy, it) && k < |it|
    requires Inverted(lines, i, j)
    ensures IsCross(lines, i, j) && it[k].left < |lines| && Cross(lines, dy, i, j).left == i
    ensures Taken(it, k, i, j) <==> Before(lines, Cross(lines, dy, i, j), it[k])
  {
    hide Beam, Ratio;
    InvertedCross(lines, dy, i, j);
    assert IsRecord(lines, dy, it[k]);
    assert Handled(i, j, |lines|, []);
    assert HasPair(it, i, j);
    var m :| 0 <= m < |it| && it[m].left == i && it[m].right == j;
    assert IsRecord(lines, dy, it[m]);
    forall l | 0 <= l < |it| && it[l].left == i && it[l].right == j
      ensures l == m
    {
      assert IsRecord(lines, dy, it[l]);
    }
  }

  lemma TakenIsInverted(lines: seq<Line>, dy: real, it: seq<Crossing>, k: nat, i: nat, j: nat)
    requires Complete(lines, dy, it) && Taken(it, k, i, j)
    ensures Inverted(lines, i, j)
  {
    var m :| 0 <= m < k && m < |it| && it[m].left == i && it[m].right == j;
    assert IsRecord(lines, dy, it[m]);
  }

  lemma BeforeTrans(lines: seq<Line>, c: Crossing, d: Crossing, e: Crossing)
    requires c.left < |lines| && d.left < |lines| && e.left < |lines|
    ensures Before(lines, c, d) && Before(lines, d, e) ==> Before(lines, c, e)
    ensures Before(lines, c, d) ==> !Before(lines, d, c)
  {
  }

  lemma RecordIsCross(lines: seq<Line>, dy: real, it: seq<Crossing>, k: nat)
    requires Complete(lines, dy, it) && k < |it|
    ensures Inverted(lines, it[k].left, it[k].right) && IsCross(lines, it[k].left, it[k].right)
    ensures it[k] == Cross(lines, dy, it[k].left, it[k].right)
  {
    assert IsRecord(lines, dy, it[k]);
  }

  /** Three lines that all cross each other.  When the outer crossing's turn comes,
      exactly one of the others has been taken. */
  lemma OuterTurn(lines: seq<Line>, dy: real, it: seq<Crossing>, k: nat, a: nat, b: nat, c: nat)
    requires Beam(lines, dy) && Complete(lines, dy, it) && k < |it|
    requires Inverted(lines, a, b) && Inverted(lines, b, c)
    ensures it[k].left == a && it[k].right == c ==> (Taken(it, k, a, b) <==> !Taken(it, k, b, c))
  {
    hide Beam, Before, Taken, Complete, Cross;
    RecordIsCross(lines, dy, it, k);
    CrossingsOfThree(lines, dy, a, b, c);
    TakenIffBefore(lines, dy, it, k, a, b);
    TakenIffBefore(lines, dy, it, k, b, c);
    BeforeTrans(lines, Cross(lines, dy, a, b), it[k], it[k]);
    BeforeTrans(lines, Cross(lines, dy, b, c), it[k], it[k]);
  }

  /** When an inner crossing's turn comes after the other one, the outer is taken. */
  lemma InnerTurn(lines: seq<Line>, dy: real, it: seq<Crossing>, k: nat, a: nat, b: nat, c: nat)
    requires Beam(lines, dy) && Complete(lines, dy, it) && k < |it|
    requires Inverted(lines, a, b) && Inverted(lines, b, c)
    ensures it[k].left == b && it[k].right == c && Taken(it, k, a, b) ==> Taken(it, k, a, c)
    ensures it[k].left == a && it[k].right == b && Taken(it, k, b, c) ==> Taken(it, k, a, c)
  {
    hide Beam, Before, Taken, Complete, Cross;
    RecordIsCross(lines, dy, it, k);
    CrossingsOfThree(lines, dy, a, b, c);
    TakenIffBefore(lines, dy, it, k, a, b);
    TakenIffBefore(lines, dy, it, k, a, c);
    TakenIffBefore(lines, dy, it, k, b, c);
    var ab, ac, bc := Cross(lines, dy, a, b), Cross(lines, dy, a, c), Cross(lines, dy, b, c);
    BeforeTrans(lines, ab, ac, bc);
    BeforeTrans(lines, bc, ac, ab);
    BeforeTrans(lines, ab, bc, ab);
    BeforeTrans(lines, ab, ac, ab);
    BeforeTrans(lines, bc, ac, bc);
  }

  /** When its turn comes, no line stands between the two lines of a crossing. */
  lemma NoneBetween(lines: seq<Line>, dy: real, it: seq<Crossing>, k: nat, m: nat)
    requires Beam(lines, dy) && Complete(lines, dy, it) && k < |it| && m < |lines|
    ensures !(InOrder(it, k, it[k].left, m) && InOrder(it, k, m, it[k].right))
  {
    hide Beam, Cross, Before, Taken, Complete;
    var i, j := it[k].left, it[k].right;
    RecordIsCross(lines, dy, it, k);
    if InOrder(it, k, i, m) && InOrder(it, k, m, j) {
      if m < i {
        TakenIsInverted(lines, dy, it, k, m, i);
        InnerTurn(lines, dy, it, k, m, i, j);
      } else if j < m {
        TakenIsInverted(lines, dy, it, k, j, m);
        InnerTurn(lines, dy, it, k, i, j, m);
      } else if Inverted(lines, i, m) && Inverted(lines, m, j) {
        OuterTurn(lines, dy, it, k, i, m, j);
      } else if Inverted(lines, i, m) {
        CrossesNearerFirst(lines, dy, i, m, j);
        TakenIffBefore(lines, dy, it, k, i, m);
      } else {
        CrossedByNearerFirst(lines, dy, i, m, j);
        TakenIffBefore(lines, dy, it, k, m, j);
      }
    }
  }

  lemma Distinct(n: nat, it: seq<Crossing>, k: nat, cur: seq<nat>, p: nat, q: nat)
    requires Arranged(n, it, k, cur) && p < n && q < n && p != q
    ensures cur[p] != cur[q]
  {
    assert InOrder(it, k, cur[if p < q then p else q], cur[if p < q then q else p]);
  }

  /** Every crossing, when its turn comes, is between two neighbours. */
  lemma Adjacent(lines: seq<Line>, dy: real, it: seq<Crossing>, k: nat, cur: seq<nat>, p: nat)
    requires Beam(lines, dy) && Complete(lines, dy, it) && k < |it|
    requires Arranged(|lines|, it, k, cur) && p < |cur| && cur[p] == it[k].left
    ensures p + 1 < |cur| && cur[p + 1] == it[k].right
  {
    hide Beam, Cross, Before, Complete;
    var i, j := it[k].left, it[k].right;
    RecordIsCross(lines, dy, it, k);
    assert j in cur;
    var q :| 0 <= q < |cur| && cur[q] == j;
    assert !Taken(it, k, i, j) by {
      TakenIffBefore(lines, dy, it, k, i, j);
      BeforeTrans(lines, it[k], it[k], it[k]);
    }
    assert q < p ==> InOrder(it, k, cur[q], cur[p]);
    assert p < q;
    assert InOrder(it, k, cur[p], cur[p + 1]);
    assert p + 1 < q ==> InOrder(it, k, cur[p + 1], cur[q]);
    NoneBetween(lines, dy, it, k, cur[p + 1]);
  }

  /** Exchanges neighbours `p` and `p + 1`. */
  function Swap<T>(s: seq<T>, p: nat): (t: seq<T>)
    requires p + 1 < |s|
    ensures |t| == |s|
  {
    s[..p] + [s[p + 1]] + [s[p]] + s[p + 2..]
  }

  lemma TakenNext(it: seq<Crossing>, k: nat)
    requires k < |it|
    ensures forall a, b :: Taken(it, k + 1, a, b) <==> Taken(it, k, a, b) || (a == it[k].left && b == it[k].right)
  {
    forall a: nat, b: nat
      ensures Taken(it, k + 1, a, b) <==> Taken(it, k, a, b) || (a == it[k].left && b == it[k].right)
    {
      if Taken(it, k + 1, a, b) && !(a == it[k].left && b == it[k].right) {
        var m :| 0 <= m < k + 1 && m < |it| && it[m].left == a && it[m].right == b;
        assert m < k;
      }
    }
  }

  /** The exchange leaves the order that the next crossing finds. */
  lemma SwapArranges(lines: seq<Line>, dy: real, it: seq<Crossing>, k: nat, cur: seq<nat>, p: nat)
    requires Complete(lines, dy, it) && k < |it| && Arranged(|lines|, it, k, cur)
    requires p + 1 < |cur| && cur[p] == it[k].left && cur[p + 1] == it[k].right
    ensures Arranged(|lines|, it, k + 1, Swap(cur, p))
  {
    hide Complete, Taken;
    var n := |lines|;
    var cur' := Swap(cur, p);
    RecordIsCross(lines, dy, it, k);
    TakenNext(it, k);
    forall x, y | 0 <= x < y < n
      ensures InOrder(it, k + 1, cur'[x], cur'[y])
    {
      SwapKeepsOrder(n, it, k, cur, p, x, y);
    }
    forall i | 0 <= i < n
      ensures i in cur'
    {
      assert i in cur;
      var x :| 0 <= x < n && cur[x] == i;
      assert cur'[if x == p then p + 1 else if x == p + 1 then p else x] == i;
    }
    forall x | 0 <= x < n
      ensures cur'[x] < n
    {
      assert cur'[x] == cur[if x == p then p + 1 else if x == p + 1 then p else x];
    }
  }

  lemma SwapKeepsOrder(n: nat, it: seq<Crossing>, k: nat, cur: seq<nat>, p: nat, x: nat, y: nat)
    requires k < |it| && Arranged(n, it, k, cur) && x < y < n
    requires p + 1 < n && cur[p] == it[k].left && cur[p + 1] == it[k].right && it[k].left < it[k].right
    requires forall a, b :: Taken(it, k + 1, a, b) <==> Taken(it, k, a, b) || (a == it[k].left && b == it[k].right)
    ensures InOrder(it, k + 1, Swap(cur, p)[x], Swap(cur, p)[y])
  {
    hide Taken;
    var x0 := if x == p then p + 1 else if x == p + 1 then p else x;
    var y0 := if y == p then p + 1 else if y == p + 1 then p else y;
    assert Swap(cur, p)[x] == cur[x0] && Swap(cur, p)[y] == cur[y0];
    if x != p || y != p + 1 {
      assert InOrder(it, k, cur[x0], cur[y0]);
      if x0 != p { Distinct(n, it, k, cur, x0, p); }
      if y0 != p + 1 { Distinct(n, it, k, cur, y0, p + 1); }
    } else {
      assert Taken(it, k + 1, it[k].left, it[k].right);
    }
  }

  /** At first the lines stand in their original order. */
  lemma ArrangedAtFirst(n: nat, it: seq<Crossing>, cur: seq<nat>)
    requires |cur| == n && forall p :: 0 <= p < n ==> cur[p] == p
    ensures Arranged(n, it, 0, cur)
  {
    forall i | 0 <= i < n
      ensures i in cur
    {
      assert cur[i] == i;
    }
  }

  lemma AllTaken(lines: seq<Line>, dy: real, it: seq<Crossing>, i: nat, j: nat)
    requires Complete(lines, dy, it)
    ensures Taken(it, |it|, i, j) <==> Inverted(lines, i, j)
  {
    if Taken(it, |it|, i, j) {
      TakenIsInverted(lines, dy, it, |it|, i, j);
    } else {
      assert Inverted(lines, i, j) ==> Handled(i, j, |lines|, []);
      assert !HasPair(it, i, j);
    }
  }

  /** After the last crossing the lines stand in order at the top. */
  lemma OrderedAtTop(lines: seq<Line>, dy: real, it: seq<Crossing>, cur: seq<nat>)
    requires Complete(lines, dy, it) && Arranged(|lines|, it, |it|, cur)
    ensures forall p, q :: 0 <= p < q < |cur| ==> lines[cur[p]].xt <= lines[cur[q]].xt
  {
    forall p, q | 0 <= p < q < |cur|
      ensures lines[cur[p]].xt <= lines[cur[q]].xt
    {
      assert InOrder(it, |it|, cur[p], cur[q]);
      AllTaken(lines, dy, it, cur[p], cur[q]);
      AllTaken(lines, dy, it, cur[q], cur[p]);
    }
  }

  /** The order of the lines after the first k records, which exchange their two lines one after
      the other. */
  function Order(n: nat, it: seq<Crossing>, k: nat): (o: seq<nat>)
    requires k <= |it|
    ensures |o| == n
  {
    if k == 0 then seq(n, i requires 0 <= i < n => i)
    else Exchanged(Order(n, it, k - 1), it[k - 1].left, it[k - 1].right)
  }

  function Exchanged(o: seq<nat>, i: nat, j: nat): (r: seq<nat>)
    ensures |r| == |o|
    ensures forall q :: 0 <= q < |o| ==> r[q] == if o[q] == i then j else if o[q] == j then i else o[q]
  {
    seq(|o|, q requires 0 <= q < |o| => if o[q] == i then j else if o[q] == j then i else o[q])
  }

  /** Exchanging the two neighbours exchanges the two lines. */
  lemma SwapExchanges(n: nat, it: seq<Crossing>, k: nat, cur: seq<nat>, x: nat)
    requires k < |it| && Arranged(n, it, k, cur) && x + 1 < n
    requires cur[x] == it[k].left && cur[x + 1] == it[k].right
    ensures Swap(cur, x) == Exchanged(cur, it[k].left, it[k].right)
  {
    hide Arranged;
    ArrangedSize(n, it, k, cur);
    forall q | 0 <= q < n
      ensures Swap(cur, x)[q] == Exchanged(cur, it[k].left, it[k].right)[q]
    {
      if q != x {
        Distinct(n, it, k, cur, q, x);
      }
      if q != x + 1 {
        Distinct(n, it, k, cur, q, x + 1);
      }
    }
  }

  lemma ArrangedSize(n: nat, it: seq<Crossing>, k: nat, cur: seq<nat>)
    requires Arranged(n, it, k, cur)
    ensures |cur| == n
  {
  }
}
