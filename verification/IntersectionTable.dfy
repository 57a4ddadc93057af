/**
 `build_intersection_table` with `add_st_edge` and `add_intersection`, and what the
 order of the table is good for: taken in table order, every crossing exchanges two
 neighbours of the active edge table, and the last one leaves it ordered at the top.
 */
module IntersectionTable {
  import opened Crossings

  ghost predicate HasPair(it: seq<Crossing>, i: nat, j: nat) {
    exists m :: 0 <= m < |it| && it[m].left == i && it[m].right == j
  }

  /** The crossings met while lines 0 to j-1, and the part `met` of line j, are handled. */
  predicate Handled(i: nat, r: nat, j: nat, met: seq<nat>) {
    r < j || (r == j && i in met)
  }

  /** `it` holds exactly one record for each inverted pair handled so far, in table order. */
  ghost predicate Table(lines: seq<Line>, dy: real, it: seq<Crossing>, j: nat, met: seq<nat>) {
    && (forall m :: 0 <= m < |it| ==> IsRecord(lines, dy, it[m]) && Handled(it[m].left, it[m].right, j, met))
    && (forall m, n :: 0 <= m < n < |it| ==> Before(lines, it[m], it[n]))
    && (forall i, r :: Inverted(lines, i, r) && Handled(i, r, j, met) ==> HasPair(it, i, r))
  }

  /** The table of a whole scanbeam. */
  ghost predicate Complete(lines: seq<Line>, dy: real, it: seq<Crossing>) {
    Table(lines, dy, it, |lines|, [])
  }

  /** Inserts a record before the first one that is higher. */
  method AddIntersection(it: seq<Crossing>, c: Crossing) returns (it': seq<Crossing>, ghost at: nat)
    ensures at <= |it| && it' == it[..at] + [c] + it[at..]
    ensures (forall m :: 0 <= m < at ==> it[m].point.y <= c.point.y) && (at < |it| ==> it[at].point.y > c.point.y)
    ensures multiset(it') == multiset(it) + multiset{c}
  {
    var k := 0;
    while k < |it| && !(it[k].point.y > c.point.y)
      invariant 0 <= k <= |it|
      invariant forall m :: 0 <= m < k ==> it[m].point.y <= c.point.y
    {
      k := k + 1;
    }
    it' := it[..k] + [c] + it[k..];
    assert it == it[..k] + it[k..];
    at := k;
  }

  /** The sorted edge table, from its head: lines 0 to j-1, descending at the top. */
  ghost predicate Sorted(lines: seq<Line>, st: seq<nat>, j: nat) {
    && j <= |lines|
    && (forall k :: 0 <= k < |st| ==> st[k] < j)
    && (forall i :: 0 <= i < j ==> i in st)
    && (forall k, l :: 0 <= k < l < |st| ==> Ahead(lines, st[k], st[l]))
  }

  /** Inserting a record in its place keeps the table in order. */
  lemma InsertKeepsOrder(lines: seq<Line>, it: seq<Crossing>, it': seq<Crossing>, k: nat, c: Crossing)
    requires k <= |it| && it' == it[..k] + [c] + it[k..] && c.left < |lines|
    requires forall m :: 0 <= m < |it| ==> it[m].left < |lines|
    requires forall m, n :: 0 <= m < n < |it| ==> Before(lines, it[m], it[n])
    requires forall m :: 0 <= m < k ==> Before(lines, it[m], c)
    requires k < |it| ==> it[k].point.y > c.point.y
    ensures forall m :: 0 <= m < |it'| ==> it'[m].left < |lines|
    ensures forall m, n :: 0 <= m < n < |it'| ==> Before(lines, it'[m], it'[n])
  {
    forall m | k <= m < |it|
      ensures Before(lines, c, it[m])
    {
      assert m == k || Before(lines, it[k], it[m]);
    }
    forall m, n | 0 <= m < n < |it'|
      ensures Before(lines, it'[m], it'[n])
    {
      assert it'[m] == if m < k then it[m] else if m == k then c else it[m - 1];
      assert it'[n] == if n < k then it[n] else if n == k then c else it[n - 1];
    }
  }

  lemma InsertKeepsPairs(it: seq<Crossing>, it': seq<Crossing>, k: nat, c: Crossing)
    requires k <= |it| && it' == it[..k] + [c] + it[k..]
    ensures HasPair(it', c.left, c.right)
    ensures forall l, r :: HasPair(it, l, r) ==> HasPair(it', l, r)
  {
    assert it'[k] == c;
    forall l, r | HasPair(it, l, r)
      ensures HasPair(it', l, r)
    {
      var m :| 0 <= m < |it| && it[m].left == l && it[m].right == r;
      assert it'[if m < k then m else m + 1] == it[m];
    }
  }

  /** The crossing of line `j` with the next line of the sorted edge table fits in. */
  lemma InsertKeepsTable(lines: seq<Line>, dy: real, it: seq<Crossing>, it': seq<Crossing>, k: nat,
                         j: nat, met: seq<nat>, i: nat)
    requires Beam(lines, dy) && Inverted(lines, i, j) && IsCross(lines, i, j)
    requires Table(lines, dy, it, j, met) && k <= |it|
    requires it' == it[..k] + [Cross(lines, dy, i, j)] + it[k..]
    requires forall m :: 0 <= m < k ==> it[m].point.y <= Cross(lines, dy, i, j).point.y
    requires k < |it| ==> it[k].point.y > Cross(lines, dy, i, j).point.y
    requires forall l :: 0 <= l < |met| ==> met[l] < |lines| && Ahead(lines, met[l], i)
    ensures Table(lines, dy, it', j, met + [i])
  {
    hide Ratio, Cross, HasPair;
    var c := Cross(lines, dy, i, j);
    assert c.left == i && c.right == j by { SameOrder(lines, dy, i, j, i, j); }
    forall m | 0 <= m < k
      ensures Before(lines, it[m], c)
    {
      assert Handled(it[m].left, it[m].right, j, met);
    }
    InsertKeepsOrder(lines, it, it', k, c);
    InsertKeepsPairs(it, it', k, c);
    assert IsRecord(lines, dy, c);
    forall m | 0 <= m < |it'|
      ensures IsRecord(lines, dy, it'[m]) && Handled(it'[m].left, it'[m].right, j, met + [i])
    {
      assert it'[m] == if m < k then it[m] else if m == k then c else it[m - 1];
    }
  }

  /** Puts line `j` into the sorted edge table, recording a crossing with every line
      that it passes on the way. */
  method AddStEdge(lines: seq<Line>, dy: real, st: seq<nat>, it: seq<Crossing>, j: nat)
    returns (st': seq<nat>, it': seq<Crossing>)
    requires Beam(lines, dy) && j < |lines|
    requires Sorted(lines, st, j) && Table(lines, dy, it, j, [])
    ensures Sorted(lines, st', j + 1) && Table(lines, dy, it', j + 1, [])
  {
    hide Before, IsRecord, Beam, Cross, Ratio, HasPair, Table;
    it' := it;
    assert st[..0] == [];
    var k := 0;
    while k < |st|
      && !(lines[j].xt >= lines[st[k]].xt || lines[j].dx == lines[st[k]].dx
        || Rise(lines[st[k]]) - Rise(lines[j]) == 0.0)
      invariant 0 <= k <= |st|
      invariant forall l :: 0 <= l < k ==> Inverted(lines, st[l], j)
      invariant Table(lines, dy, it', j, st[..k])
    {
      var before := it';
      ghost var p;
      it', p := AddIntersection(it', Cross(lines, dy, st[k], j));
      InsertKeepsTable(lines, dy, before, it', p, j, st[..k], st[k]);
      assert st[..k + 1] == st[..k] + [st[k]];
      k := k + 1;
    }
    st' := st[..k] + [j] + st[k..];
    LineDone(lines, dy, st, it', j, k);
  }

  /** The walk stops at the first line that is not crossed, and crosses none beyond. */
  lemma StopsRightly(lines: seq<Line>, dy: real, st: seq<nat>, j: nat, k: nat)
    requires Beam(lines, dy) && j < |lines| && Sorted(lines, st, j) && k <= |st|
    requires k < |st| ==>
      (lines[j].xt >= lines[st[k]].xt || lines[j].dx == lines[st[k]].dx || Rise(lines[st[k]]) - Rise(lines[j]) == 0.0)
    ensures k < |st| ==> lines[j].xt >= lines[st[k]].xt
    ensures forall i :: Inverted(lines, i, j) ==> i in st[..k]
  {
    if k < |st| && Inverted(lines, st[k], j) {
      InvertedCross(lines, dy, st[k], j);
    }
    forall i | Inverted(lines, i, j)
      ensures i in st[..k]
    {
      assert i in st;
      var l :| 0 <= l < |st| && st[l] == i;
      assert l < k;
    }
  }

  lemma InsertKeepsSorted(lines: seq<Line>, st: seq<nat>, j: nat, k: nat)
    requires j < |lines| && Sorted(lines, st, j) && k <= |st|
    requires forall l :: 0 <= l < k ==> lines[st[l]].xt > lines[j].xt
    requires k < |st| ==> lines[j].xt >= lines[st[k]].xt
    ensures Sorted(lines, st[..k] + [j] + st[k..], j + 1)
  {
    var st' := st[..k] + [j] + st[k..];
    assert forall l :: 0 <= l < |st'| ==> st'[l] == if l < k then st[l] else if l == k then j else st[l - 1];
    forall l | k <= l < |st|
      ensures Ahead(lines, j, st[l])
    {
      assert l == k || Ahead(lines, st[k], st[l]);
    }
    forall i | 0 <= i < j + 1
      ensures i in st'
    {
      AmongInserted(st, j, k, i);
    }
  }

  lemma AmongInserted(st: seq<nat>, j: nat, k: nat, i: nat)
    requires k <= |st| && (i in st || i == j)
    ensures i in st[..k] + [j] + st[k..]
  {
    assert st == st[..k] + st[k..];
  }

  lemma LineDone(lines: seq<Line>, dy: real, st: seq<nat>, it: seq<Crossing>, j: nat, k: nat)
    requires Beam(lines, dy) && j < |lines| && Sorted(lines, st, j) && k <= |st|
    requires forall l :: 0 <= l < k ==> Inverted(lines, st[l], j)
    requires k < |st| ==>
      (lines[j].xt >= lines[st[k]].xt || lines[j].dx == lines[st[k]].dx || Rise(lines[st[k]]) - Rise(lines[j]) == 0.0)
    requires Table(lines, dy, it, j, st[..k])
    ensures Sorted(lines, st[..k] + [j] + st[k..], j + 1) && Table(lines, dy, it, j + 1, [])
  {
    StopsRightly(lines, dy, st, j, k);
    InsertKeepsSorted(lines, st, j, k);
  }

  /** Builds the table: exactly one record for each inverted pair, with its point, in
      ascending order. */
  method BuildIntersectionTable(lines: seq<Line>, dy: real) returns (it: seq<Crossing>)
    requires Beam(lines, dy)
    ensures Complete(lines, dy, it)
  {
    it := [];
    var st := [];
    for j := 0 to |lines|
      invariant Sorted(lines, st, j) && Table(lines, dy, it, j, [])
    {
      st, it := AddStEdge(lines, dy, st, it, j);
    }
  }
}
