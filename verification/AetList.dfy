/**
 The active edge table as the program keeps it: a doubly linked list of edge nodes.  The
 pointer surgery of insertion, deletion, replacement and of the bundle swap does to the list
 what the value-level operations do to the row.
 */
module AetList {
  import opened Base
  import opened Edges
  import opened Bundles
  import opened EdgeTable
  import opened ActiveTable
  import opened Interior
  import opened SweepState

  class EdgeNode {
    var edge: Edge
    var prev: EdgeNode?
    var next: EdgeNode?

    constructor (edge: Edge)
      ensures this.edge == edge
    {
      this.edge := edge;
    }
  }

  /** Node i is linked to its neighbours. */
  ghost predicate LinkedAt(row: seq<EdgeNode>, i: nat)
    requires i < |row|
    reads row`prev, row`next
  {
    && row[i].prev == (if i == 0 then null else row[i - 1])
    && row[i].next == (if i + 1 == |row| then null else row[i + 1])
  }

  ghost predicate Distinct(row: seq<EdgeNode>) {
    forall i, j :: 0 <= i < j < |row| ==> row[i] != row[j]
  }

  /** A well-formed doubly linked list. */
  ghost predicate Linked(row: seq<EdgeNode>, head: EdgeNode?)
    reads row`prev, row`next
  {
    && Distinct(row)
    && head == (if row == [] then null else row[0])
    && forall i :: 0 <= i < |row| ==> LinkedAt(row, i)
  }

  /** The nodes hold the edges `s`. */
  ghost predicate Shows(row: seq<EdgeNode>, s: seq<Edge>)
    reads row`edge
  {
    |row| == |s| && forall i :: 0 <= i < |row| ==> row[i].edge == s[i]
  }

  class Aet {
    /** `aet` */
    var head: EdgeNode?
    /** The nodes from left to right. */
    ghost var row: seq<EdgeNode>

    constructor ()
      ensures Valid() && row == []
    {
      head, row := null, [];
    }

    ghost predicate Valid()
      reads this, row
    {
      Linked(row, head)
    }

    /** Links a node in between `prev` and `cur`, the neighbours at place k. */
    method Insert(node: EdgeNode, prev: EdgeNode?, cur: EdgeNode?, ghost k: nat)
      requires Valid() && node !in row && k <= |row|
      requires prev == (if k == 0 then null else row[k - 1]) && cur == if k == |row| then null else row[k]
      modifies this, row`prev, row`next, node`prev, node`next
      ensures Valid() && row == old(row)[..k] + [node] + old(row)[k..]
    {
      ghost var was := row;
      if cur != null {
        cur.prev := node;
      }
      if prev == null {
        head := node;
      } else {
        prev.next := node;
      }
      node.prev := prev;
      node.next := cur;
      row := row[..k] + [node] + row[k..];
      Inserted(was, row, node, k);
      forall i | 0 <= i < |row|
        ensures LinkedAt(row, i)
      {
        assert i < k ==> old(LinkedAt(row, i));
        assert i > k ==> old(LinkedAt(row, i - 1));
      }
    }

    /** `add_edge_to_aet`, from place k on; `prev` is the node before it. */
    method AddEdge(node: EdgeNode, prev: EdgeNode?, ghost k: nat, ghost s: seq<Edge>) returns (ghost at: nat)
      requires Valid() && node !in row && k <= |row| && prev == (if k == 0 then null else row[k - 1])
      requires Shows(row, s)
      modifies this, row`prev, row`next, node`prev, node`next
      ensures Valid() && k <= at <= |s| && row == old(row)[..at] + [node] + old(row)[at..]
      ensures Shows(row, s[..at] + [node.edge] + s[at..])
      ensures NoneRightOf(s[k..at], node.edge) && (at < |s| ==> !NotRightOf(s[at], node.edge))
      ensures LeftToRight(s) && NoneRightOf(s[..k], node.edge) ==> LeftToRight(s[..at] + [node.edge] + s[at..])
      decreases |row| - k
    {
      assert k > 0 ==> LinkedAt(row, k - 1);
      assert |row| == |s| && (k < |s| ==> row[k].edge == s[k]);
      ShowsInserted(row, s, node, k);
      hide Shows, LeftToRight, NoneRightOf, NotRightOf, Precedes;
      var cur := if prev == null then head else prev.next;
      if cur != null && !Precedes(node.edge, cur.edge) {
        at := AddEdge(node, cur, k + 1, s);
        NoneRightOfNext(s, node.edge, k, at);
      } else {
        at := k;
        Insert(node, prev, cur, k);
        AddedInOrder(s, node.edge, k);
      }
    }

    /** Takes the node at place k out of the list. */
    method Delete(node: EdgeNode, ghost k: nat)
      requires Valid() && k < |row| && row[k] == node
      modifies this, row`prev, row`next
      ensures Valid() && row == old(row)[..k] + old(row)[k + 1..]
      ensures node.prev == old(node.prev) && node.next == old(node.next)
    {
      ghost var was := row;
      assert LinkedAt(row, k);
      var prev, next := node.prev, node.next;
      if prev != null {
        prev.next := next;
      } else {
        head := next;
      }
      if next != null {
        next.prev := prev;
      }
      row := row[..k] + row[k + 1..];
      Deleted(was, row, k);
      forall i | 0 <= i < |row|
        ensures LinkedAt(row, i)
      {
        assert i < k ==> old(LinkedAt(row, i));
        assert i >= k ==> old(LinkedAt(row, i + 1));
      }
    }

    /** Replaces the node at place k by its successor. */
    method Replace(node: EdgeNode, succ: EdgeNode, ghost k: nat)
      requires Valid() && k < |row| && row[k] == node && succ !in row
      modifies this, row`prev, row`next, succ`prev, succ`next
      ensures Valid() && row == old(row)[k := succ]
    {
      ghost var was := row;
      assert LinkedAt(row, k);
      var prev, next := node.prev, node.next;
      if prev != null {
        prev.next := succ;
      } else {
        head := succ;
      }
      if next != null {
        next.prev := succ;
      }
      succ.prev := prev;
      succ.next := next;
      row := row[k := succ];
      forall i | 0 <= i < |row|
        ensures LinkedAt(row, i)
      {
        assert old(LinkedAt(row, i));
      }
    }

    /** The deletion of the edges that end at `yb`: a walk along the list. */
    method DeleteTerminating(yb: real, yt: real, ghost s: seq<Edge>)
      requires Valid() && Shows(row, s)
      modifies this, row
      ensures Valid() && Shows(row, Retained(yb, yt, s))
      ensures forall x :: x in row ==> x in old(row)
    {
      hide Linked, Retain;
      ghost var was, left, k := row, [], 0;
      var edge := head;
      FirstIs(row, head);
      while edge != null
        invariant k <= |was| && Valid() && row == left + was[k..]
        invariant edge == if k == |was| then null else was[k]
        invariant forall x :: x in left ==> x in was
        invariant forall x :: x in row ==> x in was
        invariant Shows(left, Retained(yb, yt, s[..k])) && Shows(was[k..], s[k..])
        decreases |was| - k
      {
        NeighboursAre(row, head, |left|);
        assert forall i :: 0 <= i < |row| ==> row[i] in old(row);
        left := RetainNode(edge, yb, yt, left, was[k..], Retained(yb, yt, s[..k]), s[k..]);
        RetainedMore(yb, yt, s, k);
        k := k + 1;
        edge := edge.next;
      }
      assert s[..k] == s;
    }

    /** Deletes a node, or sets its place at `yt`. */
    method RetainNode(node: EdgeNode, yb: real, yt: real, ghost left: seq<EdgeNode>, ghost rest: seq<EdgeNode>,
                      ghost kept: seq<Edge>, ghost s: seq<Edge>)
      returns (ghost left': seq<EdgeNode>)
      requires Valid() && rest != [] && row == left + rest && rest[0] == node
      requires Shows(left, kept) && Shows(rest, s)
      modifies this, row
      ensures Valid() && row == left' + rest[1..]
      ensures Shows(left', Retain(yb, yt, kept, s[0])) && Shows(rest[1..], s[1..])
      ensures left' == left || left' == left + [node]
      ensures node.next == old(node.next)
    {
      Parts(row, head, left, rest);
      hide Linked, HandDown, Shows;
      assert node.edge == s[0] by { FirstShown(rest, s); }
      if node.edge.TopY() == yb {
        DropNode(node, left, rest, kept, s);
        left' := left;
      } else {
        KeepNode(node, yt, left, rest, kept, s);
        left' := left + [node];
        Shifted(left, rest);
      }
    }

    method KeepNode(node: EdgeNode, yt: real, ghost left: seq<EdgeNode>, ghost rest: seq<EdgeNode>,
                    ghost kept: seq<Edge>, ghost s: seq<Edge>)
      requires Valid() && rest != [] && row == left + rest && rest[0] == node
      requires Shows(left, kept) && Shows(rest, s)
      modifies node`edge
      ensures Shows(left + [node], kept + [s[0].(xt := TopX(yt, s[0]))]) && Shows(rest[1..], s[1..])
    {
      Parts(row, head, left, rest);
      FirstShown(rest, s);
      hide Linked, Shows, TopX;
      node.edge := node.edge.(xt := TopX(yt, node.edge));
      OneShown(node);
      ShowsConcat(left, [node], kept, [node.edge]);
    }

    method DropNode(node: EdgeNode, ghost left: seq<EdgeNode>, ghost rest: seq<EdgeNode>, ghost kept: seq<Edge>,
                    ghost s: seq<Edge>)
      requires Valid() && rest != [] && row == left + rest && rest[0] == node
      requires Shows(left, kept) && Shows(rest, s)
      modifies this, row
      ensures Valid() && row == left + rest[1..] && node.next == old(node.next)
      ensures Shows(left, if s[0].stateBelow == BundleHead && kept != [] then HandDown(kept, s[0]) else kept)
      ensures Shows(rest[1..], s[1..])
    {
      Parts(row, head, left, rest);
      FirstShown(rest, s);
      assert |left| == |kept|;
      if left != [] {
        LastApart(row, left, rest);
      }
      hide Linked, HandDown, Shows;
      var prev := node.prev;
      Delete(node, |left|);
      WithoutFirst(left, rest);
      if node.edge.stateBelow == BundleHead && prev != null {
        HandDownTo(prev, node.edge, left, rest[1..], kept);
      }
    }

    /** A deleted bundle head hands its lower pointer to the node before it, if that is a tail. */
    method HandDownTo(prev: EdgeNode, h: Edge, ghost left: seq<EdgeNode>, ghost rest: seq<EdgeNode>,
                      ghost kept: seq<Edge>)
      requires Valid() && row == left + rest && left != [] && left[|left| - 1] == prev && Shows(left, kept)
      modifies prev`edge
      ensures Shows(left, HandDown(kept, h))
    {
      NeighboursAre(row, head, |left| - 1);
      LastOnce(row, head, left, rest);
      if prev.edge.stateBelow == BundleTail {
        var state := Unbundled;
        if prev.prev != null {
          if prev.prev.edge.stateBelow == BundleTail {
            state := BundleHead;
          }
        }
        prev.edge := prev.edge.(outBelow := h.outBelow, stateBelow := state);
      }
    }

    /** The way up to the next boundary.  An edge that ends there and has a successor gives its
        place to the successor's node; every other edge is moved up. */
    method PrepareNext(op: Op, t: Table, yt: real, nodes: seq<EdgeNode>, ghost s: seq<Edge>)
      requires Valid() && PartlyMoved(op, t, yt, nodes, row, s, 0)
      requires |nodes| == |t| && Distinct(nodes) && OwnPlaces(op, t, yt, s)
      modifies this, row, nodes
      ensures Valid() && PartlyMoved(op, t, yt, nodes, row, s, |s|)
    {
      hide Linked, Distinct, PartlyMoved, OwnPlaces;
      ghost var k := 0;
      var edge := head;
      FirstIs(row, head);
      SameLength(op, t, yt, nodes, row, s, k);
      while edge != null
        invariant k <= |row| == |s| && Valid() && edge == if k == |row| then null else row[k]
        invariant PartlyMoved(op, t, yt, nodes, row, s, k)
        invariant forall i :: 0 <= i < |row| ==> row[i] in old(row) || row[i] in nodes
        decreases |row| - k
      {
        NeighboursAre(row, head, k);
        var next := edge.next;
        MoveUp(op, t, yt, edge, nodes, s, k);
        k := k + 1;
        edge := next;
      }
    }

    method MoveUp(op: Op, t: Table, yt: real, edge: EdgeNode, nodes: seq<EdgeNode>, ghost s: seq<Edge>, ghost k: nat)
      requires Valid() && PartlyMoved(op, t, yt, nodes, row, s, k) && k < |s| && row[k] == edge
      requires |nodes| == |t| && Distinct(nodes) && OwnPlaces(op, t, yt, s)
      modifies this, row, nodes
      ensures Valid() && PartlyMoved(op, t, yt, nodes, row, s, k + 1)
      ensures |row| == |old(row)| && forall i :: 0 <= i < |row| ==> row[i] in old(row) || row[i] in nodes
      ensures k + 1 < |row| ==> row[k + 1] == old(row)[k + 1]
    {
      hide Linked, Distinct, NextEdge, OwnPlaces;
      var e := edge.edge;
      Apart(op, t, yt, nodes, row, head, s, k);
      if e.TopY() == yt && e.info.succ.Some? && e.info.succ.value < |t| {
        var succ := nodes[e.info.succ.value];
        succ.edge := NextEdge(op, t, yt, e);
        Replace(edge, succ, k);
      } else {
        edge.edge := NextEdge(op, t, yt, e);
      }
    }

    /** The node before the bundle that ends with `e0`, at place m: its tails are passed over. */
    method BeforeBundle(e0: EdgeNode, ghost a: nat, ghost m: nat) returns (prev: EdgeNode?)
      requires Valid() && a <= m < |row| && row[m] == e0 && BundleAt(row, a, m)
      ensures prev == if a == 0 then null else row[a - 1]
    {
      prev := e0.prev;
      assert LinkedAt(row, m);
      if e0.edge.stateAbove == BundleHead {
        var search := true;
        ghost var k := m - 1;
        while search
          invariant if search then a <= k < m && prev == row[k] else prev == if a == 0 then null else row[a - 1]
          decreases search, k
        {
          assert LinkedAt(row, k);
          prev := prev.prev;
          if prev != null {
            if prev.edge.stateAbove != BundleTail {
              search := false;
            }
          } else {
            search := false;
          }
          k := k - 1;
        }
      }
    }

    /** Rewires the nodes at the seams between the two bundles, the first of which starts with
        `first`, and their neighbours. */
    method Rewire(e0: EdgeNode, e1: EdgeNode, prev: EdgeNode?, ghost first: EdgeNode, ghost second: EdgeNode,
                  ghost last: EdgeNode?)
      requires e0.next == second && e1.next == last && (if prev == null then head == first else prev.next == first)
      requires e0 != e1 && e0 != prev && e1 != prev && first != second && first != last && second != last
      modifies this`head, e0`next, e1`next, first`prev, second`prev
      modifies (if prev == null then {} else {prev})`next, (if last == null then {} else {last})`prev
      ensures e0.next == last && e1.next == first && (if prev == null then head == second else prev.next == second)
      ensures first.prev == e1 && second.prev == prev && (last != null ==> last.prev == e0)
      ensures prev != null ==> head == old(head)
    {
      var next := e1.next;
      if next != null {
        next.prev := e0;
      }
      if prev == null {
        head.prev := e1;
        e1.next := head;
        head := e0.next;
      } else {
        prev.next.prev := e1;
        e1.next := prev.next;
        prev.next := e0.next;
      }
      e0.next.prev := prev;
      e1.next.prev := e1;
      e0.next := next;
    }

    /** Relinks the nodes from place a to the bundle that ends at place n. */
    method Relink(e0: EdgeNode, e1: EdgeNode, prev: EdgeNode?, ghost a: nat, ghost m: nat, ghost n: nat)
      requires Valid() && a <= m < n < |row| && row[m] == e0 && row[n] == e1
      requires prev == if a == 0 then null else row[a - 1]
      modifies this`head, row`prev, row`next
      ensures head == row[if a == 0 then m + 1 else 0]
      ensures forall i :: 0 <= i < |row| ==>
        row[i].next == AfterSwap(row, a, m, n, i) && row[i].prev == BeforeSwap(row, a, m, n, i)
    {
      hide Distinct;
      assert LinkedAt(row, m) && LinkedAt(row, n) && LinkedAt(row, a);
      assert a > 0 ==> LinkedAt(row, a - 1);
      Seams(row, a, m, n);
      Rewire(e0, e1, prev, row[a], row[m + 1], if n + 1 == |row| then null else row[n + 1]);
      forall i | 0 <= i < |row|
        ensures row[i].next == AfterSwap(row, a, m, n, i) && row[i].prev == BeforeSwap(row, a, m, n, i)
      {
        assert old(LinkedAt(row, i));
        SamePlaces(row, a, m, n, i);
      }
    }

    /** Exchanges the bundles that end with e0, at place m, and with e1, at place n. */
    method SwapBundles(e0: EdgeNode, e1: EdgeNode, ghost a: nat, ghost m: nat, ghost n: nat)
      requires Valid() && a <= m < n < |row| && row[m] == e0 && row[n] == e1
      requires BundleAt(row, a, m) && BundleAt(row, m + 1, n)
      modifies this, row`prev, row`next
      ensures Valid()
      ensures row == old(row)[..a] + old(row)[m + 1..n + 1] + old(row)[a..m + 1] + old(row)[n + 1..]
    {
      hide Origin, AfterSwap, BeforeSwap;
      var prev := BeforeBundle(e0, a, m);
      Relink(e0, e1, prev, a, m, n);
      ghost var was := row;
      row := row[..a] + row[m + 1..n + 1] + row[a..m + 1] + row[n + 1..];
      Swapped(was, row, a, m, n);
      forall i | 0 <= i < |row|
        ensures LinkedAt(row, i)
      {
        OriginNeighbours(was, a, m, n, i);
        assert row[i] == was[Origin(a, m, n, i)];
        assert i > 0 ==> row[i - 1] == was[Origin(a, m, n, i - 1)];
        assert i + 1 < |row| ==> row[i + 1] == was[Origin(a, m, n, i + 1)];
      }
    }

    /** A crossing of the bundles k and k + 1 of a row: their heads e0 and e1 get new sides and
        pointers, then the bundles change places.  They start at place a and end at places m and n. */
    method CrossBundles(e0: EdgeNode, e1: EdgeNode, f0: Edge, f1: Edge, ghost g: seq<seq<Edge>>, ghost k: nat,
                        ghost a: nat, ghost m: nat, ghost n: nat)
      requires Valid() && AreBundles(g) && UnitBundles(g) && k + 1 < |g| && Shows(row, Flatten(g))
      requires SameButPointers(Head(g[k]), f0) && SameButPointers(Head(g[k + 1]), f1)
      requires a == |Flatten(g[..k])| && m + 1 == a + |g[k]| && n == m + |g[k + 1]|
      requires n < |row| && row[m] == e0 && row[n] == e1
      modifies this, row
      ensures Valid() && Shows(row, Flatten(Interior.SwapBundles(g, k, f0, f1)))
    {
      RowCrossed(g, k, f0, f1);
      hide AreBundles, UnitBundles, Flatten, IsBundle, UnitBundle, BundleAt, Linked, Shows, Distinct, WithHead,
        Interior.SwapBundles;
      ghost var l, r, x, y := g[..k], g[k + 2..], g[k], g[k + 1];
      ShowsParts(row, Flatten(l), x, y, Flatten(r), a, m, n);
      SetHeads(e0, e1, f0, f1, a, m, n, Flatten(l), x, y, Flatten(r));
      Blocks(row, l, WithHead(x, f0), WithHead(y, f1), r, a, m, n);
      SwapShown(e0, e1, a, m, n, Flatten(l), WithHead(x, f0), WithHead(y, f1), Flatten(r));
    }

    /** The exchange of two bundles, with the edges that the nodes hold. */
    method SwapShown(e0: EdgeNode, e1: EdgeNode, ghost a: nat, ghost m: nat, ghost n: nat,
                     ghost l: seq<Edge>, ghost x: seq<Edge>, ghost y: seq<Edge>, ghost r: seq<Edge>)
      requires Valid() && a <= m < n < |row| && row[m] == e0 && row[n] == e1
      requires BundleAt(row, a, m) && BundleAt(row, m + 1, n)
      requires Shows(row[..a], l) && Shows(row[a..m + 1], x) && Shows(row[m + 1..n + 1], y) && Shows(row[n + 1..], r)
      modifies this, row`prev, row`next
      ensures Valid() && Shows(row, l + y + x + r)
    {
      hide Shows, BundleAt, Linked;
      ghost var p, q, u, v := row[..a], row[m + 1..n + 1], row[a..m + 1], row[n + 1..];
      ShowsConcat(p, q, l, y);
      ShowsConcat(p + q, u, l + y, x);
      ShowsConcat(p + q + u, v, l + y + x, r);
      SwapBundles(e0, e1, a, m, n);
    }

    method SetHeads(e0: EdgeNode, e1: EdgeNode, f0: Edge, f1: Edge, ghost a: nat, ghost m: nat, ghost n: nat,
                    ghost l: seq<Edge>, ghost x: seq<Edge>, ghost y: seq<Edge>, ghost r: seq<Edge>)
      requires Valid() && a <= m < n < |row| && row[m] == e0 && row[n] == e1 && x != [] && y != []
      requires Shows(row[..a], l) && Shows(row[a..m + 1], x) && Shows(row[m + 1..n + 1], y) && Shows(row[n + 1..], r)
      modifies e0`edge, e1`edge
      ensures Valid()
      ensures Shows(row[..a], l) && Shows(row[a..m + 1], WithHead(x, f0))
      ensures Shows(row[m + 1..n + 1], WithHead(y, f1)) && Shows(row[n + 1..], r)
    {
      hide Shows, Linked, Distinct, WithHead;
      NothingTwice(row, head, a, m, n);
      SetHead(e0, f0, a, m, x);
      SetHead(e1, f1, m + 1, n, y);
    }

    method SetHead(e: EdgeNode, f: Edge, ghost a: nat, ghost m: nat, ghost x: seq<Edge>)
      requires a <= m < |row| && e == row[m] && Distinct(row) && Shows(row[a..m + 1], x)
      modifies e`edge
      ensures Shows(row[a..m + 1], WithHead(x, f))
    {
      e.edge := f;
    }
  }

  /** The first k nodes of a row are those of the next boundary, the others still hold `s`. */
  ghost predicate PartlyMoved(op: Op, t: Table, yt: real, nodes: seq<EdgeNode>, row: seq<EdgeNode>, s: seq<Edge>,
                              k: nat)
    reads row`edge
  {
    |row| == |s| && forall i :: 0 <= i < |s| ==>
      var e := if i < k then NextEdge(op, t, yt, s[i]) else s[i];
      e.id < |nodes| && row[i] == nodes[e.id] && row[i].edge == e
  }

  /** No two edges claim the same node, before or after the move. */
  ghost predicate OwnPlaces(op: Op, t: Table, yt: real, s: seq<Edge>) {
    forall i, j :: 0 <= i < |s| && 0 <= j < |s| ==>
      var n := NextEdge(op, t, yt, s[i]).id;
      && s[i].info.succ != Some(s[i].id)
      && (i != j ==> n != NextEdge(op, t, yt, s[j]).id)
      && (i != j || n != s[i].id ==> n != s[j].id)
  }

  lemma SameLength(op: Op, t: Table, yt: real, nodes: seq<EdgeNode>, row: seq<EdgeNode>, s: seq<Edge>, k: nat)
    requires PartlyMoved(op, t, yt, nodes, row, s, k)
    ensures |row| == |s|
  {
  }

  /** In the sweep, no two edges claim the same node. */
  lemma RowOwnsPlaces(op: Op, t: Table, yt: real, s: seq<Edge>, ids: set<nat>)
    requires Chained(t) && Holds(s, ids) && Informed(t, s)
    requires forall id :: id in ids ==> id < |t| && t[id].seg.bot.y < yt
    ensures OwnPlaces(op, t, yt, s)
  {
    forall i | 0 <= i < |s|
      ensures s[i].id in ids && NextEdge(op, t, yt, s[i]).id == NextId(t, yt, s[i].id)
      ensures s[i].info.succ != Some(s[i].id)
    {
      assert s[i].id == Ids(s)[i] && Ids(s)[i] in multiset(Ids(s));
      assert ChainedAt(t, s[i].id);
    }
    forall i, j | 0 <= i < |s| && 0 <= j < |s| && s[i].id != s[j].id
      ensures NextId(t, yt, s[i].id) != NextId(t, yt, s[j].id) && NextId(t, yt, s[i].id) != s[j].id
    {
      assert ChainedAt(t, s[i].id) && ChainedAt(t, s[j].id);
    }
    forall i, j | 0 <= i < j < |s|
      ensures s[i].id != s[j].id
    {
      HeldOnce(s, ids, i, j);
    }
  }

  lemma HeldOnce(s: seq<Edge>, ids: set<nat>, i: nat, j: nat)
    requires Holds(s, ids) && i < j < |s|
    ensures s[i].id != s[j].id
  {
    var r := Ids(s);
    assert r == r[..j] + [r[j]] + r[j + 1..];
    assert multiset(r)[r[j]] == multiset(r[..j])[r[j]] + 1 + multiset(r[j + 1..])[r[j]];
    assert r[..j][i] == r[i] && multiset(r[..j])[r[i]] >= 1;
    assert multiset(ids)[r[j]] <= 1;
  }

  /** The node that an edge moves to is its own, or not in the row. */
  lemma Apart(op: Op, t: Table, yt: real, nodes: seq<EdgeNode>, row: seq<EdgeNode>, head: EdgeNode?, s: seq<Edge>,
              k: nat)
    requires Linked(row, head) && PartlyMoved(op, t, yt, nodes, row, s, k) && k < |s|
    requires |nodes| == |t| && Distinct(nodes) && OwnPlaces(op, t, yt, s)
    ensures var n := NextEdge(op, t, yt, s[k]).id;
            && n < |nodes| && row[k].edge == s[k] && row[k] == nodes[s[k].id]
            && n == (if s[k].TopY() == yt && s[k].info.succ.Some? && s[k].info.succ.value < |t|
                     then s[k].info.succ.value else s[k].id)
            && (forall i :: 0 <= i < |row| && i != k ==> row[i] != nodes[n] && row[i] != row[k])
            && (n != s[k].id ==> nodes[n] !in row)
            && s[k].info.succ != Some(s[k].id)
  {
  }

  lemma ShowsInserted(row: seq<EdgeNode>, s: seq<Edge>, node: EdgeNode, k: nat)
    requires Shows(row, s) && k <= |row|
    ensures Shows(row[..k] + [node] + row[k..], s[..k] + [node.edge] + s[k..])
  {
  }

  lemma OneShown(node: EdgeNode)
    ensures Shows([node], [node.edge])
  {
  }

  lemma FirstShown(row: seq<EdgeNode>, s: seq<Edge>)
    requires Shows(row, s) && row != []
    ensures s != [] && row[0].edge == s[0] && Shows(row[1..], s[1..])
  {
  }

  lemma FirstIs(row: seq<EdgeNode>, head: EdgeNode?)
    requires Linked(row, head)
    ensures head == if row == [] then null else row[0]
  {
  }

  lemma NeighboursAre(row: seq<EdgeNode>, head: EdgeNode?, i: nat)
    requires Linked(row, head) && i < |row|
    ensures row[i].prev == if i == 0 then null else row[i - 1]
    ensures row[i].next == if i + 1 == |row| then null else row[i + 1]
  {
    assert LinkedAt(row, i);
  }

  /** The first node of the second part of a list. */
  lemma Parts(row: seq<EdgeNode>, head: EdgeNode?, left: seq<EdgeNode>, rest: seq<EdgeNode>)
    requires Linked(row, head) && row == left + rest && rest != []
    ensures row[|left|] == rest[0] && rest[0] in row && rest[0] !in left && rest[0] !in rest[1..]
    ensures rest[0].prev == if left == [] then null else left[|left| - 1]
  {
    assert LinkedAt(row, |left|);
    assert forall i :: 0 <= i < |left| ==> row[i] == left[i];
    assert forall i :: 0 <= i < |rest| ==> row[|left| + i] == rest[i];
  }

  /** The parts of a row before and after two bundles are crossed. */
  lemma RowCrossed(g: seq<seq<Edge>>, k: nat, f0: Edge, f1: Edge)
    requires AreBundles(g) && UnitBundles(g) && k + 1 < |g|
    requires SameButPointers(Head(g[k]), f0) && SameButPointers(Head(g[k + 1]), f1)
    ensures var l, r, x, y := g[..k], g[k + 2..], WithHead(g[k], f0), WithHead(g[k + 1], f1);
            && AreBundles(l) && IsBundle(x) && IsBundle(y) && UnitBundle(x) && UnitBundle(y)
            && |x| == |g[k]| && |y| == |g[k + 1]|
            && Flatten(g) == Flatten(l) + g[k] + g[k + 1] + Flatten(r)
            && Flatten(Interior.SwapBundles(g, k, f0, f1)) == Flatten(l) + y + x + Flatten(r)
  {
    hide Flatten, IsBundle, UnitBundle;
    CutOut(g, k);
    FlattenAround(g[..k], g[k], g[k + 1], g[k + 2..]);
    WithHeadIsBundle(g[k], f0);
    WithHeadIsBundle(g[k + 1], f1);
    FlattenAround(g[..k], WithHead(g[k + 1], f1), WithHead(g[k], f0), g[k + 2..]);
  }

  lemma LastApart(row: seq<EdgeNode>, left: seq<EdgeNode>, rest: seq<EdgeNode>)
    requires Distinct(row) && row == left + rest && left != []
    ensures left[|left| - 1] in row && left[|left| - 1] !in rest
  {
    assert row[|left| - 1] == left[|left| - 1];
    assert forall i :: 0 <= i < |rest| ==> row[|left| + i] == rest[i];
  }

  lemma WithoutFirst(left: seq<EdgeNode>, rest: seq<EdgeNode>)
    requires rest != []
    ensures (left + rest)[..|left|] + (left + rest)[|left| + 1..] == left + rest[1..]
  {
  }

  lemma Shifted(left: seq<EdgeNode>, rest: seq<EdgeNode>)
    requires rest != []
    ensures left + rest == left + [rest[0]] + rest[1..]
  {
  }

  lemma LastOnce(row: seq<EdgeNode>, head: EdgeNode?, left: seq<EdgeNode>, rest: seq<EdgeNode>)
    requires Linked(row, head) && row == left + rest && left != []
    ensures forall i :: 0 <= i < |left| - 1 ==> left[i] != left[|left| - 1]
    ensures |left| > 1 ==> row[|left| - 2] == left[|left| - 2]
  {
    assert forall i :: 0 <= i < |left| ==> row[i] == left[i];
  }

  lemma RetainedMore(yb: real, yt: real, s: seq<Edge>, k: nat)
    requires k < |s|
    ensures Retained(yb, yt, s[..k + 1]) == Retain(yb, yt, Retained(yb, yt, s[..k]), s[k..][0])
    ensures s[k..][1..] == s[k + 1..]
  {
    assert s[..k + 1][..k] == s[..k];
  }

  /** The bundles x and y stand as wholes in a row. */
  lemma Blocks(row: seq<EdgeNode>, l: seq<seq<Edge>>, x: seq<Edge>, y: seq<Edge>, r: seq<seq<Edge>>,
               a: nat, m: nat, n: nat)
    requires AreBundles(l) && IsBundle(x) && IsBundle(y) && UnitBundle(x) && UnitBundle(y)
    requires a == |Flatten(l)| && m + 1 == a + |x| && n == m + |y| && n < |row|
    requires Shows(row[..a], Flatten(l)) && Shows(row[a..m + 1], x) && Shows(row[m + 1..n + 1], y)
    ensures BundleAt(row, a, m) && BundleAt(row, m + 1, n)
  {
    if a > 0 {
      LastIsHead(l);
      assert row[a - 1] == row[..a][a - 1];
    }
    hide Flatten, UnitBundle, IsBundle, BundleAt;
    BlockIsBundle(row, a, m, x);
    BlockIsBundle(row, m + 1, n, y);
  }

  lemma ShowsParts(row: seq<EdgeNode>, a: seq<Edge>, x: seq<Edge>, y: seq<Edge>, b: seq<Edge>, i: nat, m: nat, n: nat)
    requires Shows(row, a + x + y + b) && i == |a| && m + 1 == |a| + |x| && n == m + |y|
    ensures n < |row| && i <= m + 1
    ensures Shows(row[..i], a) && Shows(row[i..m + 1], x) && Shows(row[m + 1..n + 1], y) && Shows(row[n + 1..], b)
  {
    var s := a + x + y + b;
    assert forall i :: 0 <= i < |a| ==> s[i] == a[i];
    assert forall i :: 0 <= i < |x| ==> s[|a| + i] == x[i];
    assert forall i :: 0 <= i < |y| ==> s[|a| + |x| + i] == y[i];
    assert forall i :: 0 <= i < |b| ==> s[|a| + |x| + |y| + i] == b[i];
  }

  /** The nodes at places m and n stand nowhere else. */
  lemma NothingTwice(row: seq<EdgeNode>, head: EdgeNode?, a: nat, m: nat, n: nat)
    requires Linked(row, head) && a <= m < n < |row|
    ensures Distinct(row)
    ensures row[m] !in row[..a] && row[m] !in row[m + 1..n + 1] && row[m] !in row[n + 1..]
    ensures row[n] !in row[..a] && row[n] !in row[a..m + 1] && row[n] !in row[n + 1..]
  {
  }

  lemma BlockIsBundle(row: seq<EdgeNode>, a: nat, m: nat, x: seq<Edge>)
    requires IsBundle(x) && UnitBundle(x) && a <= m < |row| && Shows(row[a..m + 1], x)
    requires a > 0 ==> row[a - 1].edge.stateAbove != BundleTail
    ensures BundleAt(row, a, m) && row[m].edge.stateAbove != BundleTail
  {
    assert forall i :: a <= i <= m ==> row[i] == row[a..m + 1][i - a];
  }

  lemma {:induction false} LastIsHead(g: seq<seq<Edge>>)
    requires AreBundles(g) && Flatten(g) != []
    ensures Flatten(g)[|Flatten(g)| - 1].stateAbove != BundleTail
  {
    if Flatten(g[1..]) != [] {
      LastIsHead(g[1..]);
    } else {
      assert Flatten(g)[|Flatten(g)| - 1] == Head(g[0]) && IsBundle(g[0]);
    }
  }

  lemma ShowsConcat(a: seq<EdgeNode>, b: seq<EdgeNode>, s: seq<Edge>, t: seq<Edge>)
    requires Shows(a, s) && Shows(b, t)
    ensures Shows(a + b, s + t)
  {
  }

  lemma SamePlaces(row: seq<EdgeNode>, a: nat, m: nat, n: nat, i: nat)
    requires Distinct(row) && a <= m < n < |row| && i < |row|
    ensures row[i] == row[m] <==> i == m
    ensures row[i] == row[n] <==> i == n
    ensures row[i] == row[a] <==> i == a
    ensures row[i] == row[m + 1] <==> i == m + 1
    ensures a > 0 ==> (row[i] == row[a - 1] <==> i == a - 1)
    ensures n + 1 < |row| ==> (row[i] == row[n + 1] <==> i == n + 1)
  {
  }

  lemma Seams(row: seq<EdgeNode>, a: nat, m: nat, n: nat)
    requires Distinct(row) && a <= m < n < |row|
    ensures row[m] != row[n] && row[a] != row[m + 1]
    ensures a > 0 ==> row[a - 1] != row[m] && row[a - 1] != row[n]
    ensures n + 1 < |row| ==> row[a] != row[n + 1] && row[m + 1] != row[n + 1]
  {
  }

  /** The neighbours, after the swap, of the node that stood at place i. */

  ghost function AfterSwap(row: seq<EdgeNode>, a: nat, m: nat, n: nat, i: nat): EdgeNode?
    requires a <= m < n < |row| && i < |row|
  {
    if i + 1 == a then row[m + 1]
    else if i == m then if n + 1 == |row| then null else row[n + 1]
    else if i == n then row[a]
    else if i + 1 == |row| then null
    else row[i + 1]
  }

  ghost function BeforeSwap(row: seq<EdgeNode>, a: nat, m: nat, n: nat, i: nat): EdgeNode?
    requires a <= m < n < |row| && i < |row|
  {
    if i == m + 1 then if a == 0 then null else row[a - 1]
    else if i == a then row[n]
    else if i == n + 1 then row[m]
    else if i == 0 then null
    else row[i - 1]
  }

  lemma OriginNeighbours(was: seq<EdgeNode>, a: nat, m: nat, n: nat, i: nat)
    requires a <= m < n < |was| && i < |was|
    ensures Origin(a, m, n, i) < |was|
    ensures i + 1 < |was| ==> Origin(a, m, n, i + 1) < |was|
    ensures i > 0 ==> Origin(a, m, n, i - 1) < |was|
    ensures AfterSwap(was, a, m, n, Origin(a, m, n, i)) == if i + 1 == |was| then null else was[Origin(a, m, n, i + 1)]
    ensures BeforeSwap(was, a, m, n, Origin(a, m, n, i)) == if i == 0 then null else was[Origin(a, m, n, i - 1)]
  {
  }

  /** A whole bundle from place a to its last edge at place m: all edges but the last are
      tails, and the edge before it is not. */
  ghost predicate BundleAt(row: seq<EdgeNode>, a: nat, m: nat)
    requires a <= m < |row|
    reads row`edge
  {
    && (row[m].edge.stateAbove == BundleHead <==> a < m)
    && (forall i :: a <= i < m ==> row[i].edge.stateAbove == BundleTail)
    && row[m].edge.stateAbove != BundleTail
    && (a > 0 ==> row[a - 1].edge.stateAbove != BundleTail)
  }

  /** Where the node at place i stood before the swap. */
  function Origin(a: nat, m: nat, n: nat, i: nat): nat
    requires a <= m < n
  {
    if i < a || i > n then i
    else if i < a + (n - m) then i + (m + 1 - a)
    else i - (n - m)
  }

  lemma Swapped(was: seq<EdgeNode>, row: seq<EdgeNode>, a: nat, m: nat, n: nat)
    requires a <= m < n < |was| && Distinct(was)
    requires row == was[..a] + was[m + 1..n + 1] + was[a..m + 1] + was[n + 1..]
    ensures |row| == |was| && Distinct(row)
    ensures forall i :: 0 <= i < |row| ==> Origin(a, m, n, i) < |was| && row[i] == was[Origin(a, m, n, i)]
  {
  }

  lemma Deleted(was: seq<EdgeNode>, row: seq<EdgeNode>, k: nat)
    requires k < |was| && row == was[..k] + was[k + 1..] && Distinct(was)
    ensures Distinct(row)
    ensures forall i :: 0 <= i < |row| ==> row[i] == if i < k then was[i] else was[i + 1]
  {
  }

  lemma Inserted(was: seq<EdgeNode>, row: seq<EdgeNode>, node: EdgeNode, k: nat)
    requires k <= |was| && row == was[..k] + [node] + was[k..] && node !in was && Distinct(was)
    ensures Distinct(row)
    ensures forall i :: 0 <= i < |row| ==> row[i] == if i < k then was[i] else if i == k then node else was[i - 1]
  {
  }
}
