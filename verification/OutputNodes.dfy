/**
 The output contours as the program keeps them: polygon nodes in a list, newest first, each
 with a proxy and a linked list of vertices.  Every operation does to the nodes what the
 operation of the same name does to the value `store`.
 */
module OutputNodes {
  import opened Base
  import opened Output
  import opened Results

  class VertexNode {
    var x: real
    var y: real
    var next: VertexNode?
    /** The polygon node whose list this vertex is in. */
    ghost var owner: nat

    constructor (x: real, y: real, next: VertexNode?, ghost owner: nat)
      ensures this.x == x && this.y == y && this.next == next && this.owner == owner
    {
      this.x, this.y, this.next, this.owner := x, y, next, owner;
    }
  }

  /** `active` is a flag, and at the end the number of vertices. */
  class PolygonNode {
    var active: nat
    var hole: bool
    var left: VertexNode?
    var right: VertexNode?
    var next: PolygonNode?
    var proxy: PolygonNode

    constructor (v: VertexNode, next: PolygonNode?)
      ensures active == 1 && left == right == v && this.next == next && proxy == this
    {
      active, left, right, this.next, proxy := 1, v, v, next, this;
    }

    /** Puts a new vertex at the left end of the node's list. */
    method PushLeft(x: real, y: real, ghost l: seq<VertexNode>, ghost v: seq<Point>, ghost owner: nat)
      returns (ghost nv: VertexNode)
      requires Threaded(l, v, owner, null) && Ends(this, l) && l != []
      modifies this`left
      ensures fresh(nv) && Threaded([nv] + l, [Point(x, y)] + v, owner, null) && Ends(this, [nv] + l)
    {
      hide Threaded;
      var n := new VertexNode(x, y, left, owner);
      ThreadPrepend(n, l, v, Point(x, y), owner);
      left := n;
      nv := n;
    }

    /** Puts a new vertex at the right end of the node's list. */
    method PushRight(x: real, y: real, ghost l: seq<VertexNode>, ghost v: seq<Point>, ghost owner: nat)
      returns (ghost nv: VertexNode)
      requires Threaded(l, v, owner, null) && Ends(this, l) && l != []
      modifies this`right, l`next
      ensures fresh(nv) && Threaded(l + [nv], v + [Point(x, y)], owner, null) && Ends(this, l + [nv])
    {
      var n := new VertexNode(x, y, null, owner);
      right.next := n;
      right := n;
      nv := n;
      forall k | 0 <= k < |l|
        ensures ThreadedAt(l, v, owner, n, k)
      {
        assert old(ThreadedAt(l, v, owner, null, k));
      }
      assert ThreadedAt([n], [Point(x, y)], owner, null, 0);
      ThreadJoin(l, v, [n], [Point(x, y)], owner, null);
    }

    /** Hangs this node's list before that of `other`. */
    method HangBefore(other: PolygonNode, ghost l: seq<VertexNode>, ghost v: seq<Point>, ghost i: nat,
                      ghost m: seq<VertexNode>, ghost w: seq<Point>, ghost j: nat)
      requires Threaded(l, v, i, null) && Ends(this, l) && l != []
      requires Threaded(m, w, j, null) && Ends(other, m) && m != [] && i != j && this != other
      modifies other`left, l`next, l`owner
      ensures Threaded(l + m, v + w, j, null) && Ends(other, l + m)
    {
      Separate(l, v, i, m, w, j);
      right.next := other.left;
      other.left := left;
      forall a | a in l {
        a.owner := j;
      }
      forall k | 0 <= k < |l|
        ensures ThreadedAt(l, v, j, m[0], k)
      {
        assert old(ThreadedAt(l, v, i, null, k)) && l[k] in l;
      }
      forall k | 0 <= k < |m|
        ensures ThreadedAt(m, w, j, null, k)
      {
        assert old(ThreadedAt(m, w, j, null, k)) && m[k] in m;
      }
      ThreadJoin(l, v, m, w, j, null);
    }

    /** Hangs this node's list behind that of `other`. */
    method HangBehind(other: PolygonNode, ghost l: seq<VertexNode>, ghost v: seq<Point>, ghost i: nat,
                      ghost m: seq<VertexNode>, ghost w: seq<Point>, ghost j: nat)
      requires Threaded(l, v, i, null) && Ends(this, l) && l != []
      requires Threaded(m, w, j, null) && Ends(other, m) && m != [] && i != j && this != other
      modifies other`right, m`next, l`owner
      ensures Threaded(m + l, w + v, j, null) && Ends(other, m + l)
    {
      Separate(l, v, i, m, w, j);
      other.right.next := left;
      other.right := right;
      forall a | a in l {
        a.owner := j;
      }
      forall k | 0 <= k < |l|
        ensures ThreadedAt(l, v, j, null, k)
      {
        assert old(ThreadedAt(l, v, i, null, k)) && l[k] in l;
      }
      forall k | 0 <= k < |m|
        ensures ThreadedAt(m, w, j, l[0], k)
      {
        assert old(ThreadedAt(m, w, j, null, k)) && m[k] in m;
      }
      ThreadJoin(m, w, l, v, j, null);
    }
  }

  /** The vertices of a list hold the points, and are linked in order up to `last`. */
  ghost predicate Threaded(l: seq<VertexNode>, v: seq<Point>, owner: nat, last: VertexNode?)
    reads l`x, l`y, l`next, l`owner
  {
    && |l| == |v|
    && (forall k, m :: 0 <= k < m < |l| ==> l[k] != l[m])
    && (forall k :: 0 <= k < |l| ==> ThreadedAt(l, v, owner, last, k))
  }

  ghost predicate ThreadedAt(l: seq<VertexNode>, v: seq<Point>, owner: nat, last: VertexNode?, k: nat)
    requires k < |l| == |v|
    reads l`x, l`y, l`next, l`owner
  {
    && l[k].owner == owner && Point(l[k].x, l[k].y) == v[k]
    && l[k].next == if k + 1 < |l| then l[k + 1] else last
  }

  /** The node's list runs from its left end to its right end. */
  ghost predicate Ends(node: PolygonNode, l: seq<VertexNode>)
    reads node`left, node`right
  {
    l != [] ==> node.left == l[0] && node.right == l[|l| - 1]
  }

  lemma ThreadPrepend(nv: VertexNode, l: seq<VertexNode>, v: seq<Point>, pt: Point, owner: nat)
    requires Threaded(l, v, owner, null) && nv !in l
    requires nv.owner == owner && Point(nv.x, nv.y) == pt && nv.next == if l == [] then null else l[0]
    ensures Threaded([nv] + l, [pt] + v, owner, null)
  {
    var l', v' := [nv] + l, [pt] + v;
    forall k | 0 <= k < |l'|
      ensures ThreadedAt(l', v', owner, null, k)
    {
      assert k > 0 ==> ThreadedAt(l, v, owner, null, k - 1);
    }
  }

  lemma OwnerOf(l: seq<VertexNode>, v: seq<Point>, i: nat, a: VertexNode)
    requires Threaded(l, v, i, null)
    ensures a in l ==> a.owner == i
  {
    if a in l {
      var k :| 0 <= k < |l| && l[k] == a;
      assert ThreadedAt(l, v, i, null, k);
    }
  }

  ghost predicate Apart(l: seq<VertexNode>, m: seq<VertexNode>) {
    forall a :: a in l ==> a !in m
  }

  /** Lists of different owners share no vertex. */
  lemma Separate(l: seq<VertexNode>, v: seq<Point>, i: nat, m: seq<VertexNode>, w: seq<Point>, j: nat)
    requires Threaded(l, v, i, null) && Threaded(m, w, j, null) && i != j
    ensures Apart(l, m)
  {
    hide Threaded;
    forall a | a in l
      ensures a !in m
    {
      OwnerOf(l, v, i, a);
      OwnerOf(m, w, j, a);
    }
  }

  /** Two lists, the first of which ends where the second begins, are one. */
  lemma ThreadJoin(l: seq<VertexNode>, v: seq<Point>, m: seq<VertexNode>, w: seq<Point>, owner: nat, last: VertexNode?)
    requires m != [] && Threaded(l, v, owner, m[0]) && Threaded(m, w, owner, last)
    requires Apart(l, m)
    ensures Threaded(l + m, v + w, owner, last)
  {
    var s, u := l + m, v + w;
    forall k | 0 <= k < |s|
      ensures ThreadedAt(s, u, owner, last, k)
    {
      if k < |l| {
        assert ThreadedAt(l, v, owner, m[0], k);
        assert s[k] == l[k] && u[k] == v[k];
        assert k + 1 < |l| ==> s[k + 1] == l[k + 1];
        assert k + 1 == |l| ==> s[k + 1] == m[0];
      } else {
        assert ThreadedAt(m, w, owner, last, k - |l|);
        assert s[k] == m[k - |l|] && u[k] == w[k - |l|];
        assert k + 1 < |s| ==> s[k + 1] == m[k + 1 - |l|];
      }
    }
    forall a, b | 0 <= a < b < |s|
      ensures s[a] != s[b]
    {
      assert a < |l| <= b ==> s[a] == l[a] && s[b] == m[b - |l|] && l[a] in l;
    }
  }

  /** The nodes are linked from the newest, the last of the sequence, to the oldest. */
  ghost predicate Linked(nodes: seq<PolygonNode>, head: PolygonNode?)
    reads nodes`next
  {
    && (forall i, j :: 0 <= i < j < |nodes| ==> nodes[i] != nodes[j])
    && head == (if nodes == [] then null else nodes[|nodes| - 1])
    && forall i :: 0 <= i < |nodes| ==> nodes[i].next == if i == 0 then null else nodes[i - 1]
  }

  lemma LinkedAt(nodes: seq<PolygonNode>, head: PolygonNode?, i: nat, j: nat)
    requires Linked(nodes, head) && i < |nodes| && j < |nodes|
    ensures nodes[i] == nodes[j] <==> i == j
    ensures nodes[i].next == if i == 0 then null else nodes[i - 1]
  {
  }

  function Active(c: Poly): nat {
    if c.active then 1 else 0
  }

  /** The fields of a node are those of its value. */
  ghost predicate Mirrors(node: PolygonNode, c: Poly, nodes: seq<PolygonNode>)
    reads node`proxy, node`active, node`hole
  {
    && c.proxy < |nodes| && node.proxy == nodes[c.proxy]
    && node.active == Active(c)
    && (c.hole.Some? ==> node.hole == c.hole.value)
  }

  ghost predicate AllMirror(nodes: seq<PolygonNode>, s: Store)
    reads nodes`proxy, nodes`active, nodes`hole
  {
    |s| == |nodes| && forall i :: 0 <= i < |nodes| ==> Mirrors(nodes[i], s[i], nodes)
  }

  ghost predicate ListIn(l: seq<VertexNode>, vertices: set<VertexNode>) {
    forall v :: v in l ==> v in vertices
  }

  /** Each node's list is linked, and holds the vertices of its value. */
  ghost predicate AllThreaded(nodes: seq<PolygonNode>, ls: seq<seq<VertexNode>>, s: Store, vertices: set<VertexNode>)
    reads nodes`left, nodes`right, vertices`x, vertices`y, vertices`next, vertices`owner
  {
    && |ls| == |s| == |nodes|
    && (forall i :: 0 <= i < |nodes| ==> ListIn(ls[i], vertices))
    && (forall i :: 0 <= i < |nodes| ==> Threaded(ls[i], s[i].verts, i, null) && Ends(nodes[i], ls[i]))
  }

  lemma ThreadOf(nodes: seq<PolygonNode>, ls: seq<seq<VertexNode>>, s: Store, vertices: set<VertexNode>, i: nat)
    requires AllThreaded(nodes, ls, s, vertices) && i < |nodes|
    ensures |ls| == |s| == |nodes| && |ls[i]| == |s[i].verts| && ListIn(ls[i], vertices)
    ensures Threaded(ls[i], s[i].verts, i, null) && Ends(nodes[i], ls[i])
  {
  }

  lemma AllApart(nodes: seq<PolygonNode>, ls: seq<seq<VertexNode>>, s: Store, vertices: set<VertexNode>, r: nat)
    requires AllThreaded(nodes, ls, s, vertices) && r < |nodes|
    ensures |ls| == |s| == |nodes|
    ensures forall i :: 0 <= i < |nodes| && i != r ==> Apart(ls[i], ls[r])
  {
    hide Apart, AllThreaded, Threaded;
    ThreadOf(nodes, ls, s, vertices, r);
    forall i | 0 <= i < |nodes| && i != r
      ensures Apart(ls[i], ls[r])
    {
      ThreadOf(nodes, ls, s, vertices, i);
      Separate(ls[i], s[i].verts, i, ls[r], s[r].verts, r);
    }
  }

  class OutputList {
    /** `out_poly`: the newest polygon node. */
    var head: PolygonNode?
    /** The polygon nodes in the order in which they were made, and the vertices of each. */
    ghost var nodes: seq<PolygonNode>
    ghost var lists: seq<seq<VertexNode>>
    ghost var vertices: set<VertexNode>
    /** The contours as values. */
    ghost var store: Store

    constructor ()
      ensures Valid() && store == [] && nodes == []
      ensures fresh(vertices)
    {
      head, nodes, lists, vertices, store := null, [], [], {}, [];
    }

    ghost predicate Valid()
      reads this, nodes, vertices
    {
      && Output.Valid(store) && |lists| == |store| == |nodes|
      && Linked(nodes, head)
      && AllMirror(nodes, store)
      && AllThreaded(nodes, lists, store, vertices)
    }

    lemma Proxies(k: nat)
      requires Valid() && k < |nodes|
      ensures var r := store[k].proxy; r < |nodes| && nodes[k].proxy == nodes[r] && store[r].verts != []
    {
      hide AllThreaded;
    }

    /** A vertex at the left end of node r's list; the other lists stay. */
    method ThreadLeft(node: PolygonNode, x: real, y: real, ghost r: nat) returns (ghost nv: VertexNode)
      requires Linked(nodes, head) && AllThreaded(nodes, lists, store, vertices)
      requires r < |store| == |nodes| && nodes[r] == node && store[r].verts != []
      modifies node`left
      ensures fresh(nv) && |lists| == |nodes|
      ensures AllThreaded(nodes, lists[r := [nv] + lists[r]],
                          store[r := store[r].(verts := [Point(x, y)] + store[r].verts)], vertices + {nv})
    {
      hide Threaded, Linked;
      ThreadOf(nodes, lists, store, vertices, r);
      nv := node.PushLeft(x, y, lists[r], store[r].verts, r);
      ghost var l, c := [nv] + lists[r], store[r].(verts := [Point(x, y)] + store[r].verts);
      ghost var ls, s := lists[r := l], store[r := c];
      forall i | 0 <= i < |nodes|
        ensures ListIn(ls[i], vertices + {nv}) && Threaded(ls[i], s[i].verts, i, null) && Ends(nodes[i], ls[i])
      {
        if i != r {
          LinkedAt(nodes, head, i, r);
          assert old(Threaded(lists[i], store[i].verts, i, null) && Ends(nodes[i], lists[i]));
        }
      }
    }

    /** A vertex at the right end of node r's list; the other lists stay. */
    method ThreadRight(node: PolygonNode, x: real, y: real, ghost r: nat) returns (ghost nv: VertexNode)
      requires Linked(nodes, head) && AllThreaded(nodes, lists, store, vertices)
      requires r < |store| == |nodes| == |lists| && nodes[r] == node && store[r].verts != []
      modifies node`right, lists[r]`next
      ensures fresh(nv)
      ensures AllThreaded(nodes, lists[r := lists[r] + [nv]],
                          store[r := store[r].(verts := store[r].verts + [Point(x, y)])], vertices + {nv})
    {
      hide Threaded, Linked;
      ThreadOf(nodes, lists, store, vertices, r);
      AllApart(nodes, lists, store, vertices, r);
      nv := node.PushRight(x, y, lists[r], store[r].verts, r);
      ghost var l, c := lists[r] + [nv], store[r].(verts := store[r].verts + [Point(x, y)]);
      ghost var ls, s := lists[r := l], store[r := c];
      forall i | 0 <= i < |nodes|
        ensures ListIn(ls[i], vertices + {nv}) && Threaded(ls[i], s[i].verts, i, null) && Ends(nodes[i], ls[i])
      {
        if i != r {
          LinkedAt(nodes, head, i, r);
          assert Apart(lists[i], lists[r]);
          assert forall a: VertexNode :: a in lists[i] ==> a !in lists[r] && a.next == old(a.next);
          assert old(Threaded(lists[i], store[i].verts, i, null) && Ends(nodes[i], lists[i]));
        }
      }
    }

    /** `add_left` */
    method AddLeft(p: PolygonNode, x: real, y: real, ghost k: nat)
      requires Valid() && k < |nodes| && nodes[k] == p
      modifies this`lists, this`store, this`vertices, p.proxy`left
      ensures Valid() && store == Output.AddLeft(old(store), k, Point(x, y))
      ensures fresh(vertices - old(vertices))
    {
      hide Output.Valid, Linked, AllMirror, AllThreaded, Output.AddLeft;
      ghost var r := store[k].proxy;
      Proxies(k);
      ghost var nv := ThreadLeft(p.proxy, x, y, r);
      AddLeftIs(store, k, Point(x, y));
      Record(r, [nv] + lists[r], [Point(x, y)] + store[r].verts, {nv});
    }

    /** `add_right` */
    method AddRight(p: PolygonNode, x: real, y: real, ghost k: nat)
      requires Valid() && k < |nodes| && nodes[k] == p
      modifies this`lists, this`store, this`vertices, p.proxy`right, lists[store[k].proxy]`next
      ensures Valid() && store == Output.AddRight(old(store), k, Point(x, y))
      ensures fresh(vertices - old(vertices))
    {
      hide Output.Valid, Linked, AllMirror, AllThreaded, Output.AddRight;
      ghost var r := store[k].proxy;
      Proxies(k);
      ghost var nv := ThreadRight(p.proxy, x, y, r);
      AddRightIs(store, k, Point(x, y));
      Record(r, lists[r] + [nv], store[r].verts + [Point(x, y)], {nv});
    }

    /** Redirects every node whose proxy is `target`. */
    method Redirect(target: PolygonNode, to: PolygonNode, ghost s: Store, ghost rp: nat, ghost rq: nat)
      requires Linked(nodes, head) && AllMirror(nodes, s) && rp < |nodes| && rq < |nodes| && rp != rq
      requires nodes[rp] == target && nodes[rq] == to
      modifies nodes`active, nodes`proxy
      ensures |s| == |nodes| && AllMirror(nodes, RedirectedAll(s, rp, rq))
    {
      hide Mirrors, Linked;
      var list := head;
      ghost var j: nat := |nodes|;
      HeadIs(nodes, head);
      while list != null
        invariant j <= |nodes| && list == if j == 0 then null else nodes[j - 1]
        invariant forall i :: 0 <= i < j ==> Mirrors(nodes[i], s[i], nodes)
        invariant forall i :: j <= i < |nodes| ==> Mirrors(nodes[i], Redirected(s[i], rp, rq), nodes)
        decreases j
      {
        NextIs(nodes, head, j - 1);
        ProxyIs(list, s[j - 1], nodes, head, rp);
        if list.proxy == target {
          list.active := 0;
          list.proxy := to;
        }
        NowRedirected(list, s[j - 1], nodes, rp, rq);
        forall i | 0 <= i < |nodes| && i != j - 1
          ensures nodes[i] != nodes[j - 1]
        {
          LinkedAt(nodes, head, i, j - 1);
        }
        list := list.next;
        j := j - 1;
      }
    }

    /** Labels the contour of node r as a hole or as external. */
    method Label(node: PolygonNode, hole: bool, ghost r: nat)
      requires Linked(nodes, head) && AllMirror(nodes, store) && r < |store| == |nodes| && nodes[r] == node
      modifies node`hole
      ensures AllMirror(nodes, store[r := store[r].(hole := Some(hole))])
    {
      hide Linked, Mirrors;
      ghost var s := store[r := store[r].(hole := Some(hole))];
      ProxyIs(node, store[r], nodes, head, r);
      node.hole := hole;
      NowMirrors(node, s[r], nodes);
      forall i | 0 <= i < |nodes| && i != r
        ensures Mirrors(nodes[i], s[i], nodes)
      {
        LinkedAt(nodes, head, i, r);
        assert old(Mirrors(nodes[i], store[i], nodes));
      }
    }

    /** The list of node rp goes before that of node rq; the other lists stay. */
    method SpliceBefore(a: PolygonNode, b: PolygonNode, ghost rp: nat, ghost rq: nat)
      requires Linked(nodes, head) && AllThreaded(nodes, lists, store, vertices) && |lists| == |store| == |nodes|
      requires rp < |nodes| && rq < |nodes| && rp != rq && nodes[rp] == a && nodes[rq] == b
      requires store[rp].verts != [] && store[rq].verts != []
      modifies b`left, lists[rp]`next, lists[rp]`owner
      ensures AllThreaded(nodes, lists[rp := []][rq := lists[rp] + lists[rq]],
                          Moved(store, rp, rq, store[rp].verts + store[rq].verts), vertices)
    {
      hide Threaded, Linked;
      ThreadOf(nodes, lists, store, vertices, rp);
      ThreadOf(nodes, lists, store, vertices, rq);
      AllApart(nodes, lists, store, vertices, rp);
      LinkedAt(nodes, head, rp, rq);
      a.HangBefore(b, lists[rp], store[rp].verts, rp, lists[rq], store[rq].verts, rq);
      ghost var ls, s := lists[rp := []][rq := lists[rp] + lists[rq]],
        Moved(store, rp, rq, store[rp].verts + store[rq].verts);
      NothingThreaded(rp);
      forall i | 0 <= i < |nodes|
        ensures ListIn(ls[i], vertices) && Threaded(ls[i], s[i].verts, i, null) && Ends(nodes[i], ls[i])
      {
        if i != rp && i != rq {
          LinkedAt(nodes, head, i, rq);
          assert Apart(lists[i], lists[rp]);
          assert forall a: VertexNode :: a in lists[i] ==>
            a !in lists[rp] && a.next == old(a.next) && a.owner == old(a.owner);
          assert old(Threaded(lists[i], store[i].verts, i, null) && Ends(nodes[i], lists[i]));
        }
      }
    }

    /** The list of node rp goes behind that of node rq; the other lists stay. */
    method SpliceBehind(a: PolygonNode, b: PolygonNode, ghost rp: nat, ghost rq: nat)
      requires Linked(nodes, head) && AllThreaded(nodes, lists, store, vertices) && |lists| == |store| == |nodes|
      requires rp < |nodes| && rq < |nodes| && rp != rq && nodes[rp] == a && nodes[rq] == b
      requires store[rp].verts != [] && store[rq].verts != []
      modifies b`right, lists[rq]`next, lists[rp]`owner
      ensures AllThreaded(nodes, lists[rp := []][rq := lists[rq] + lists[rp]],
                          Moved(store, rp, rq, store[rq].verts + store[rp].verts), vertices)
    {
      hide Threaded, Linked;
      ThreadOf(nodes, lists, store, vertices, rp);
      ThreadOf(nodes, lists, store, vertices, rq);
      AllApart(nodes, lists, store, vertices, rp);
      AllApart(nodes, lists, store, vertices, rq);
      LinkedAt(nodes, head, rp, rq);
      a.HangBehind(b, lists[rp], store[rp].verts, rp, lists[rq], store[rq].verts, rq);
      ghost var ls, s := lists[rp := []][rq := lists[rq] + lists[rp]],
        Moved(store, rp, rq, store[rq].verts + store[rp].verts);
      NothingThreaded(rp);
      forall i | 0 <= i < |nodes|
        ensures ListIn(ls[i], vertices) && Threaded(ls[i], s[i].verts, i, null) && Ends(nodes[i], ls[i])
      {
        if i != rp && i != rq {
          LinkedAt(nodes, head, i, rq);
          assert Apart(lists[i], lists[rp]) && Apart(lists[i], lists[rq]);
          assert forall a: VertexNode :: a in lists[i] ==>
            a !in lists[rp] && a !in lists[rq] && a.next == old(a.next) && a.owner == old(a.owner);
          assert old(Threaded(lists[i], store[i].verts, i, null) && Ends(nodes[i], lists[i]));
        }
      }
    }

    /** `merge_left` */
    method MergeLeft(p: PolygonNode, q: PolygonNode, ghost kp: nat, ghost kq: nat)
      requires Valid() && kp < |nodes| && kq < |nodes| && nodes[kp] == p && nodes[kq] == q
      modifies this`lists, this`store, nodes`hole, nodes`left, nodes`proxy, nodes`active
      modifies lists[store[kp].proxy]`next, lists[store[kp].proxy]`owner
      ensures Valid() && store == Output.MergeLeft(old(store), kp, kq)
    {
      hide Output.Valid, Linked, AllMirror, AllThreaded, Output.MergeLeft, Moved, RedirectedAll;
      ghost var rp, rq := store[kp].proxy, store[kq].proxy;
      Proxies(kp);
      Proxies(kq);
      ghost var t := Output.MergeLeft(store, kp, kq);
      LinkedAt(nodes, head, rp, rq);
      MergeIs(store, kp, kq, Right);
      ghost var s := store[rq := store[rq].(hole := Some(true))];
      Label(q.proxy, true, rq);
      if p.proxy != q.proxy {
        var target := p.proxy;
        SpliceBefore(target, q.proxy, rp, rq);
        Redirect(target, q.proxy, s, rp, rq);
        MirrorLike(nodes, RedirectedAll(s, rp, rq), t);
        ThreadLike(nodes, lists[rp := []][rq := lists[rp] + lists[rq]],
                   Moved(store, rp, rq, store[rp].verts + store[rq].verts), t, vertices);
        RecordAll(lists[rp := []][rq := lists[rp] + lists[rq]], t);
      } else {
        MirrorLike(nodes, s, t);
        ThreadLike(nodes, lists, store, t, vertices);
        RecordAll(lists, t);
      }
    }

    /** `merge_right` */
    method MergeRight(p: PolygonNode, q: PolygonNode, ghost kp: nat, ghost kq: nat)
      requires Valid() && kp < |nodes| && kq < |nodes| && nodes[kp] == p && nodes[kq] == q
      modifies this`lists, this`store, nodes`hole, nodes`right, nodes`proxy, nodes`active
      modifies lists[store[kq].proxy]`next, lists[store[kp].proxy]`owner
      ensures Valid() && store == Output.MergeRight(old(store), kp, kq)
    {
      hide Output.Valid, Linked, AllMirror, AllThreaded, Output.MergeRight, Moved, RedirectedAll;
      ghost var rp, rq := store[kp].proxy, store[kq].proxy;
      Proxies(kp);
      Proxies(kq);
      ghost var t := Output.MergeRight(store, kp, kq);
      LinkedAt(nodes, head, rp, rq);
      MergeIs(store, kp, kq, Left);
      ghost var s := store[rq := store[rq].(hole := Some(false))];
      Label(q.proxy, false, rq);
      if p.proxy != q.proxy {
        var target := p.proxy;
        SpliceBehind(target, q.proxy, rp, rq);
        Redirect(target, q.proxy, s, rp, rq);
        MirrorLike(nodes, RedirectedAll(s, rp, rq), t);
        ThreadLike(nodes, lists[rp := []][rq := lists[rq] + lists[rp]],
                   Moved(store, rp, rq, store[rq].verts + store[rp].verts), t, vertices);
        RecordAll(lists[rp := []][rq := lists[rq] + lists[rp]], t);
      } else {
        MirrorLike(nodes, s, t);
        ThreadLike(nodes, lists, store, t, vertices);
        RecordAll(lists, t);
      }
    }

    /** `add_local_min` */
    method AddLocalMin(x: real, y: real) returns (p: PolygonNode)
      requires Valid()
      modifies this
      ensures Valid() && store == Output.AddLocalMin(old(store), Point(x, y))
      ensures nodes == old(nodes) + [p] && fresh(p) && fresh(vertices - old(vertices))
    {
      hide Output.Valid, Linked, AllMirror, AllThreaded;
      var nv := new VertexNode(x, y, null, |nodes|);
      p := new PolygonNode(nv, head);
      StoreGrows(store, Point(x, y));
      LinkedGrows(nodes, head, p);
      MirrorGrows(nodes, store, p, Point(x, y));
      ThreadGrows(nodes, lists, store, vertices, p, nv, Point(x, y));
      head := p;
      nodes, lists := nodes + [p], lists + [[nv]];
      store, vertices := Output.AddLocalMin(store, Point(x, y)), vertices + {nv};
    }

    /** The length of node i's list. */
    method Length(node: PolygonNode, ghost i: nat) returns (nv: nat)
      requires AllThreaded(nodes, lists, store, vertices) && i < |nodes| == |store| && nodes[i] == node
      requires store[i].verts != []
      ensures nv == |store[i].verts|
    {
      hide AllThreaded;
      ThreadOf(nodes, lists, store, vertices, i);
      ghost var l := lists[i];
      nv := 0;
      var v := node.left;
      while v != null
        invariant nv <= |l| && v == if nv < |l| then l[nv] else null
        decreases |l| - nv
      {
        assert ThreadedAt(l, store[i].verts, i, null, nv);
        nv := nv + 1;
        v := v.next;
      }
    }

    /** What the two passes over the nodes at the end rely on, when the nodes from j on have
        been counted. */
    ghost predicate Finishing(j: nat)
      reads this, nodes, vertices
    {
      && Output.Valid(store) && |lists| == |store| == |nodes| && j <= |nodes|
      && Linked(nodes, head)
      && Counting(nodes, store, j)
      && AllThreaded(nodes, lists, store, vertices)
    }

    /** Counts the vertices of one node's contour. */
    method CountNode(polygon: PolygonNode, ghost j: nat) returns (valued: bool)
      requires j < |nodes| && nodes[j] == polygon && Finishing(j + 1)
      modifies polygon`active
      ensures Finishing(j) && valued == Valued(store[j])
    {
      hide AllThreaded, Mirrors, Counted, Output.Valid, Linked, Valued;
      ActiveIs(nodes, store, j);
      valued := false;
      if polygon.active > 0 {
        var nv := Length(polygon.proxy, j);
        if nv > 2 {
          polygon.active := nv;
          valued := true;
        } else {
          polygon.active := 0;
        }
      }
      ValuedIs(store[j]);
      NowCounted(polygon, store[j], nodes);
      forall i | 0 <= i < |nodes| && i != j
        ensures if i < j then Mirrors(nodes[i], store[i], nodes) else Counted(nodes[i], store[i], nodes)
      {
        LinkedAt(nodes, head, i, j);
        assert old(if i < j then Mirrors(nodes[i], store[i], nodes) else Counted(nodes[i], store[i], nodes));
      }
    }

    lemma Cursor(j: nat)
      requires Finishing(j)
      ensures j <= |nodes| && head == (if nodes == [] then null else nodes[|nodes| - 1])
      ensures j < |nodes| ==> nodes[j].next == if j == 0 then null else nodes[j - 1]
    {
      hide AllThreaded, Counting, Output.Valid;
    }

    lemma StartFinishing()
      requires Valid()
      ensures Finishing(|nodes|)
    {
      hide AllThreaded, Output.Valid, Linked;
      CountingStarts(nodes, store);
    }

    lemma Sizes(j: nat)
      requires Finishing(j)
      ensures |lists| == |store| == |nodes| && j <= |nodes|
    {
      hide AllThreaded, Counting, Output.Valid, Linked;
    }

    /** `count_contours`: counts the contours with more than two vertices, and leaves in each
        node the number of vertices of its contour in the result. */
    method CountContours() returns (nc: nat)
      requires Valid()
      modifies nodes`active
      ensures nc == Results.CountContours(store) && Finishing(0)
    {
      hide Valid, Finishing, Results.CountContours, Valued;
      nc := 0;
      var polygon := head;
      ghost var j: nat := |nodes|;
      StartFinishing();
      Sizes(j);
      Cursor(j);
      NextCount(store, |store|);
      while polygon != null
        invariant j <= |nodes| == |store| && polygon == if j == 0 then null else nodes[j - 1]
        invariant nc == Results.CountContours(store[j..])
        invariant Finishing(j)
        decreases j
      {
        var valued := CountNode(polygon, j - 1);
        NextCount(store, j - 1);
        Cursor(j - 1);
        if valued {
          nc := nc + 1;
        }
        polygon := polygon.next;
        j := j - 1;
      }
      NextCount(store, 0);
    }

    /** The vertices of node i's contour, from its right end to its left end. */
    method ReadVertices(poly: PolygonNode, ghost i: nat) returns (vertex: array<Point>)
      requires Finishing(0) && i < |nodes| && nodes[i] == poly
      requires poly.active == |store[i].verts| > 0 && poly.proxy == poly
      ensures fresh(vertex) && vertex[..] == Reversed(store[i].verts) && Finishing(0)
    {
      hide AllThreaded, Counting, Output.Valid, Linked;
      ThreadOf(nodes, lists, store, vertices, i);
      ghost var l, w := lists[i], store[i].verts;
      vertex := new Point[poly.active];
      var v: int := poly.active - 1;
      var vtx := poly.proxy.left;
      while vtx != null
        invariant -1 <= v < |l| && vtx == if v >= 0 then l[|l| - 1 - v] else null
        invariant vertex.Length == |l| == |w|
        invariant forall k :: v < k < |l| ==> vertex[k] == w[|l| - 1 - k]
        decreases v
      {
        assert ThreadedAt(l, w, i, null, |l| - 1 - v);
        vertex[v] := Point(vtx.x, vtx.y);
        vtx := vtx.next;
        v := v - 1;
      }
    }

    /** What the second pass finds in a node. */
    lemma Found(i: nat)
      requires Finishing(0) && i < |nodes| && (store[i].active ==> store[i].hole.Some?)
      ensures nodes[i].active > 0 <==> Valued(store[i])
      ensures Valued(store[i]) ==>
        nodes[i].active == |store[i].verts| > 0 && nodes[i].proxy == nodes[i] && store[i].hole == Some(nodes[i].hole)
    {
      hide AllThreaded, Linked;
      CountedIs(nodes, store, i);
    }

    /** Generates the result: one contour for each node with more than two vertices, newest
        first, as many as were counted. */
    method GenerateResult() returns (numContours: nat, contour: seq<ResultContour>)
      requires Valid() && forall i :: 0 <= i < |store| && store[i].active ==> store[i].hole.Some?
      modifies nodes`active
      ensures contour == Extract(store) && numContours == |contour|
    {
      hide Valid, Finishing, Results.CountContours, Valued, Extract, ContourOf;
      numContours := CountContours();
      contour := [];
      var poly := head;
      ghost var j: nat := |nodes|;
      Sizes(0);
      Cursor(0);
      NextContour(store, |store|);
      while poly != null
        invariant j <= |nodes| == |store| && poly == if j == 0 then null else nodes[j - 1]
        invariant contour == Extract(store[j..])
        invariant Finishing(0)
        decreases j
      {
        Found(j - 1);
        NextContour(store, j - 1);
        if poly.active > 0 {
          var vertex := ReadVertices(poly, j - 1);
          ContourIs(store[j - 1]);
          contour := contour + [ResultContour(poly.proxy.hole, vertex[..])];
        }
        NextNode(j - 1);
        poly := poly.next;
        j := j - 1;
      }
      NextContour(store, 0);
      ExtractPlaces(store, 0);
    }

    lemma NextNode(i: nat)
      requires Finishing(0) && i < |nodes|
      ensures nodes[i].next == if i == 0 then null else nodes[i - 1]
    {
      hide AllThreaded, Counting, Output.Valid;
    }

    ghost method RecordAll(ls: seq<seq<VertexNode>>, t: Store)
      requires |ls| == |t| == |nodes| && Linked(nodes, head) && Output.Valid(t)
      requires AllMirror(nodes, t) && AllThreaded(nodes, ls, t, vertices)
      modifies `lists, `store
      ensures Valid() && store == t
    {
      hide Output.Valid, Linked, AllMirror, AllThreaded;
      lists, store := ls, t;
    }

    /** Records the new list of node r. */
    ghost method Record(r: nat, l: seq<VertexNode>, v: seq<Point>, more: set<VertexNode>)
      requires |lists| == |store| == |nodes| && r < |nodes| && Linked(nodes, head) && AllMirror(nodes, store)
      requires Output.Valid(store[r := store[r].(verts := v)])
      requires AllThreaded(nodes, lists[r := l], store[r := store[r].(verts := v)], vertices + more)
      modifies `lists, `store, `vertices
      ensures Valid() && store == old(store)[r := old(store)[r].(verts := v)] && vertices == old(vertices) + more
    {
      hide Output.Valid, Linked, AllMirror, AllThreaded;
      MirrorUpdated(nodes, store, r, v);
      lists, store, vertices := lists[r := l], store[r := store[r].(verts := v)], vertices + more;
    }
  }

  lemma MirrorUpdated(nodes: seq<PolygonNode>, s: Store, r: nat, v: seq<Point>)
    requires AllMirror(nodes, s) && r < |s|
    ensures AllMirror(nodes, s[r := s[r].(verts := v)])
  {
    hide AllMirror;
    MirrorLike(nodes, s, s[r := s[r].(verts := v)]);
  }

  lemma MergeIs(s: Store, p: nat, q: nat, side: Side)
    requires Output.Valid(s) && p < |s| && q < |s|
    ensures var rp, rq := s[p].proxy, s[q].proxy; var t := Merge(s, p, q, side);
            && Output.Valid(t) && |t| == |s|
            && (rp == rq ==>
                 && SameLinks(s[rq := s[rq].(hole := Some(side == Right))], t)
                 && SameVerts(s, t))
            && (rp != rq ==>
                 && SameLinks(RedirectedAll(s[rq := s[rq].(hole := Some(side == Right))], rp, rq), t)
                 && SameVerts(Moved(s, rp, rq,
                   if side == Right then s[rp].verts + s[rq].verts else s[rq].verts + s[rp].verts), t))
  {
    MergeNodes(s, p, q, side);
    if s[p].proxy != s[q].proxy {
      MergeMoves(s, p, q, side);
    }
  }

  /** Where the vertices of two contours go when they are merged. */
  lemma MergeMoves(s: Store, p: nat, q: nat, side: Side)
    requires Output.Valid(s) && p < |s| && q < |s| && s[p].proxy != s[q].proxy
    ensures var rp, rq := s[p].proxy, s[q].proxy;
            SameVerts(Moved(s, rp, rq,
              if side == Right then s[rp].verts + s[rq].verts else s[rq].verts + s[rp].verts), Merge(s, p, q, side))
  {
  }

  function RedirectedAll(s: Store, rp: nat, rq: nat): (t: Store)
    ensures |t| == |s|
  {
    seq(|s|, i requires 0 <= i < |s| => Redirected(s[i], rp, rq))
  }

  /** The vertices of rp emptied out, and those of rq replaced. */
  function Moved(s: Store, rp: nat, rq: nat, v: seq<Point>): (t: Store)
    requires rp < |s| && rq < |s|
    ensures |t| == |s|
  {
    s[rp := s[rp].(verts := [])][rq := s[rq].(verts := v)]
  }

  ghost predicate SameLinks(s: Store, t: Store) {
    |s| == |t| && forall i :: 0 <= i < |s| ==>
      s[i].proxy == t[i].proxy && s[i].active == t[i].active && s[i].hole == t[i].hole
  }

  ghost predicate SameVerts(s: Store, t: Store) {
    |s| == |t| && forall i :: 0 <= i < |s| ==> s[i].verts == t[i].verts
  }

  lemma MirrorLike(nodes: seq<PolygonNode>, s: Store, t: Store)
    requires AllMirror(nodes, s) && SameLinks(s, t)
    ensures AllMirror(nodes, t)
  {
    hide Mirrors;
    forall i | 0 <= i < |nodes|
      ensures Mirrors(nodes[i], t[i], nodes)
    {
      MirrorsLike(nodes, nodes[i], s[i], t[i]);
    }
  }

  lemma MirrorsLike(nodes: seq<PolygonNode>, node: PolygonNode, c: Poly, d: Poly)
    requires Mirrors(node, c, nodes)
    requires c.proxy == d.proxy && c.active == d.active && c.hole == d.hole
    ensures Mirrors(node, d, nodes)
  {
  }

  lemma ThreadLike(nodes: seq<PolygonNode>, ls: seq<seq<VertexNode>>, s: Store, t: Store, vertices: set<VertexNode>)
    requires AllThreaded(nodes, ls, s, vertices) && SameVerts(s, t)
    ensures AllThreaded(nodes, ls, t, vertices)
  {
    hide Threaded;
  }

  lemma NothingThreaded(owner: nat)
    ensures Threaded([], [], owner, null)
  {
  }

  lemma NowMirrors(node: PolygonNode, c: Poly, nodes: seq<PolygonNode>)
    requires c.proxy < |nodes| && node.proxy == nodes[c.proxy] && node.active == Active(c)
    requires c.hole.Some? ==> node.hole == c.hole.value
    ensures Mirrors(node, c, nodes)
  {
  }

  /** The node knows how many vertices its contour has in the result. */
  ghost predicate Counted(node: PolygonNode, c: Poly, nodes: seq<PolygonNode>)
    reads node`proxy, node`active, node`hole
  {
    && c.proxy < |nodes| && node.proxy == nodes[c.proxy]
    && node.active == (if Valued(c) then |c.verts| else 0)
    && (c.hole.Some? ==> node.hole == c.hole.value)
  }

  /** What an active node is. */
  lemma ActiveIs(nodes: seq<PolygonNode>, s: Store, i: nat)
    requires Output.Valid(s) && i < |nodes| == |s| && Mirrors(nodes[i], s[i], nodes)
    ensures nodes[i].active > 0 <==> s[i].active
    ensures s[i].active ==> s[i].verts != [] && nodes[i].proxy == nodes[i]
    ensures s[i].proxy < |nodes| && nodes[i].proxy == nodes[s[i].proxy]
    ensures s[i].hole.Some? ==> nodes[i].hole == s[i].hole.value
  {
  }

  /** The nodes from j on have been counted. */
  ghost predicate Counting(nodes: seq<PolygonNode>, s: Store, j: nat)
    reads nodes`proxy, nodes`active, nodes`hole
  {
    |s| == |nodes| && forall i :: 0 <= i < |nodes| ==>
      if i < j then Mirrors(nodes[i], s[i], nodes) else Counted(nodes[i], s[i], nodes)
  }

  lemma CountingStarts(nodes: seq<PolygonNode>, s: Store)
    requires AllMirror(nodes, s)
    ensures Counting(nodes, s, |nodes|)
  {
  }

  lemma ValuedIs(c: Poly)
    ensures Valued(c) <==> c.active && |c.verts| > 2
  {
  }

  lemma NowCounted(node: PolygonNode, c: Poly, nodes: seq<PolygonNode>)
    requires c.proxy < |nodes| && node.proxy == nodes[c.proxy] && (c.hole.Some? ==> node.hole == c.hole.value)
    requires node.active == if Valued(c) then |c.verts| else 0
    ensures Counted(node, c, nodes)
  {
  }

  lemma CountedIs(nodes: seq<PolygonNode>, s: Store, i: nat)
    requires Output.Valid(s) && i < |nodes| == |s| && Counting(nodes, s, 0)
    requires s[i].active ==> s[i].hole.Some?
    ensures nodes[i].active > 0 <==> Valued(s[i])
    ensures Valued(s[i]) ==>
      nodes[i].active == |s[i].verts| > 0 && nodes[i].proxy == nodes[i] && s[i].hole == Some(nodes[i].hole)
  {
    assert Counted(nodes[i], s[i], nodes);
  }

  lemma NextCount(s: Store, i: nat)
    requires i <= |s|
    ensures i == |s| ==> Results.CountContours(s[i..]) == 0
    ensures i < |s| ==>
              Results.CountContours(s[i..]) == Results.CountContours(s[i + 1..]) + if Valued(s[i]) then 1 else 0
    ensures s[0..] == s
  {
    if i < |s| {
      assert s[i..][1..] == s[i + 1..];
    }
  }

  lemma NextContour(s: Store, i: nat)
    requires i <= |s|
    ensures i == |s| ==> Extract(s[i..]) == []
    ensures i < |s| ==> Extract(s[i..]) == Extract(s[i + 1..]) + if Valued(s[i]) then [ContourOf(s[i])] else []
    ensures s[0..] == s
  {
    if i < |s| {
      assert s[i..][1..] == s[i + 1..];
    }
  }

  lemma ContourIs(c: Poly)
    ensures ContourOf(c) == ResultContour(c.hole == Some(true), Reversed(c.verts))
  {
  }

  lemma StoreGrows(s: Store, pt: Point)
    requires Output.Valid(s)
    ensures Output.Valid(Output.AddLocalMin(s, pt))
  {
  }

  lemma LinkedGrows(nodes: seq<PolygonNode>, head: PolygonNode?, p: PolygonNode)
    requires Linked(nodes, head) && p !in nodes && p.next == head
    ensures Linked(nodes + [p], p)
  {
    hide Linked;
    var nodes' := nodes + [p];
    forall i, j | 0 <= i < j < |nodes'|
      ensures nodes'[i] != nodes'[j]
    {
      if j < |nodes| {
        LinkedAt(nodes, head, i, j);
      } else {
        assert nodes'[i] in nodes;
      }
    }
    forall i | 0 <= i < |nodes'|
      ensures nodes'[i].next == if i == 0 then null else nodes'[i - 1]
    {
      if i < |nodes| {
        NextIs(nodes, head, i);
      } else {
        HeadIs(nodes, head);
      }
    }
    NowLinked(nodes', p);
  }

  lemma NowLinked(nodes: seq<PolygonNode>, head: PolygonNode?)
    requires forall i, j :: 0 <= i < j < |nodes| ==> nodes[i] != nodes[j]
    requires head == if nodes == [] then null else nodes[|nodes| - 1]
    requires forall i :: 0 <= i < |nodes| ==> nodes[i].next == if i == 0 then null else nodes[i - 1]
    ensures Linked(nodes, head)
  {
  }

  lemma MirrorGrows(nodes: seq<PolygonNode>, s: Store, p: PolygonNode, pt: Point)
    requires AllMirror(nodes, s) && p.proxy == p && p.active == 1
    ensures AllMirror(nodes + [p], Output.AddLocalMin(s, pt))
  {
    var nodes', t := nodes + [p], Output.AddLocalMin(s, pt);
    forall i | 0 <= i < |nodes'|
      ensures Mirrors(nodes'[i], t[i], nodes')
    {
      assert i < |nodes| ==> Mirrors(nodes[i], s[i], nodes);
    }
  }

  lemma ThreadGrows(nodes: seq<PolygonNode>, ls: seq<seq<VertexNode>>, s: Store, vertices: set<VertexNode>,
                    p: PolygonNode, nv: VertexNode, pt: Point)
    requires AllThreaded(nodes, ls, s, vertices) && p.left == p.right == nv
    requires nv.owner == |nodes| && nv.next == null && Point(nv.x, nv.y) == pt
    ensures AllThreaded(nodes + [p], ls + [[nv]], Output.AddLocalMin(s, pt), vertices + {nv})
  {
    hide Threaded;
    var nodes', ls', t := nodes + [p], ls + [[nv]], Output.AddLocalMin(s, pt);
    OneThreaded(nv, pt, |nodes|);
    forall i | 0 <= i < |nodes'|
      ensures ListIn(ls'[i], vertices + {nv}) && Threaded(ls'[i], t[i].verts, i, null) && Ends(nodes'[i], ls'[i])
    {
      if i < |nodes| {
        ThreadOf(nodes, ls, s, vertices, i);
      }
    }
  }

  lemma OneThreaded(nv: VertexNode, pt: Point, owner: nat)
    requires nv.owner == owner && nv.next == null && Point(nv.x, nv.y) == pt
    ensures Threaded([nv], [pt], owner, null)
  {
  }

  lemma AddRightIs(s: Store, k: nat, pt: Point)
    requires Output.Valid(s) && k < |s|
    ensures var r := s[k].proxy; var t := Output.AddRight(s, k, pt);
            Output.Valid(t) && t == s[r := s[r].(verts := s[r].verts + [pt])]
  {
    AddKeepsOthers(s, End(k, Right), pt);
  }

  lemma HeadIs(nodes: seq<PolygonNode>, head: PolygonNode?)
    requires Linked(nodes, head)
    ensures head == if nodes == [] then null else nodes[|nodes| - 1]
  {
  }

  lemma NextIs(nodes: seq<PolygonNode>, head: PolygonNode?, i: nat)
    requires Linked(nodes, head) && i < |nodes|
    ensures nodes[i].next == if i == 0 then null else nodes[i - 1]
  {
  }

  function Redirected(c: Poly, rp: nat, rq: nat): Poly {
    if c.proxy == rp then c.(proxy := rq, active := false) else c
  }

  lemma ProxyIs(node: PolygonNode, c: Poly, nodes: seq<PolygonNode>, head: PolygonNode?, rp: nat)
    requires Mirrors(node, c, nodes) && Linked(nodes, head) && rp < |nodes|
    ensures node.proxy == nodes[rp] <==> c.proxy == rp
    ensures c.proxy < |nodes| && node.proxy == nodes[c.proxy] && node.active == Active(c)
    ensures c.hole.Some? ==> node.hole == c.hole.value
  {
  }

  lemma NowRedirected(node: PolygonNode, c: Poly, nodes: seq<PolygonNode>, rp: nat, rq: nat)
    requires c.proxy < |nodes| && rq < |nodes|
    requires node.proxy == (if c.proxy == rp then nodes[rq] else nodes[c.proxy])
    requires node.active == (if c.proxy == rp then 0 else Active(c)) && (c.hole.Some? ==> node.hole == c.hole.value)
    ensures Mirrors(node, Redirected(c, rp, rq), nodes)
  {
  }

  lemma AddLeftIs(s: Store, k: nat, pt: Point)
    requires Output.Valid(s) && k < |s|
    ensures var r := s[k].proxy; var t := Output.AddLeft(s, k, pt);
            Output.Valid(t) && t == s[r := s[r].(verts := [pt] + s[r].verts)]
  {
    AddKeepsOthers(s, End(k, Left), pt);
  }
}
