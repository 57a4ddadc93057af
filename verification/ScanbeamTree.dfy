/**
 The scanbeam tree: vertex heights are collected in a binary search tree
 (`add_to_sbtree`) and read off into the scanbeam table (`build_sbt`).
 */
module ScanbeamTree {

  datatype Tree = Nil | Node(y: real, less: Tree, more: Tree)

  ghost function HeightsOf(t: Tree): set<real> {
    match t
    case Nil => {}
    case Node(y, less, more) => {y} + HeightsOf(less) + HeightsOf(more)
  }

  function Size(t: Tree): nat {
    match t
    case Nil => 0
    case Node(_, less, more) => 1 + Size(less) + Size(more)
  }

  ghost predicate Ordered(t: Tree) {
    t.Node? ==>
      && Ordered(t.less) && Ordered(t.more)
      && (forall h :: h in HeightsOf(t.less) ==> h < t.y)
      && (forall h :: h in HeightsOf(t.more) ==> h > t.y)
  }

  /** Adds a height unless it is there already, and counts the nodes. */
  function AddToSbtree(entries: nat, t: Tree, y: real): (nat, Tree) {
    match t
    case Nil => (entries + 1, Node(y, Nil, Nil))
    case Node(h, less, more) =>
      if h > y then
        var (n, l) := AddToSbtree(entries, less, y); (n, Node(h, l, more))
      else if h < y then
        var (n, m) := AddToSbtree(entries, more, y); (n, Node(h, less, m))
      else (entries, t)
  }

  /** The tree stays a search tree and gains just the new height; `entries` counts the
      nodes added, none if the height was there. */
  lemma {:induction false} AddKeepsOrder(entries: nat, t: Tree, y: real)
    requires Ordered(t)
    ensures var (n, t') := AddToSbtree(entries, t, y);
            && Ordered(t') && HeightsOf(t') == HeightsOf(t) + {y}
            && n - entries == Size(t') - Size(t) == if y in HeightsOf(t) then 0 else 1
    decreases t
  {
    if t.Node? {
      if t.y > y {
        AddKeepsOrder(entries, t.less, y);
        assert y !in HeightsOf(t.more);
      } else if t.y < y {
        AddKeepsOrder(entries, t.more, y);
        assert y !in HeightsOf(t.less);
      }
    }
  }

  /** The distinct heights `hs`, in increasing order. */
  ghost predicate Listing(s: seq<real>, hs: set<real>) {
    && (forall i, j :: 0 <= i < j < |s| ==> s[i] < s[j])
    && (forall h :: h in s <==> h in hs)
  }

  lemma ListingJoin(a: seq<real>, y: real, b: seq<real>, less: set<real>, more: set<real>)
    requires Listing(a, less) && Listing(b, more)
    requires (forall h :: h in less ==> h < y) && (forall h :: h in more ==> h > y)
    ensures Listing(a + [y] + b, {y} + less + more)
  {
    var s := a + [y] + b;
    forall i | 0 <= i < |a|
      ensures a[i] < y
    {
      assert a[i] in a;
    }
    forall i | 0 <= i < |b|
      ensures b[i] > y
    {
      assert b[i] in b;
    }
    forall h
      ensures h in s <==> h in {y} + less + more
    {
      assert h in s <==> h in a || h == y || h in b;
    }
  }

  /** A listing has one entry for each height. */
  lemma {:induction false} ListingSize(s: seq<real>, hs: set<real>)
    requires Listing(s, hs)
    ensures |s| == |hs|
    decreases |s|
  {
    if s == [] {
      assert hs == {} by {
        assert forall h :: h in hs ==> h in s;
      }
    } else {
      var n := |s| - 1;
      var r := s[..n];
      assert s == r + [s[n]];
      assert s[n] in s;
      forall h
        ensures h in r <==> h in hs - {s[n]}
      {
        assert h in s <==> h in r || h == s[n];
        assert h in r ==> h < s[n];
      }
      ListingSize(r, hs - {s[n]});
    }
  }

  lemma NothingListed()
    ensures Listing([], {})
  {
  }

  lemma Cut(s: seq<real>, from: nat, mid: nat, to: nat)
    requires from <= mid < to <= |s|
    ensures s[from..to] == s[from..mid] + [s[mid]] + s[mid + 1..to]
  {
  }

  lemma SamePart(s: seq<real>, t: seq<real>, from: nat, to: nat)
    requires from <= to <= |s| == |t| && forall i :: from <= i < to ==> s[i] == t[i]
    ensures s[from..to] == t[from..to]
  {
  }

  /** Lists the heights into `sbt` from place `entries` on, where there is just enough
      room for them. */
  method BuildSbt(entries: nat, sbt: array<real>, t: Tree) returns (entries': nat)
    requires Ordered(t) && entries + Size(t) <= sbt.Length
    modifies sbt
    ensures entries' == entries + Size(t) && Listing(sbt[..][entries..entries'], HeightsOf(t))
    ensures forall i :: 0 <= i < sbt.Length && !(entries <= i < entries') ==> sbt[i] == old(sbt[i])
    decreases t
  {
    hide Listing;
    entries' := entries;
    if t == Nil {
      assert sbt[..][entries..entries] == [];
      NothingListed();
    } else {
      entries' := BuildSbt(entries', sbt, t.less);
      ghost var mid, s := entries', sbt[..];
      sbt[entries'] := t.y;
      entries' := entries' + 1;
      entries' := BuildSbt(entries', sbt, t.more);
      SamePart(sbt[..], s, entries, mid);
      Cut(sbt[..], entries, mid, entries');
      ListingJoin(s[entries..mid], t.y, sbt[..][mid + 1..entries'], HeightsOf(t.less), HeightsOf(t.more));
    }
  }

  /** The scanbeam table: every recorded height once, in increasing order. */
  method ScanbeamTable(entries: nat, t: Tree) returns (ys: seq<real>)
    requires Ordered(t) && entries == Size(t)
    ensures Listing(ys, HeightsOf(t)) && |ys| == entries
  {
    var sbt := new real[entries];
    var n := BuildSbt(0, sbt, t);
    ys := sbt[..];
    assert ys[0..n] == ys;
  }
}
