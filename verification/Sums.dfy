/** Sums over the nodes of an output store. */
module Sums {
  import opened Base
  import opened Output

  function Sum(s: Store, f: Poly -> int): int {
    if s == [] then 0 else f(s[0]) + Sum(s[1..], f)
  }

  lemma {:induction false} SumSame(s: Store, t: Store, f: Poly -> int)
    requires |s| == |t| && forall i :: 0 <= i < |s| ==> f(t[i]) == f(s[i])
    ensures Sum(s, f) == Sum(t, f)
    decreases |s|
  {
    if s != [] {
      SumSame(s[1..], t[1..], f);
    }
  }

  lemma {:induction false} SumZero(s: Store, f: Poly -> int)
    requires forall i :: 0 <= i < |s| ==> f(s[i]) == 0
    ensures Sum(s, f) == 0
    decreases |s|
  {
    if s != [] {
      SumZero(s[1..], f);
    }
  }

  /** Replacing one node. */
  lemma {:induction false} SumUpdated(s: Store, r: nat, c: Poly, f: Poly -> int)
    requires r < |s|
    ensures Sum(s[r := c], f) + f(s[r]) == Sum(s, f) + f(c)
    decreases |s|
  {
    var t := s[r := c];
    if r == 0 {
      assert t[1..] == s[1..];
    } else {
      assert t[1..] == s[1..][r - 1 := c];
      SumUpdated(s[1..], r - 1, c, f);
    }
  }

  lemma {:induction false} SumConcat(s: Store, t: Store, f: Poly -> int)
    ensures Sum(s + t, f) == Sum(s, f) + Sum(t, f)
    decreases |s|
  {
    if s == [] {
      assert s + t == t;
    } else {
      assert (s + t)[1..] == s[1..] + t;
      SumConcat(s[1..], t, f);
    }
  }

  /** What the operations do to a sum that depends on the vertices and on whether the contour
      is closed. */

  ghost predicate Shaped(f: Poly -> int) {
    && (forall c: Poly, d: Poly :: c.verts == d.verts && c.closed == d.closed ==> f(c) == f(d))
    && (forall c: Poly :: c.verts == [] ==> f(c) == 0)
  }

  lemma AddSum(s: Store, e: End, pt: Point, f: Poly -> int)
    requires Valid(s) && e.poly < |s|
    ensures var r := Rep(s, e); Sum(Add(s, e, pt), f) + f(s[r]) == Sum(s, f) + f(Add(s, e, pt)[r])
  {
    var r := Rep(s, e);
    SumUpdated(s, r, Add(s, e, pt)[r], f);
  }

  lemma AddLocalMinSum(s: Store, pt: Point, f: Poly -> int)
    ensures Sum(AddLocalMin(s, pt), f) == Sum(s, f) + f(AddLocalMin(s, pt)[|s|])
  {
    var n := AddLocalMin(s, pt)[|s|];
    assert [n][1..] == [];
    SumConcat(s, [n], f);
  }

  lemma SameShape(f: Poly -> int, c: Poly, d: Poly)
    requires Shaped(f) && c.verts == d.verts && c.closed == d.closed
    ensures f(c) == f(d)
    ensures c.verts == [] ==> f(c) == 0
  {
  }

  /** A merge that is not within one contour empties one node and fills the other. */
  lemma MergeShape(s: Store, p: nat, q: nat, side: Side)
    requires Valid(s) && p < |s| && q < |s| && s[p].proxy != s[q].proxy
    ensures var rp, rq := s[p].proxy, s[q].proxy; var t := Merge(s, p, q, side);
            var u := s[rp := s[rp].(verts := [])][rq := t[rq]];
            |t| == |u| && forall i :: 0 <= i < |s| ==> t[i].verts == u[i].verts && t[i].closed == u[i].closed
  {
  }

  lemma MergeSum(s: Store, p: nat, q: nat, side: Side, f: Poly -> int)
    requires Valid(s) && p < |s| && q < |s| && Shaped(f)
    ensures var rp, rq := s[p].proxy, s[q].proxy;
            Sum(Merge(s, p, q, side), f) + f(s[rq]) + (if rp == rq then 0 else f(s[rp]))
            == Sum(s, f) + f(Merge(s, p, q, side)[rq])
  {
    hide Shaped, Sum;
    var rp, rq := s[p].proxy, s[q].proxy;
    var t := Merge(s, p, q, side);
    if rp == rq {
      SumUpdated(s, rq, t[rq], f);
      assert s[rq := t[rq]] == t;
    } else {
      MergeShape(s, p, q, side);
      hide Merge, Valid;
      var emptied := s[rp := s[rp].(verts := [])];
      var u := emptied[rq := t[rq]];
      SumUpdated(s, rp, emptied[rp], f);
      SumUpdated(emptied, rq, t[rq], f);
      SameShape(f, emptied[rp], emptied[rp]);
      forall i | 0 <= i < |s|
        ensures f(t[i]) == f(u[i])
      {
        SameShape(f, t[i], u[i]);
      }
      SumSame(u, t, f);
    }
  }
}
