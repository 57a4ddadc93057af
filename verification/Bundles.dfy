/**
 Edges that coincide above a scanbeam boundary are bundled: the last of them, the
 head, stands for all, and the others, its tails, follow it through the scanbeam.
 */
module Bundles {
  import opened Edges
  import opened Strands

  /** The edges of a row grouped into bundles, each with its head last. */
  function Group(s: seq<Edge>): (g: seq<seq<Edge>>)
    ensures forall i :: 0 <= i < |g| ==> g[i] != []
    ensures s != [] ==> g != []
  {
    if s == [] then []
    else
      var rest := Group(s[1..]);
      if s[0].stateAbove == BundleTail && rest != [] then [[s[0]] + rest[0]] + rest[1..]
      else [[s[0]]] + rest
  }

  function Flatten(g: seq<seq<Edge>>): seq<Edge> {
    if g == [] then [] else g[0] + Flatten(g[1..])
  }

  function Head(b: seq<Edge>): Edge
    requires b != []
  {
    b[|b| - 1]
  }

  lemma {:induction false} FlattenGroup(s: seq<Edge>)
    ensures Flatten(Group(s)) == s
  {
    if s != [] {
      FlattenGroup(s[1..]);
      var rest := Group(s[1..]);
      if s[0].stateAbove == BundleTail && rest != [] {
        assert Group(s)[1..] == rest[1..];
      } else {
        assert Group(s)[1..] == rest;
      }
    }
  }

  lemma {:induction false} FlattenConcat(a: seq<seq<Edge>>, b: seq<seq<Edge>>)
    ensures Flatten(a + b) == Flatten(a) + Flatten(b)
  {
    if a == [] {
      assert a + b == b;
    } else {
      assert a + b == [a[0]] + (a[1..] + b);
      FlattenConcat(a[1..], b);
      assert Flatten(a + b) == a[0] + Flatten(a[1..] + b);
    }
  }

  /** A live row whose bundles are well formed: a tail toggles nothing and is followed
      by a coincident tail or head; anything else toggles something or heads a bundle. */
  ghost predicate Bundled(s: seq<Edge>) {
    forall i :: 0 <= i < |s| ==> BundledPlace(s, i)
  }

  ghost predicate BundledPlace(s: seq<Edge>, i: nat)
    requires i < |s|
  {
    s[i].stateAbove == BundleTail ==>
      && !s[i].above.Any() && s[i].outAbove.None?
      && i + 1 < |s| && s[i + 1].stateAbove != Unbundled
      && s[i + 1].xb == s[i].xb && s[i + 1].xt == s[i].xt
  }

  /** An edge is marked as a bundle head exactly if a tail stands before it, or if it comes
      first and the row is `open` on its left. */
  ghost predicate Headed(open: bool, s: seq<Edge>)
    decreases |s|
  {
    s == [] ||
    (&& (s[0].stateAbove == BundleHead ==> open) && (s[0].stateAbove == Unbundled ==> !open)
     && Headed(s[0].stateAbove == BundleTail, s[1..]))
  }

  /** The tails of a bundle are idle and go where its head goes. */
  ghost predicate IsBundle(b: seq<Edge>) {
    && b != []
    && (forall i :: 0 <= i < |b| - 1 ==> Idle(AboveStrand(b[i])) && b[i].stateAbove == BundleTail)
    && (forall i :: 0 <= i < |b| ==> b[i].xt == Head(b).xt && b[i].xb == Head(b).xb)
    && Head(b).stateAbove != BundleTail
  }

  ghost predicate AreBundles(g: seq<seq<Edge>>) {
    forall i :: 0 <= i < |g| ==> g[i] != [] && IsBundle(g[i])
  }

  lemma BundledTail(s: seq<Edge>)
    requires Bundled(s) && s != []
    ensures Bundled(s[1..])
  {
    forall i | 0 <= i < |s[1..]|
      ensures BundledPlace(s[1..], i)
    {
      assert BundledPlace(s, i + 1);
    }
  }

  lemma {:induction false} GroupIsBundles(s: seq<Edge>)
    requires Bundled(s)
    ensures AreBundles(Group(s))
    ensures s != [] ==> Group(s)[0][0] == s[0]
  {
    if s != [] {
      assert BundledPlace(s, 0);
      assert Bundled(s[1..]) by { BundledTail(s); }
      GroupIsBundles(s[1..]);
      var rest := Group(s[1..]);
      if s[0].stateAbove == BundleTail {
        assert s[1..][0] == s[1];
        var b := [s[0]] + rest[0];
        assert IsBundle(rest[0]) && rest[0][0] == s[1];
        assert forall i :: 0 < i < |b| ==> b[i] == rest[0][i - 1];
        assert IsBundle(b);
      } else {
        assert IsBundle([s[0]]);
      }
    }
  }

  /** The heads of a row of bundles. */
  function Heads(g: seq<seq<Edge>>): (h: seq<Edge>)
    requires forall i :: 0 <= i < |g| ==> g[i] != []
    ensures |h| == |g| && forall i :: 0 <= i < |g| ==> h[i] == Head(g[i])
  {
    seq(|g|, i requires 0 <= i < |g| => Head(g[i]))
  }

  lemma AbovesConcat(a: seq<Edge>, b: seq<Edge>)
    ensures Aboves(a + b) == Aboves(a) + Aboves(b)
  {
  }

  lemma {:induction false} IdleRow(s: seq<Strand>)
    requires forall i :: 0 <= i < |s| ==> Idle(s[i])
    ensures Busy(s) == []
  {
    if s != [] {
      IdleRow(s[1..]);
    }
  }

  lemma HeadSpeaks(b: seq<Edge>)
    requires IsBundle(b)
    ensures Busy(Aboves(b)) == Busy(Aboves([Head(b)]))
  {
    var tails := b[..|b| - 1];
    assert b == tails + [Head(b)];
    AbovesConcat(tails, [Head(b)]);
    BusyConcat(Aboves(tails), Aboves([Head(b)]));
    IdleRow(Aboves(tails));
  }

  /** The heads speak for the whole row. */
  lemma {:induction false} HeadsSpeak(g: seq<seq<Edge>>)
    requires AreBundles(g)
    ensures Busy(Aboves(Flatten(g))) == Busy(Aboves(Heads(g)))
  {
    hide Busy, Idle, AboveStrand;
    if g != [] {
      var b, h := g[0], Heads(g);
      HeadSpeaks(b);
      AbovesConcat(b, Flatten(g[1..]));
      BusyConcat(Aboves(b), Aboves(Flatten(g[1..])));
      assert h == [Head(b)] + Heads(g[1..]);
      AbovesConcat([Head(b)], Heads(g[1..]));
      BusyConcat(Aboves([Head(b)]), Aboves(Heads(g[1..])));
      HeadsSpeak(g[1..]);
    }
  }

  lemma {:induction false} FlattenMember(g: seq<seq<Edge>>, e: Edge)
    ensures e in Flatten(g) <==> exists i :: 0 <= i < |g| && e in g[i]
  {
    if g != [] {
      FlattenMember(g[1..], e);
      if e in Flatten(g[1..]) {
        var i :| 0 <= i < |g[1..]| && e in g[1..][i];
        assert e in g[i + 1];
      }
      if i :| 0 <= i < |g| && e in g[i] {
        if i > 0 {
          assert e in g[1..][i - 1];
        }
      }
    }
  }

  /** Bundles in order at the top make a row in order at the top. */
  lemma {:induction false} FlattenTopSorted(g: seq<seq<Edge>>)
    requires AreBundles(g)
    requires forall i, j :: 0 <= i < j < |g| ==> Head(g[i]).xt <= Head(g[j]).xt
    ensures TopSorted(Flatten(g))
  {
    if g != [] {
      FlattenTopSorted(g[1..]);
      forall e | e in Flatten(g[1..])
        ensures Head(g[0]).xt <= e.xt
      {
        FlattenMember(g[1..], e);
        var i :| 0 <= i < |g[1..]| && e in g[1..][i];
        assert IsBundle(g[i + 1]);
      }
      var f := Flatten(g[1..]);
      assert IsBundle(g[0]);
      forall i, j | 0 <= i < j < |g[0] + f|
        ensures (g[0] + f)[i].xt <= (g[0] + f)[j].xt
      {
        assert j >= |g[0]| ==> (g[0] + f)[j] in f;
      }
    }
  }
}
