/**
 Bundling at a scanbeam boundary: an edge that goes on upwards is bundled with the
 last such edge to its left if the two coincide.
 */
module Bundling {
  import opened Base
  import opened Edges
  import opened Strands

  /** The edge does not end at height `y`. */
  predicate GoesOn(y: real, e: Edge) {
    e.TopY() != y
  }

  function Live(y: real, s: seq<Edge>): seq<Edge>
    decreases |s|
  {
    if s == [] then [] else IfLive(y, s[0]) + Live(y, s[1..])
  }

  function IfLive(y: real, e: Edge): seq<Edge> {
    if GoesOn(y, e) then [e] else []
  }

  lemma {:induction false} LiveConcat(y: real, a: seq<Edge>, b: seq<Edge>)
    ensures Live(y, a + b) == Live(y, a) + Live(y, b)
    decreases |a|
  {
    hide IfLive;
    if a == [] {
      assert a + b == b;
    } else {
      assert a + b == [a[0]] + (a[1..] + b);
      LiveConcat(y, a[1..], b);
      assert Live(y, a + b) == IfLive(y, a[0]) + Live(y, a[1..] + b);
    }
  }

  lemma {:induction false} NoneLive(y: real, s: seq<Edge>)
    requires forall i :: 0 <= i < |s| ==> !GoesOn(y, s[i])
    ensures Live(y, s) == []
    decreases |s|
  {
    if s != [] {
      NoneLive(y, s[1..]);
    }
  }

  lemma {:induction false} LiveMember(y: real, s: seq<Edge>, e: Edge)
    ensures e in Live(y, s) <==> e in s && GoesOn(y, e)
    decreases |s|
  {
    if s != [] {
      LiveMember(y, s[1..], e);
    }
  }

  /** The parity to the right of edges that each toggle their own polygon's flag. */
  function UnitParity(p: Flags, s: seq<Edge>): Flags
    decreases |s|
  {
    if s == [] then p else UnitParity(p.Toggle(Unit(s[0].info.kind)), s[1..])
  }

  lemma {:induction false} UnitParityConcat(p: Flags, a: seq<Edge>, b: seq<Edge>)
    ensures UnitParity(p, a + b) == UnitParity(UnitParity(p, a), b)
    decreases |a|
  {
    if a == [] {
      assert a + b == b;
    } else {
      assert (a + b)[1..] == a[1..] + b;
      UnitParityConcat(p.Toggle(Unit(a[0].info.kind)), a[1..], b);
    }
  }

  /** Bundling changes only the flags and the state above the boundary. */
  predicate SameButBundles(e: Edge, f: Edge) {
    f == e.(above := f.above, stateAbove := f.stateAbove)
  }

  predicate Coincide(e: Edge, f: Edge) {
    e.xb == f.xb && e.info.seg.dx == f.info.seg.dx
  }

  /** The bundle state of place `i` in a row of live edges: coincident neighbours, and
      only they, are bundled. */
  function StateOf(s: seq<Edge>, i: nat): BundleState
    requires i < |s|
  {
    if i + 1 < |s| && Coincide(s[i], s[i + 1]) then BundleTail
    else if i > 0 && Coincide(s[i - 1], s[i]) then BundleHead
    else Unbundled
  }

  /** Live edges whose bundles are well formed. */
  ghost predicate Linked(s: seq<Edge>) {
    forall i :: 0 <= i < |s| ==> LinkedAt(s, i)
  }

  ghost predicate LinkedAt(s: seq<Edge>, i: nat)
    requires i < |s|
  {
    && s[i].stateAbove == StateOf(s, i)
    && (s[i].stateAbove == BundleTail ==> s[i].above == NO_FLAGS)
    && (s[i].stateAbove == Unbundled ==> s[i].above == Unit(s[i].info.kind))
  }

  /** The marks in a row of live edges: a tail stands just before an edge of its own place and
      slope, a head just behind one, but not before one. */
  ghost predicate Marked(s: seq<Edge>) {
    forall i :: 0 <= i < |s| ==> MarkedAt(s, i)
  }

  predicate MarkedAt(s: seq<Edge>, i: nat)
    requires i < |s|
  {
    var before := i > 0 && s[i - 1].xb == s[i].xb && s[i - 1].info.seg.dx == s[i].info.seg.dx;
    var behind := i + 1 < |s| && s[i].xb == s[i + 1].xb && s[i].info.seg.dx == s[i + 1].info.seg.dx;
    && (s[i].stateAbove == BundleTail <==> behind)
    && (s[i].stateAbove == BundleHead <==> before && !behind)
    && (s[i].stateAbove == Unbundled <==> !before && !behind)
  }

  lemma LinkedIsMarked(s: seq<Edge>)
    requires Linked(s)
    ensures Marked(s)
  {
    forall i | 0 <= i < |s|
      ensures MarkedAt(s, i)
    {
      assert LinkedAt(s, i);
    }
  }

  /** Each head, and each edge on its own, toggles as much as the edges of its bundle do;
      `owed` is what the tails just to the left leave to it. */
  ghost predicate Balanced(owed: Flags, s: seq<Edge>)
    decreases |s|
  {
    if s == [] then owed == NO_FLAGS
    else
      var units := owed.Toggle(Unit(s[0].info.kind));
      if s[0].stateAbove == BundleTail then s[0].above == NO_FLAGS && Balanced(units, s[1..])
      else s[0].above == units && Balanced(NO_FLAGS, s[1..])
  }

  /** What bundling achieves. */
  ghost predicate BundledAt(yb: real, s: seq<Edge>, t: seq<Edge>) {
    && |t| == |s|
    && (forall i :: 0 <= i < |s| ==> SameButBundles(s[i], t[i]))
    && (forall i :: 0 <= i < |s| && !GoesOn(yb, s[i]) ==> t[i].above == NO_FLAGS)
    && Linked(Live(yb, t)) && Balanced(NO_FLAGS, Live(yb, t))
  }

  /** The state of the loop when `k` edges are set up and `e0` is the last live one. */
  ghost predicate Inv(yb: real, s: seq<Edge>, t: seq<Edge>, k: nat, e0: nat) {
    && |t| == |s| && e0 < k <= |s|
    && (forall i :: 0 <= i < k ==> SameButBundles(s[i], t[i]))
    && (forall i :: k <= i < |s| ==> t[i] == s[i])
    && (forall i :: 0 <= i < k && !GoesOn(yb, s[i]) ==> t[i].above == NO_FLAGS)
    && (forall i :: e0 < i < k ==> !GoesOn(yb, s[i]))
    && (GoesOn(yb, s[e0]) || e0 == 0)
    && Linked(Live(yb, t[..k])) && Balanced(NO_FLAGS, Live(yb, t[..k]))
  }

  function SetUp(yb: real, e: Edge): Edge {
    e.(above := if GoesOn(yb, e) then Unit(e.info.kind) else NO_FLAGS, stateAbove := Unbundled)
  }

  /** The flags of a head that takes over those of the edge `e0` before it. */
  function TakeOver(kind: Kind, own: Flags, e0: Flags): Flags {
    if kind == Clip then Flags(own.clip != e0.clip, e0.subj) else Flags(e0.clip, own.subj != e0.subj)
  }

  /** The last live edge comes last. */
  lemma LastLive(yb: real, t: seq<Edge>, k: nat, e0: nat)
    requires e0 < k <= |t| && GoesOn(yb, t[e0])
    requires forall i :: e0 < i < k ==> !GoesOn(yb, t[i])
    ensures Live(yb, t[..k]) == Live(yb, t[..e0]) + [t[e0]]
  {
    assert t[..k] == t[..e0] + ([t[e0]] + t[e0 + 1..k]);
    LiveConcat(yb, t[..e0], [t[e0]] + t[e0 + 1..k]);
    LiveConcat(yb, [t[e0]], t[e0 + 1..k]);
    NoneLive(yb, t[e0 + 1..k]);
    assert Live(yb, [t[e0]]) == [t[e0]] + Live(yb, [t[e0]][1..]);
  }

  lemma LiveAppend(yb: real, t: seq<Edge>, k: nat)
    requires k < |t|
    ensures Live(yb, t[..k + 1]) == Live(yb, t[..k]) + if GoesOn(yb, t[k]) then [t[k]] else []
  {
    assert t[..k + 1] == t[..k] + [t[k]];
    LiveConcat(yb, t[..k], [t[k]]);
  }

  /** A balanced row changes the parity as its edges do. */
  lemma {:induction false} BalancedParity(owed: Flags, p: Flags, s: seq<Edge>)
    requires Balanced(owed, s)
    ensures UnitParity(p.Toggle(owed), s) == ParityAfter(p, Aboves(s))
    decreases |s|
  {
    if s != [] {
      var units := owed.Toggle(Unit(s[0].info.kind));
      assert Aboves(s)[1..] == Aboves(s[1..]);
      assert p.Toggle(owed).Toggle(Unit(s[0].info.kind)) == p.Toggle(units);
      if s[0].stateAbove == BundleTail {
        BalancedParity(units, p, s[1..]);
      } else {
        BalancedParity(NO_FLAGS, p.Toggle(units), s[1..]);
        assert p.Toggle(units).Toggle(NO_FLAGS) == p.Toggle(units);
      }
    } else {
      assert p.Toggle(owed) == p;
    }
  }

  /** A balanced row can be cut behind a bundle. */
  lemma {:induction false} BalancedPrefix(owed: Flags, s: seq<Edge>, i: nat)
    requires Balanced(owed, s) && 0 < i <= |s| && s[i - 1].stateAbove != BundleTail
    ensures Balanced(owed, s[..i])
    decreases |s|
  {
    assert s[..i][1..] == s[1..][..i - 1];
    if i > 1 {
      BalancedPrefix(
        if s[0].stateAbove == BundleTail then owed.Toggle(Unit(s[0].info.kind)) else NO_FLAGS, s[1..], i - 1);
    }
  }

  /** An edge that does not coincide with the one before it stays on its own. */
  lemma LinkedAppend(a: seq<Edge>, f: Edge)
    requires Linked(a) && (a != [] ==> !Coincide(a[|a| - 1], f))
    requires f.stateAbove == Unbundled && f.above == Unit(f.info.kind)
    ensures Linked(a + [f])
  {
    var t := a + [f];
    forall i | 0 <= i < |t|
      ensures LinkedAt(t, i)
    {
      assert i < |a| ==> LinkedAt(a, i);
    }
  }

  lemma {:induction false} BalancedAppend(owed: Flags, a: seq<Edge>, f: Edge)
    requires Balanced(owed, a) && f.stateAbove == Unbundled && f.above == Unit(f.info.kind)
    ensures Balanced(owed, a + [f])
    decreases |a|
  {
    if a != [] {
      assert (a + [f])[1..] == a[1..] + [f];
      BalancedAppend(if a[0].stateAbove == BundleTail then owed.Toggle(Unit(a[0].info.kind)) else NO_FLAGS, a[1..], f);
    } else {
      assert [] + [f] == [f];
    }
  }

  /** An edge is set up on its own. */
  lemma SetUpKeeps(yb: real, s: seq<Edge>, t: seq<Edge>, k: nat, e0: nat)
    requires Inv(yb, s, t, k, e0) && k < |s|
    requires !(GoesOn(yb, s[k]) && Coincide(t[e0], t[k]) && GoesOn(yb, s[e0]))
    ensures Inv(yb, s, t[k := SetUp(yb, t[k])], k + 1, if GoesOn(yb, s[k]) then k else e0)
  {
    hide Linked, Balanced;
    var f := SetUp(yb, t[k]);
    var t' := t[k := f];
    LiveAppend(yb, t', k);
    assert t'[..k] == t[..k];
    if GoesOn(yb, s[k]) {
      if GoesOn(yb, s[e0]) {
        LastLive(yb, t, k, e0);
      } else {
        NoneLive(yb, t[..k]);
      }
      LinkedAppend(Live(yb, t[..k]), f);
      BalancedAppend(NO_FLAGS, Live(yb, t[..k]), f);
    } else {
      assert Live(yb, t'[..k + 1]) == Live(yb, t[..k]);
    }
  }

  /** An edge that coincides with the one before it takes over its flags. */
  lemma LinkedBundle(a: seq<Edge>, e: Edge, f: Edge, e': Edge, f': Edge)
    requires Linked(a + [e]) && Coincide(e, f)
    requires SameButBundles(e, e') && SameButBundles(f, f')
    requires e'.above == NO_FLAGS && e'.stateAbove == BundleTail && f'.stateAbove == BundleHead
    ensures Linked(a + [e', f'])
  {
    var s, t := a + [e], a + [e', f'];
    assert s[|a|] == e && t[|a|] == e' && t[|a| + 1] == f';
    forall i | 0 <= i < |t|
      ensures LinkedAt(t, i)
    {
      if i < |a| {
        assert s[i] == t[i] && LinkedAt(s, i);
        assert SameButBundles(s[i + 1], t[i + 1]);
        assert i > 0 ==> s[i - 1] == t[i - 1];
        assert StateOf(t, i) == StateOf(s, i);
      }
    }
  }

  lemma {:induction false} BalancedBundle(owed: Flags, a: seq<Edge>, e: Edge, e': Edge, f': Edge)
    requires Balanced(owed, a + [e]) && e.stateAbove != BundleTail
    requires SameButBundles(e, e') && e'.above == NO_FLAGS && e'.stateAbove == BundleTail
    requires f'.above == Unit(f'.info.kind).Toggle(e.above) && f'.stateAbove == BundleHead
    ensures Balanced(owed, a + [e', f'])
    decreases |a|
  {
    if a != [] {
      assert (a + [e])[1..] == a[1..] + [e] && (a + [e', f'])[1..] == a[1..] + [e', f'];
      BalancedBundle(
        if a[0].stateAbove == BundleTail then owed.Toggle(Unit(a[0].info.kind)) else NO_FLAGS, a[1..], e, e', f');
    } else {
      assert [] + [e] == [e] && [] + [e', f'] == [e', f'] && [e', f'][1..] == [f'];
      assert owed.Toggle(Unit(e.info.kind)).Toggle(Unit(f'.info.kind)) == f'.above;
    }
  }

  /** The edge just set up is bundled with the last live one. */
  lemma BundleKeeps(yb: real, s: seq<Edge>, t: seq<Edge>, k: nat, e0: nat, f': Edge)
    requires Inv(yb, s, t, k, e0) && k < |s| && GoesOn(yb, s[e0]) && GoesOn(yb, s[k]) && Coincide(t[e0], t[k])
    requires SameButBundles(t[k], f') && f'.stateAbove == BundleHead
    requires f'.above == Unit(s[k].info.kind).Toggle(t[e0].above)
    ensures Inv(yb, s, t[k := f'][e0 := t[e0].(above := NO_FLAGS, stateAbove := BundleTail)], k + 1, k)
  {
    hide Balanced;
    var e' := t[e0].(above := NO_FLAGS, stateAbove := BundleTail);
    var t' := t[k := f'][e0 := e'];
    LastLive(yb, t, k, e0);
    LastLive(yb, t', k, e0);
    LiveAppend(yb, t', k);
    var a := Live(yb, t[..e0]);
    assert t'[..e0] == t[..e0];
    assert Live(yb, t'[..k + 1]) == a + [e', f'];
    assert t[e0].stateAbove != BundleTail by { assert LinkedAt(a + [t[e0]], |a|); }
    LinkedBundle(a, t[e0], t[k], e', f');
    BalancedBundle(NO_FLAGS, a, t[e0], e', f');
  }

  /** Sets up and bundles the edges of the row above height `yb`. */
  method CreateBundles(yb: real, s: seq<Edge>) returns (t: seq<Edge>)
    requires s != []
    ensures BundledAt(yb, s, t) && Marked(Live(yb, t))
  {
    hide Linked, Balanced;
    var e0 := 0;
    t := s[0 := SetUp(yb, s[0])];
    FirstSetUp(yb, s);
    for k := 1 to |s|
      invariant Inv(yb, s, t, k, e0)
    {
      var next := SetUp(yb, t[k]);
      if GoesOn(yb, next) && Coincide(t[e0], next) && GoesOn(yb, t[e0]) {
        var head := next.(
          above := TakeOver(next.info.kind, next.above, t[e0].above),
          stateAbove := BundleHead);
        BundleKeeps(yb, s, t, k, e0, head);
        t := t[k := head][e0 := t[e0].(above := NO_FLAGS, stateAbove := BundleTail)];
        e0 := k;
      } else {
        SetUpKeeps(yb, s, t, k, e0);
        t := t[k := next];
        if GoesOn(yb, next) {
          e0 := k;
        }
      }
    }
    assert t[..|t|] == t;
    LinkedIsMarked(Live(yb, t));
  }

  lemma FirstSetUp(yb: real, s: seq<Edge>)
    requires s != []
    ensures Inv(yb, s, s[0 := SetUp(yb, s[0])], 1, 0)
  {
    NothingSetUp(yb);
    hide Live, Linked, Balanced;
    var t := s[0 := SetUp(yb, s[0])];
    assert t[..0] == [];
    LiveAppend(yb, t, 0);
    if GoesOn(yb, t[0]) {
      LinkedAppend([], t[0]);
      BalancedAppend(NO_FLAGS, [], t[0]);
    }
  }

  lemma NothingSetUp(yb: real)
    ensures Live(yb, []) == [] && Linked([]) && Balanced(NO_FLAGS, [])
  {
  }
}
