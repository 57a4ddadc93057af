/** What becomes of the active edge table between two scanbeam boundaries. */
module ActiveTable {
  import opened Base
  import opened Edges
  import opened Bundling

  /** An edge as `build_lmt` leaves it.  Fields that the program leaves unset, or sets
      before it reads them, hold arbitrary values. */
  function NewEdge(op: Op, t: Table, id: nat): Edge
    requires id < |t|
  {
    var x := t[id].seg.bot.x;
    Edge(id, t[id], x, x, NO_FLAGS, NO_FLAGS, StartParity(op), Unbundled, Unbundled, None, None)
  }

  /** An edge that begins a bound: nothing of it is below the boundary. */
  predicate Begins(t: Table, e: Edge) {
    && e.id < |t| && e.info == t[e.id] && e.xb == e.info.seg.bot.x
    && e.below == NO_FLAGS && e.stateBelow == Unbundled && e.outBelow.None? && e.outAbove.None?
  }

  /** The order of insertion: by `xb`, then by slope. */
  predicate Precedes(e: Edge, f: Edge) {
    e.xb < f.xb || (e.xb == f.xb && e.info.seg.dx < f.info.seg.dx)
  }

  /** In order by place, and at the same place by slope. */
  ghost predicate LeftToRight(s: seq<Edge>) {
    forall i, j :: 0 <= i < j < |s| ==> NotRightOf(s[i], s[j])
  }

  predicate NotRightOf(e: Edge, f: Edge) {
    e.xb < f.xb || (e.xb == f.xb && e.info.seg.dx <= f.info.seg.dx)
  }

  /** None of the edges of `s` must stand to the right of `e`. */
  ghost predicate NoneRightOf(s: seq<Edge>, e: Edge) {
    forall i :: 0 <= i < |s| ==> NotRightOf(s[i], e)
  }

  /** Of two edges of such a row that start at one point, the first is nowhere to the right of the
      other above it, and strictly to its left unless they coincide. */
  lemma LeftToRightAbove(s: seq<Edge>, i: nat, j: nat, y: real)
    requires LeftToRight(s) && i < j < |s| && s[i].xb == s[j].xb && s[i].info.seg.bot == s[j].info.seg.bot
    requires y > s[i].BotY()
    ensures s[i].info.seg.XAt(y) <= s[j].info.seg.XAt(y)
    ensures s[i].info.seg.XAt(y) == s[j].info.seg.XAt(y) <==> s[i].info.seg.dx == s[j].info.seg.dx
  {
    assert NotRightOf(s[i], s[j]);
    var d, e, h := s[i].info.seg.dx, s[j].info.seg.dx, y - s[i].BotY();
    assert (e - d) * h == e * h - d * h;
  }

  /** Inserts an edge before the first one that it precedes: by place, then by slope. */
  method AddEdgeToAet(aet: seq<Edge>, e: Edge) returns (aet': seq<Edge>, ghost k: nat)
    requires BottomSorted(aet)
    ensures k <= |aet| && aet' == aet[..k] + [e] + aet[k..]
    ensures forall i :: 0 <= i < k ==>
      aet[i].xb < e.xb || (aet[i].xb == e.xb && aet[i].info.seg.dx <= e.info.seg.dx)
    ensures k < |aet| ==> e.xb < aet[k].xb || (e.xb == aet[k].xb && e.info.seg.dx < aet[k].info.seg.dx)
    ensures BottomSorted(aet')
    ensures LeftToRight(aet) ==> LeftToRight(aet')
  {
    var i := 0;
    while i < |aet| && !Precedes(e, aet[i])
      invariant 0 <= i <= |aet|
      invariant forall j :: 0 <= j < i ==> !Precedes(e, aet[j])
    {
      i := i + 1;
    }
    k := i;
    aet' := aet[..i] + [e] + aet[i..];
    AddedSorted(aet, e, i);
    if LeftToRight(aet) {
      AddedLeftToRight(aet, e, i);
    }
  }

  lemma AddedAt(s: seq<Edge>, e: Edge, k: nat, i: nat)
    requires k <= |s| && i <= |s|
    ensures (s[..k] + [e] + s[k..])[i] == if i < k then s[i] else if i == k then e else s[i - 1]
  {
  }

  lemma AddedSorted(s: seq<Edge>, e: Edge, k: nat)
    requires BottomSorted(s) && k <= |s|
    requires forall i :: 0 <= i < k ==> s[i].xb <= e.xb
    requires k < |s| ==> e.xb <= s[k].xb
    ensures BottomSorted(s[..k] + [e] + s[k..])
  {
    var r := s[..k] + [e] + s[k..];
    forall i, j | 0 <= i < j < |r|
      ensures r[i].xb <= r[j].xb
    {
      AddedAt(s, e, k, i);
      AddedAt(s, e, k, j);
    }
  }

  lemma AddedLeftToRight(s: seq<Edge>, e: Edge, k: nat)
    requires LeftToRight(s) && k <= |s|
    requires forall i :: 0 <= i < k ==> NotRightOf(s[i], e)
    requires k < |s| ==> NotRightOf(e, s[k])
    ensures LeftToRight(s[..k] + [e] + s[k..])
  {
    var r := s[..k] + [e] + s[k..];
    forall i, j | 0 <= i < j < |r|
      ensures NotRightOf(r[i], r[j])
    {
      AddedAt(s, e, k, i);
      AddedAt(s, e, k, j);
      if i == k && j > k + 1 {
        assert NotRightOf(s[k], s[j - 1]);
      }
    }
  }

  /** The step of the search: if it goes on behind edge k, that edge is not right of `e`. */
  lemma NoneRightOfNext(s: seq<Edge>, e: Edge, k: nat, at: nat)
    requires k < at <= |s| && !Precedes(e, s[k])
    ensures NoneRightOf(s[k + 1..at], e) ==> NoneRightOf(s[k..at], e)
    ensures NoneRightOf(s[..k], e) ==> NoneRightOf(s[..k + 1], e)
  {
    if NoneRightOf(s[k + 1..at], e) {
      assert forall i :: k < i < at ==> s[i] == s[k + 1..at][i - k - 1];
    }
  }

  /** Where the search ends. */
  lemma AddedInOrder(s: seq<Edge>, e: Edge, k: nat)
    requires k <= |s| && (k < |s| ==> Precedes(e, s[k]))
    ensures NoneRightOf(s[k..k], e) && (k < |s| ==> !NotRightOf(s[k], e))
    ensures LeftToRight(s) && NoneRightOf(s[..k], e) ==> LeftToRight(s[..k] + [e] + s[k..])
  {
    hide LeftToRight;
    if LeftToRight(s) && NoneRightOf(s[..k], e) {
      assert forall i :: 0 <= i < k ==> s[i] == s[..k][i];
      AddedLeftToRight(s, e, k);
    }
  }

  /** Deletion leaves everything above the boundary as it is. */
  predicate SameAbove(e: Edge, f: Edge) {
    f == e.(xt := f.xt, outBelow := f.outBelow, stateBelow := f.stateBelow)
  }

  function TopX(yt: real, e: Edge): real {
    if e.TopY() == yt then e.info.seg.top.x else e.info.seg.XAt(yt)
  }

  /** What one edge adds to the edges `kept` so far.  A deleted bundle head hands its lower
      pointer to the tail next to it, which heads the rest of the bundle or is left alone. */
  function Retain(yb: real, yt: real, kept: seq<Edge>, e: Edge): seq<Edge> {
    if e.TopY() != yb then kept + [e.(xt := TopX(yt, e))]
    else if e.stateBelow == BundleHead && kept != [] then HandDown(kept, e)
    else kept
  }

  function HandDown(kept: seq<Edge>, h: Edge): seq<Edge>
    requires kept != []
  {
    var n := |kept|;
    if kept[n - 1].stateBelow == BundleTail then
      var state := if n > 1 && kept[n - 2].stateBelow == BundleTail then BundleHead else Unbundled;
      kept[n - 1 := kept[n - 1].(outBelow := h.outBelow, stateBelow := state)]
    else kept
  }

  /** The edges that are left of a row at the boundary `yb`. */
  function Retained(yb: real, yt: real, s: seq<Edge>): seq<Edge>
    decreases |s|
  {
    if s == [] then [] else Retain(yb, yt, Retained(yb, yt, s[..|s| - 1]), s[|s| - 1])
  }

  /** Exactly the edges that go on are left, with their place at `yt`, and with everything that
      belongs to them above the boundary. */
  lemma {:induction false} RetainedIsLive(yb: real, yt: real, s: seq<Edge>)
    ensures var (live, kept) := (Live(yb, s), Retained(yb, yt, s));
            && |kept| == |live|
            && forall i :: 0 <= i < |live| ==> SameAbove(live[i], kept[i]) && kept[i].xt == TopX(yt, live[i])
    decreases |s|
  {
    hide Live;
    if s == [] {
      assert Live(yb, s) == [] by { NoneLive(yb, s); }
    } else {
      var k := |s| - 1;
      RetainedIsLive(yb, yt, s[..k]);
      LiveAppend(yb, s, k);
      assert s[..k + 1] == s;
    }
  }

  /** Below the boundary, a tail whose head is deleted takes over the head's pointer; it becomes the
      head of the tails before it, or is left alone.  No other deletion changes an edge. */
  lemma HeadHandsDown(yb: real, yt: real, s: seq<Edge>, e: Edge, h: Edge)
    requires e.TopY() != yb && h.TopY() == yb
    ensures var (before, kept) := (Retained(yb, yt, s), Retained(yb, yt, s + [e, h]));
            var moved := e.(xt := TopX(yt, e));
            kept == before +
              if e.stateBelow == BundleTail && h.stateBelow == BundleHead then
                [moved.(outBelow := h.outBelow,
                        stateBelow := if before != [] && before[|before| - 1].stateBelow == BundleTail then BundleHead
                                      else Unbundled)]
              else [moved]
  {
    assert (s + [e, h])[..|s| + 1] == s + [e] && (s + [e])[..|s|] == s;
    assert Retained(yb, yt, s + [e]) == Retained(yb, yt, s) + [e.(xt := TopX(yt, e))];
  }

  /** Deletes the edges that end at `yb` and sets the others' place at `yt`. */
  method DeleteTerminating(yb: real, yt: real, aet: seq<Edge>) returns (kept: seq<Edge>)
    ensures kept == Retained(yb, yt, aet)
    ensures var live := Live(yb, aet);
            && |kept| == |live|
            && forall i :: 0 <= i < |live| ==> SameAbove(live[i], kept[i]) && kept[i].xt == TopX(yt, live[i])
  {
    kept := [];
    for k := 0 to |aet|
      invariant kept == Retained(yb, yt, aet[..k])
    {
      var e := aet[k];
      assert aet[..k + 1][..k] == aet[..k];
      if e.TopY() == yb {
        var n := |kept|;
        if e.stateBelow == BundleHead && n > 0 && kept[n - 1].stateBelow == BundleTail {
          var state := if n > 1 && kept[n - 2].stateBelow == BundleTail then BundleHead else Unbundled;
          kept := kept[n - 1 := kept[n - 1].(outBelow := e.outBelow, stateBelow := state)];
        }
      } else {
        kept := kept + [e.(xt := TopX(yt, e))];
      }
    }
    assert aet[..|aet|] == aet;
    RetainedIsLive(yb, yt, aet);
  }

  /** The edge's successor, if it ends at `yt` and has one; else the edge itself, moved up. */
  function NextEdge(op: Op, t: Table, yt: real, e: Edge): Edge {
    if e.TopY() == yt && e.info.succ.Some? && e.info.succ.value < |t| then
      NewEdge(op, t, e.info.succ.value).(outBelow := e.outAbove, stateBelow := e.stateAbove, below := e.above)
    else
      e.(outBelow := e.outAbove, stateBelow := e.stateAbove, below := e.above, xb := e.xt, outAbove := None)
  }

  /** What `e` had above the scanbeam, `f` has below the next boundary, and it stands where `e`
      arrives, as the same edge or as the one that follows it. */
  predicate TakesOver(t: Table, yt: real, e: Edge, f: Edge) {
    && f.below == e.above && f.stateBelow == e.stateAbove && f.outBelow == e.outAbove && f.outAbove.None?
    && if e.TopY() == yt && e.info.succ.Some? && e.info.succ.value < |t| then
         f.id == e.info.succ.value && f.info == t[f.id] && f.xb == f.info.seg.bot.x
       else
         f.id == e.id && f.info == e.info && f.xb == e.xt
  }

  /** Makes the row above the scanbeam the row below the next boundary. */
  method PrepareNext(op: Op, t: Table, yt: real, aet: seq<Edge>) returns (next: seq<Edge>)
    ensures |next| == |aet| && forall i :: 0 <= i < |aet| ==> next[i] == NextEdge(op, t, yt, aet[i])
    ensures forall i :: 0 <= i < |aet| ==> TakesOver(t, yt, aet[i], next[i])
  {
    next := [];
    for k := 0 to |aet|
      invariant |next| == k && forall i :: 0 <= i < k ==> next[i] == NextEdge(op, t, yt, aet[i])
    {
      next := next + [NextEdge(op, t, yt, aet[k])];
    }
  }
}
