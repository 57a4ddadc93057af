/** The edges of the edge table, and the active edges that the sweep works on. */
module Edges {
  import opened Base

  /** What `build_lmt` fixes about an edge.  Edges are named by their index in the
      edge table, so `pred` and `succ` are indices. */
  datatype EdgeInfo = EdgeInfo(kind: Kind, seg: Segment, pred: Option<nat>, succ: Option<nat>)

  type Table = seq<EdgeInfo>

  datatype BundleState = Unbundled | BundleHead | BundleTail

  /** An edge of the active edge table.  `side` is the pair `bside`. */
  datatype Edge = Edge(
    id: nat,
    info: EdgeInfo,
    xb: real,
    xt: real,
    above: Flags,
    below: Flags,
    side: Flags,
    stateAbove: BundleState,
    stateBelow: BundleState,
    outAbove: Option<nat>,
    outBelow: Option<nat>)
  {
    function BotY(): real {
      info.seg.bot.y
    }

    function TopY(): real {
      info.seg.top.y
    }
  }

  ghost function Segments(t: Table): set<Segment> {
    set i | 0 <= i < |t| :: t[i].seg
  }

  /** The input side that an active edge was running along just below `y`. */
  function LowerLine(t: Table, y: real, e: Edge): Segment {
    if e.BotY() == y && e.info.pred.Some? && e.info.pred.value < |t| then t[e.info.pred.value].seg
    else e.info.seg
  }

  /** In order at the bottom of the scanbeam. */
  ghost predicate BottomSorted(s: seq<Edge>) {
    forall i, j :: 0 <= i < j < |s| ==> s[i].xb <= s[j].xb
  }

  /** In order at the top of the scanbeam. */
  ghost predicate TopSorted(s: seq<Edge>) {
    forall i, j :: 0 <= i < j < |s| ==> s[i].xt <= s[j].xt
  }

  /** The edges differ at most in bundle sides and output pointers. */
  predicate SameButPointers(e: Edge, f: Edge) {
    f == e.(side := f.side, outAbove := f.outAbove, outBelow := f.outBelow)
  }

  function Ids(s: seq<Edge>): (r: seq<nat>)
    ensures |r| == |s| && forall i :: 0 <= i < |s| ==> r[i] == s[i].id
  {
    seq(|s|, i requires 0 <= i < |s| => s[i].id)
  }

  /** `t` has the edges of `s`, in some order, with sides and pointers changed. */
  ghost predicate Reordered(s: seq<Edge>, t: seq<Edge>) {
    && multiset(Ids(t)) == multiset(Ids(s))
    && forall f :: f in t ==> exists e :: e in s && SameButPointers(e, f)
  }

  lemma ReorderedTrans(s: seq<Edge>, t: seq<Edge>, u: seq<Edge>)
    requires Reordered(s, t) && Reordered(t, u)
    ensures Reordered(s, u)
  {
    forall g | g in u
      ensures exists e :: e in s && SameButPointers(e, g)
    {
      var f :| f in t && SameButPointers(f, g);
      var e :| e in s && SameButPointers(e, f);
      assert SameButPointers(e, g);
    }
  }
}
