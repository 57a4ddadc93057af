/**
 Output contours as values: what `add_left`, `add_right`, `merge_left`,
 `merge_right` and `add_local_min` do to the list of polygon nodes, and who may
 extend or join which end of which contour.

 A polygon node is named by its creation index.  A node that is its own proxy
 represents a contour and carries the contour's vertices from left to right; the
 vertices of an absorbed node are dropped from the model, as the program never
 reaches them again.
 */
module Output {
  import opened Base

  /** `hole` is unset until a merge sets it.  `closed` records that a merge
      joined the two ends of this very contour; the program keeps no such flag. */
  datatype Poly = Poly(proxy: nat, active: bool, hole: Option<bool>, verts: seq<Point>, closed: bool)

  type Store = seq<Poly>

  /** `proxy` is idempotent, and a node is active exactly when it is its own proxy. */
  ghost predicate Valid(s: Store) {
    forall p :: 0 <= p < |s| ==>
      && s[p].proxy < |s|
      && s[s[p].proxy].proxy == s[p].proxy
      && (s[p].active <==> s[p].proxy == p)
      && (s[p].active <==> s[p].verts != [])
  }

  /** The operations. */

  function AddLeft(s: Store, p: nat, pt: Point): (t: Store)
    requires p < |s| && s[p].proxy < |s|
    ensures |t| == |s| && forall i :: 0 <= i < |s| ==> t[i].proxy == s[i].proxy
  {
    var r := s[p].proxy;
    s[r := s[r].(verts := [pt] + s[r].verts)]
  }

  function AddRight(s: Store, p: nat, pt: Point): (t: Store)
    requires p < |s| && s[p].proxy < |s|
    ensures |t| == |s| && forall i :: 0 <= i < |s| ==> t[i].proxy == s[i].proxy
  {
    var r := s[p].proxy;
    s[r := s[r].(verts := s[r].verts + [pt])]
  }

  function Redirect(s: Store, target: nat, r: nat): (t: Store)
    ensures |t| == |s|
    ensures forall i :: 0 <= i < |s| ==>
      t[i] == if s[i].proxy == target then s[i].(proxy := r, active := false, verts := []) else s[i]
  {
    seq(|s|, i requires 0 <= i < |s| =>
      if s[i].proxy == target then s[i].(proxy := r, active := false, verts := []) else s[i])
  }

  /** Joins the right end of p's contour to the left end of q's. */
  function MergeLeft(s: Store, p: nat, q: nat): (t: Store)
    requires p < |s| && q < |s| && s[p].proxy < |s| && s[q].proxy < |s|
    ensures |t| == |s|
  {
    var rp, rq := s[p].proxy, s[q].proxy;
    var node := s[rq].(hole := Some(true));
    if rp == rq then s[rq := node.(closed := true)]
    else Redirect(s, rp, rq)[rq := node.(verts := s[rp].verts + s[rq].verts)]
  }

  /** Joins the left end of p's contour to the right end of q's. */
  function MergeRight(s: Store, p: nat, q: nat): (t: Store)
    requires p < |s| && q < |s| && s[p].proxy < |s| && s[q].proxy < |s|
    ensures |t| == |s|
  {
    var rp, rq := s[p].proxy, s[q].proxy;
    var node := s[rq].(hole := Some(false));
    if rp == rq then s[rq := node.(closed := true)]
    else Redirect(s, rp, rq)[rq := node.(verts := s[rq].verts + s[rp].verts)]
  }

  function AddLocalMin(s: Store, pt: Point): Store {
    s + [Poly(|s|, true, None, [pt], false)]
  }

  /** A pointer to a polygon node, held for one end of its contour. */
  datatype End = End(poly: nat, side: Side)

  function Other(side: Side): Side {
    if side == Left then Right else Left
  }

  function Rep(s: Store, e: End): nat
    requires e.poly < |s|
  {
    s[e.poly].proxy
  }

  /** The vertex at the end that `e` holds. */
  function EndVertex(s: Store, e: End): Point
    requires Valid(s) && e.poly < |s|
  {
    var v := s[Rep(s, e)].verts;
    if e.side == Left then v[0] else v[|v| - 1]
  }

  /** `held` are the ends of the open contours: each open contour has exactly one
      holder of its left end and one of its right end; a closed one has none, and stays a contour
      of its own. */
  ghost predicate Owned(held: multiset<End>, s: Store) {
    && Valid(s)
    && (forall e :: e in held ==> Holds(held, s, e))
    && (forall e, f :: e in held && f in held && SameEnd(s, e, f) ==> e == f)
    && (forall r, side :: 0 <= r < |s| && Open(s, r) ==> HasHolder(held, s, r, side))
    && (forall r :: 0 <= r < |s| && s[r].closed ==> s[r].hole.Some? && s[r].proxy == r)
  }

  /** `r` represents a contour whose two ends have not met. */
  predicate Open(s: Store, r: nat) {
    r < |s| && s[r].proxy == r && !s[r].closed
  }

  ghost predicate Holds(held: multiset<End>, s: Store, e: End) {
    e.poly < |s| && held[e] == 1 && Open(s, Rep(s, e))
  }

  predicate SameEnd(s: Store, e: End, f: End) {
    e.poly < |s| && f.poly < |s| && e.side == f.side && Rep(s, e) == Rep(s, f)
  }

  ghost predicate HasHolder(held: multiset<End>, s: Store, r: nat, side: Side) {
    exists e :: e in held && e.poly < |s| && e.side == side && Rep(s, e) == r
  }

  /** The ends in `rest` still sit at the vertices where they sat. */
  ghost predicate Undisturbed(rest: multiset<End>, s: Store, t: Store)
    requires Valid(s) && Valid(t)
  {
    forall e :: e in rest && e.poly < |s| && e.poly < |t| ==> EndVertex(t, e) == EndVertex(s, e)
  }

  /** The parts of ownership, one at a time. */

  lemma OwnsEach(held: multiset<End>, s: Store, e: End)
    requires Owned(held, s) && e in held
    ensures Valid(s) && e.poly < |s| && Rep(s, e) < |s| && Holds(held, s, e)
  {
  }

  lemma OwnsOnce(held: multiset<End>, s: Store, e: End, f: End)
    requires Owned(held, s) && e in held && f in held && SameEnd(s, e, f)
    ensures e == f
  {
  }

  lemma Holder(held: multiset<End>, s: Store, r: nat, side: Side) returns (e: End)
    requires Owned(held, s) && r < |s| && Open(s, r)
    ensures e in held && e.poly < |s| && e.side == side && Rep(s, e) == r
  {
    assert HasHolder(held, s, r, side);
    e :| e in held && e.poly < |s| && e.side == side && Rep(s, e) == r;
  }

  lemma ClosedHasHole(held: multiset<End>, s: Store)
    requires Owned(held, s)
    ensures Valid(s) && forall r :: 0 <= r < |s| && s[r].closed ==> s[r].hole.Some? && s[r].proxy == r
  {
  }

  lemma OwnedInAll(held: multiset<End>, s: Store)
    requires Valid(s)
    requires forall e :: e in held ==> Holds(held, s, e)
    requires forall e, f :: e in held && f in held && SameEnd(s, e, f) ==> e == f
    requires forall r, side :: 0 <= r < |s| && Open(s, r) ==> HasHolder(held, s, r, side)
    requires forall r :: 0 <= r < |s| && s[r].closed ==> s[r].hole.Some? && s[r].proxy == r
    ensures Owned(held, s)
  {
  }

  lemma UndisturbedSelf(rest: multiset<End>, s: Store)
    requires Valid(s)
    ensures Undisturbed(rest, s, s)
  {
  }

  lemma UndisturbedTrans(rest: multiset<End>, s: Store, t: Store, u: Store)
    requires Valid(s) && Valid(t) && Valid(u) && |s| <= |t| <= |u|
    requires Undisturbed(rest, s, t) && Undisturbed(rest, t, u)
    ensures Undisturbed(rest, s, u)
  {
  }

  function Add(s: Store, e: End, pt: Point): Store
    requires e.poly < |s| && s[e.poly].proxy < |s|
  {
    if e.side == Left then AddLeft(s, e.poly, pt) else AddRight(s, e.poly, pt)
  }

  lemma AddKeepsOthers(s: Store, e: End, pt: Point)
    requires Valid(s) && e.poly < |s|
    ensures var t := Add(s, e, pt);
            && Valid(t) && |t| == |s| && EndVertex(t, e) == pt
            && forall r :: 0 <= r < |s| ==> t[r] == s[r].(verts := t[r].verts)
  {
  }

  lemma AddKeepsVertex(s: Store, e: End, pt: Point, f: End)
    requires Valid(s) && e.poly < |s| && f.poly < |s| && !SameEnd(s, e, f)
    ensures f.poly < |Add(s, e, pt)| && Valid(Add(s, e, pt))
    ensures EndVertex(Add(s, e, pt), f) == EndVertex(s, f)
  {
    AddKeepsOthers(s, e, pt);
  }

  lemma AddKeepsOwned(held: multiset<End>, s: Store, e: End, pt: Point)
    requires Owned(held, s) && e in held
    ensures Owned(held, Add(s, e, pt)) && EndVertex(Add(s, e, pt), e) == pt
    ensures Undisturbed(held - multiset{e}, s, Add(s, e, pt))
  {
    hide Owned, Valid, Add, EndVertex;
    OwnsEach(held, s, e);
    ClosedHasHole(held, s);
    var t := Add(s, e, pt);
    AddKeepsOthers(s, e, pt);
    forall f | f in held
      ensures Holds(held, t, f)
    {
      OwnsEach(held, s, f);
    }
    forall f, g | f in held && g in held && SameEnd(t, f, g)
      ensures f == g
    {
      OwnsEach(held, s, f);
      OwnsEach(held, s, g);
      OwnsOnce(held, s, f, g);
    }
    forall r, side | 0 <= r < |t| && Open(t, r)
      ensures HasHolder(held, t, r, side)
    {
      var f := Holder(held, s, r, side);
      assert Rep(t, f) == r;
    }
    OwnedInAll(held, t);
    AddKeepsVertices(held, s, e, pt);
  }

  lemma AddKeepsVertices(held: multiset<End>, s: Store, e: End, pt: Point)
    requires Owned(held, s) && e in held && e.poly < |s| && Valid(s) && Valid(Add(s, e, pt))
    ensures Undisturbed(held - multiset{e}, s, Add(s, e, pt))
  {
    hide Owned, Valid, Add, EndVertex;
    OwnsEach(held, s, e);
    forall f | f in held - multiset{e} && f.poly < |s| && f.poly < |Add(s, e, pt)|
      ensures EndVertex(Add(s, e, pt), f) == EndVertex(s, f)
    {
      assert f != e && f in held;
      if SameEnd(s, e, f) {
        OwnsOnce(held, s, e, f);
      }
      AddKeepsVertex(s, e, pt, f);
    }
  }

  lemma AddLocalMinHolders(held: multiset<End>, s: Store, pt: Point)
    requires Owned(held, s)
    ensures var t := AddLocalMin(s, pt); var l, r := End(|s|, Left), End(|s|, Right);
            var held' := held + multiset{l, r};
            && (forall e :: e in held' ==> e == l || e == r || (e in held && e.poly < |s|))
            && (forall e :: e in held' ==> Holds(held', t, e))
            && (forall q, side :: 0 <= q < |t| && Open(t, q) ==> HasHolder(held', t, q, side))
  {
    var t := AddLocalMin(s, pt);
    var l, r := End(|s|, Left), End(|s|, Right);
    var held' := held + multiset{l, r};
    assert forall e :: e in held ==> Holds(held, s, e);
    assert held'[l] == 1 && held'[r] == 1;
    forall q, side | 0 <= q < |t| && Open(t, q)
      ensures HasHolder(held', t, q, side)
    {
      if q < |s| {
        assert Open(s, q) && HasHolder(held, s, q, side);
        var e :| e in held && e.poly < |s| && e.side == side && Rep(s, e) == q;
        assert e in held';
      } else {
        var e := if side == Left then l else r;
        assert e in held' && Rep(t, e) == q;
      }
    }
  }

  lemma AddLocalMinValid(s: Store, pt: Point)
    requires Valid(s)
    ensures var t := AddLocalMin(s, pt);
            && Valid(t) && EndVertex(t, End(|s|, Left)) == EndVertex(t, End(|s|, Right)) == pt
            && forall e: End :: e.poly < |s| ==> Rep(t, e) == Rep(s, e) && EndVertex(t, e) == EndVertex(s, e)
  {
  }

  lemma AddLocalMinKeepsOwned(held: multiset<End>, s: Store, pt: Point)
    requires Owned(held, s)
    ensures var t := AddLocalMin(s, pt); var l, r := End(|s|, Left), End(|s|, Right);
            && Owned(held + multiset{l, r}, t)
            && EndVertex(t, l) == EndVertex(t, r) == pt
            && Undisturbed(held, s, t)
  {
    ClosedHasHole(held, s);
    hide Owned, Valid, EndVertex, HasHolder, Holds;
    var t := AddLocalMin(s, pt);
    var l, r := End(|s|, Left), End(|s|, Right);
    AddLocalMinValid(s, pt);
    AddLocalMinHolders(held, s, pt);
    forall e, f | e in held + multiset{l, r} && f in held + multiset{l, r} && SameEnd(t, e, f)
      ensures e == f
    {
      NewEndsDiffer(held, s, pt, e, f);
    }
    OwnedInAll(held + multiset{l, r}, t);
  }

  lemma NewEndsDiffer(held: multiset<End>, s: Store, pt: Point, e: End, f: End)
    requires Owned(held, s) && SameEnd(AddLocalMin(s, pt), e, f)
    requires e in held || e == End(|s|, Left) || e == End(|s|, Right)
    requires f in held || f == End(|s|, Left) || f == End(|s|, Right)
    ensures e == f
  {
    hide Owned, Valid, Holds;
    if e in held {
      OwnsEach(held, s, e);
    }
    if f in held {
      OwnsEach(held, s, f);
    }
    if e in held && f in held {
      OwnsOnce(held, s, e, f);
    }
  }

  /** The merge that joins the `side` end of p's contour to the opposite end of q's. */
  function Merge(s: Store, p: nat, q: nat, side: Side): (t: Store)
    requires p < |s| && q < |s| && s[p].proxy < |s| && s[q].proxy < |s|
    ensures |t| == |s|
  {
    if side == Right then MergeLeft(s, p, q) else MergeRight(s, p, q)
  }

  lemma MergeNodes(s: Store, p: nat, q: nat, side: Side)
    requires Valid(s) && p < |s| && q < |s|
    ensures var t := Merge(s, p, q, side); var rp, rq := s[p].proxy, s[q].proxy;
            && Valid(t)
            && t[rq].hole == Some(side == Right) && t[rq].closed == (s[rq].closed || rp == rq)
            && forall r :: 0 <= r < |s| ==>
                 && t[r].proxy == (if s[r].proxy == rp then rq else s[r].proxy)
                 && (r != rq ==> t[r].closed == s[r].closed && t[r].hole == s[r].hole)
                 && (s[r].proxy == r && r != rp && r != rq ==> t[r] == s[r])
  {
    var rp, rq := s[p].proxy, s[q].proxy;
    var t := Merge(s, p, q, side);
    if rp == rq {
      assert forall r :: 0 <= r < |s| && r != rq ==> t[r] == s[r];
    } else {
      assert forall r :: 0 <= r < |s| && r != rq ==> t[r] == Redirect(s, rp, rq)[r];
    }
  }

  lemma MergeKeepsVertex(s: Store, p: nat, q: nat, side: Side, e: End)
    requires Valid(s) && p < |s| && q < |s| && e.poly < |s|
    requires !SameEnd(s, e, End(p, side)) && !SameEnd(s, e, End(q, Other(side)))
    ensures var t := Merge(s, p, q, side);
            && Valid(t)
            && Rep(t, e) == (if Rep(s, e) == s[p].proxy then s[q].proxy else Rep(s, e))
            && EndVertex(t, e) == EndVertex(s, e)
  {
    MergeNodes(s, p, q, side);
  }

  lemma MergeKeepsOwned(rest: multiset<End>, s: Store, p: nat, q: nat, side: Side)
    requires var a, b := End(p, side), End(q, Other(side)); Owned(rest + multiset{a, b}, s)
    ensures p < |s| && q < |s| && Owned(rest, Merge(s, p, q, side))
    ensures Undisturbed(rest, s, Merge(s, p, q, side))
  {
    hide Merge, Owned, Valid, EndVertex;
    var a, b := End(p, side), End(q, Other(side));
    var held := rest + multiset{a, b};
    OwnsEach(held, s, a);
    OwnsEach(held, s, b);
    ClosedHasHole(held, s);
    var t := Merge(s, p, q, side);
    MergeNodes(s, p, q, side);
    forall e | e in rest
      ensures Holds(rest, t, e) && EndVertex(t, e) == EndVertex(s, e)
    {
      MergeKeepsEnd(rest, s, p, q, side, e);
    }
    forall e, f | e in rest && f in rest && SameEnd(t, e, f)
      ensures e == f
    {
      MergeKeepsEnd(rest, s, p, q, side, e);
      MergeKeepsEnd(rest, s, p, q, side, f);
      if SameEnd(s, e, f) {
        OwnsOnce(held, s, e, f);
      }
    }
    MergeKeepsHolders(rest, s, p, q, side);
    OwnedInAll(rest, t);
  }

  /** An end that is not joined stays where it is. */
  lemma MergeKeepsEnd(rest: multiset<End>, s: Store, p: nat, q: nat, side: Side, e: End)
    requires var a, b := End(p, side), End(q, Other(side)); Owned(rest + multiset{a, b}, s)
    requires p < |s| && q < |s| && e in rest
    ensures Valid(s) && s[p].proxy < |s| && s[q].proxy < |s| && e.poly < |s|
    ensures !SameEnd(s, e, End(p, side)) && !SameEnd(s, e, End(q, Other(side)))
    ensures var t := Merge(s, p, q, side);
            && Valid(t) && Holds(rest, t, e) && EndVertex(t, e) == EndVertex(s, e)
            && Rep(t, e) == if Rep(s, e) == s[p].proxy then s[q].proxy else Rep(s, e)
  {
    hide Merge, Owned, Valid, EndVertex;
    var a, b := End(p, side), End(q, Other(side));
    var held := rest + multiset{a, b};
    OwnsEach(held, s, e);
    OwnsEach(held, s, a);
    OwnsEach(held, s, b);
    assert held[e] == rest[e] + (if e == a then 1 else 0) + if e == b then 1 else 0;
    if SameEnd(s, e, a) {
      OwnsOnce(held, s, e, a);
    }
    if SameEnd(s, e, b) {
      OwnsOnce(held, s, e, b);
    }
    MergeNodes(s, p, q, side);
    MergeKeepsVertex(s, p, q, side, e);
  }

  lemma MergeKeepsHolders(rest: multiset<End>, s: Store, p: nat, q: nat, side: Side)
    requires var a, b := End(p, side), End(q, Other(side)); Owned(rest + multiset{a, b}, s)
    requires p < |s| && q < |s|
    ensures var t := Merge(s, p, q, side);
            forall r, d :: 0 <= r < |t| && Open(t, r) ==> HasHolder(rest, t, r, d)
  {
    hide Merge, Owned, Valid;
    var a, b := End(p, side), End(q, Other(side));
    var held := rest + multiset{a, b};
    OwnsEach(held, s, a);
    OwnsEach(held, s, b);
    var t := Merge(s, p, q, side);
    MergeNodes(s, p, q, side);
    forall r, d | 0 <= r < |t| && Open(t, r)
      ensures HasHolder(rest, t, r, d)
    {
      var from := if r == Rep(s, b) && d == Other(side) then Rep(s, a) else r;
      var e := Holder(held, s, from, d);
      assert e != a && e != b;
      assert e in rest && Rep(t, e) == r;
    }
  }

  /** Every vertex lies on an input side; every side of every contour, and the side that
      closed a closed one, is horizontal or runs along an input side. */
  ghost predicate Traced(segs: set<Segment>, s: Store) {
    forall r :: 0 <= r < |s| ==> ContourTraced(segs, s[r])
  }

  ghost predicate ContourTraced(segs: set<Segment>, c: Poly) {
    && Chain(segs, c.verts)
    && (c.closed && c.verts != [] ==> Along(segs, c.verts[|c.verts| - 1], c.verts[0]))
  }

  ghost predicate Chain(segs: set<Segment>, v: seq<Point>) {
    && (forall i :: 0 <= i < |v| ==> OnSide(segs, v[i]))
    && (forall i :: 0 <= i < |v| - 1 ==> Along(segs, v[i], v[i + 1]))
  }

  lemma ChainConcat(segs: set<Segment>, v: seq<Point>, w: seq<Point>)
    requires Chain(segs, v) && Chain(segs, w)
    requires v != [] && w != [] ==> Along(segs, v[|v| - 1], w[0])
    ensures Chain(segs, v + w)
  {
    forall i | 0 <= i < |v + w| - 1
      ensures Along(segs, (v + w)[i], (v + w)[i + 1])
    {
      if |v| <= i {
        assert Along(segs, w[i - |v|], w[i - |v| + 1]);
      }
    }
  }

  lemma AddKeepsTraced(segs: set<Segment>, s: Store, e: End, pt: Point)
    requires Valid(s) && Traced(segs, s) && e.poly < |s| && Open(s, Rep(s, e))
    requires Along(segs, EndVertex(s, e), pt) && OnSide(segs, pt)
    ensures Traced(segs, Add(s, e, pt))
  {
    var r := Rep(s, e);
    assert ContourTraced(segs, s[r]);
    if e.side == Left {
      ChainConcat(segs, [pt], s[r].verts);
    } else {
      ChainConcat(segs, s[r].verts, [pt]);
    }
    var t := Add(s, e, pt);
    assert ContourTraced(segs, t[r]);
    assert forall q :: 0 <= q < |s| && q != r ==> t[q] == s[q];
  }

  lemma MergeKeepsTraced(segs: set<Segment>, s: Store, p: nat, q: nat, side: Side)
    requires Valid(s) && Traced(segs, s) && p < |s| && q < |s|
    requires Open(s, s[p].proxy) && Open(s, s[q].proxy)
    requires Along(segs, EndVertex(s, End(p, side)), EndVertex(s, End(q, Other(side))))
    ensures Traced(segs, Merge(s, p, q, side))
  {
    var rp, rq := s[p].proxy, s[q].proxy;
    var t := Merge(s, p, q, side);
    assert ContourTraced(segs, s[rp]) && ContourTraced(segs, s[rq]);
    if rp != rq {
      if side == Right {
        ChainConcat(segs, s[rp].verts, s[rq].verts);
      } else {
        ChainConcat(segs, s[rq].verts, s[rp].verts);
      }
    }
    assert ContourTraced(segs, t[rq]);
    forall r | 0 <= r < |t|
      ensures ContourTraced(segs, t[r])
    {
      assert ContourTraced(segs, s[r]);
    }
  }

  /** The three edits, on ownership and tracing together. */

  ghost predicate Sound(segs: set<Segment>, held: multiset<End>, s: Store) {
    Owned(held, s) && Traced(segs, s)
  }

  lemma SoundIsValid(segs: set<Segment>, held: multiset<End>, s: Store)
    requires Sound(segs, held, s)
    ensures Valid(s) && forall e :: e in held ==> e.poly < |s| && Rep(s, e) < |s|
  {
    forall e | e in held
      ensures e.poly < |s| && Rep(s, e) < |s|
    {
      OwnsEach(held, s, e);
    }
  }

  lemma HeldIsOpen(segs: set<Segment>, held: multiset<End>, s: Store, e: End)
    requires Sound(segs, held, s) && e in held
    ensures e.poly < |s| && Valid(s) && Open(s, Rep(s, e))
  {
    OwnsEach(held, s, e);
  }

  lemma StartTraced(segs: set<Segment>, s: Store, pt: Point)
    requires Traced(segs, s) && OnSide(segs, pt)
    ensures Traced(segs, AddLocalMin(s, pt))
  {
    var t := AddLocalMin(s, pt);
    forall r | 0 <= r < |t|
      ensures ContourTraced(segs, t[r])
    {
      if r < |s| {
        assert ContourTraced(segs, s[r]);
      }
    }
  }

  /** A new contour starts: both its ends are held from now on. */
  lemma Start(segs: set<Segment>, held: multiset<End>, s: Store, pt: Point)
    requires Sound(segs, held, s) && OnSide(segs, pt)
    ensures var t := AddLocalMin(s, pt); var l, r := End(|s|, Left), End(|s|, Right);
            && Sound(segs, held + multiset{l, r}, t)
            && EndVertex(t, l) == EndVertex(t, r) == pt
            && Undisturbed(held, s, t)
  {
    AddLocalMinKeepsOwned(held, s, pt);
    StartTraced(segs, s, pt);
  }

  /** The contour that `e` holds an end of grows there. */
  lemma Extend(segs: set<Segment>, rest: multiset<End>, s: Store, e: End, pt: Point)
    requires Sound(segs, rest + multiset{e}, s)
    requires e.poly < |s| && Along(segs, EndVertex(s, e), pt) && OnSide(segs, pt)
    ensures var t := Add(s, e, pt);
            && |t| == |s| && Sound(segs, rest + multiset{e}, t) && EndVertex(t, e) == pt
            && Undisturbed(rest, s, t)
  {
    var held := rest + multiset{e};
    assert e in held && Holds(held, s, e);
    assert held - multiset{e} == rest;
    AddKeepsOwned(held, s, e, pt);
    AddKeepsTraced(segs, s, e, pt);
  }

  /** Two held ends meet: neither is held any more. */
  lemma Join(segs: set<Segment>, rest: multiset<End>, s: Store, p: nat, q: nat, side: Side)
    requires Sound(segs, rest + multiset{End(p, side)} + multiset{End(q, Other(side))}, s)
    requires p < |s| && q < |s|
    requires Along(segs, EndVertex(s, End(p, side)), EndVertex(s, End(q, Other(side))))
    ensures var t := Merge(s, p, q, side); Sound(segs, rest, t) && Undisturbed(rest, s, t)
  {
    var a, b := End(p, side), End(q, Other(side));
    var held := rest + multiset{a} + multiset{b};
    assert held == rest + multiset{a, b};
    assert a in held && b in held && Holds(held, s, a) && Holds(held, s, b);
    MergeKeepsOwned(rest, s, p, q, side);
    MergeKeepsTraced(segs, s, p, q, side);
  }
}
