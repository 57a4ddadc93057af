/**
 What the active edge table holds at a scanbeam boundary, and how each stage of a
 scanbeam hands it on.
 */
module SweepState {
  import opened Base
  import opened Edges
  import opened EdgeTable
  import opened Output
  import opened Strands
  import opened Bundles
  import opened Bundling
  import opened ActiveTable
  import opened Membership
  import opened Boundary
  import opened BoundaryScan
  import opened Interior

  /** The row holds the edges of `ids`, each once. */
  ghost predicate Holds(s: seq<Edge>, ids: set<nat>) {
    multiset(Ids(s)) == multiset(ids)
  }

  /** An edge as it stands on the boundary at `y`. */
  ghost predicate StandsAt(t: Table, y: real, e: Edge) {
    && e.id < |t| && e.info == t[e.id]
    && e.info.seg.bot.y <= y <= e.info.seg.top.y
    && e.xb == e.info.seg.XAt(y)
    && e.outAbove.None?
  }

  /** The active edge table at the boundary at `y`, holding the edges of `ids`. */
  ghost predicate AtBoundary(op: Op, t: Table, y: real, ids: set<nat>, aet: seq<Edge>, out: Store) {
    && Holds(aet, ids)
    && (forall i :: 0 <= i < |aet| ==> StandsAt(t, y, aet[i]))
    && BottomSorted(aet)
    && RowHeld(op, Segments(t), StartParity(op), Belows(t, y, aet), out)
    && ParityAfter(StartParity(op), Belows(t, y, aet)) == StartParity(op)
    && ReadsBelow(t, StartParity(op), y, aet)
  }

  /** Some edge starts or ends at every scanbeam boundary, so the table is not empty. */
  lemma NeverEmpty(t: Table, ys: seq<real>, y: real)
    requires Chained(t) && Heights(t, ys) && y in ys
    ensures Present(t, y) != {}
  {
    var i :| 0 <= i < |t| && (t[i].seg.bot.y == y || t[i].seg.top.y == y);
    assert ChainedAt(t, i);
    if t[i].seg.bot.y == y {
      assert i in Present(t, y);
    } else if t[i].succ.None? {
      assert i in Present(t, y);
    } else {
      assert ChainedAt(t, t[i].succ.value);
      assert t[i].succ.value in Present(t, y);
    }
  }

  /** Insertion of a new bound. */

  lemma NewEdgeStands(op: Op, t: Table, y: real, id: nat)
    requires Chained(t) && id in Starting(t, y)
    ensures NewEdge(op, t, id).id == id
    ensures StandsAt(t, y, NewEdge(op, t, id)) && Idle(BelowStrand(t, y, NewEdge(op, t, id)))
  {
    assert ChainedAt(t, id);
  }

  lemma HoldsInsert(s: seq<Edge>, ids: set<nat>, e: Edge, k: nat)
    requires Holds(s, ids) && k <= |s| && e.id !in ids
    ensures Holds(s[..k] + [e] + s[k..], ids + {e.id})
  {
    assert Ids(s[..k] + [e] + s[k..]) == Ids(s[..k]) + [e.id] + Ids(s[k..]);
    assert Ids(s) == Ids(s[..k]) + Ids(s[k..]);
    assert multiset(ids + {e.id}) == multiset(ids) + multiset{e.id};
  }

  /** An idle strand may be put in anywhere. */
  lemma IdleInsert(op: Op, segs: set<Segment>, p: Flags, a: seq<Strand>, x: Strand, b: seq<Strand>, out: Store)
    requires Idle(x)
    ensures ParityAfter(p, a + [x] + b) == ParityAfter(p, a + b)
    ensures RowHeld(op, segs, p, a + [x] + b, out) <==> RowHeld(op, segs, p, a + b, out)
  {
    hide RowHeld;
    assert a + [x] + b == a + ([x] + b);
    BusyConcat(a, b);
    BusyConcat(a, [x] + b);
    BusyConcat([x], b);
    assert Busy([x]) == [];
    SameBusyRow(op, segs, p, a + [x] + b, a + b, out);
  }

  lemma BelowsInsert(t: Table, y: real, aet: seq<Edge>, e: Edge, k: nat)
    requires k <= |aet|
    ensures Belows(t, y, aet[..k] + [e] + aet[k..])
         == Belows(t, y, aet[..k]) + [BelowStrand(t, y, e)] + Belows(t, y, aet[k..])
    ensures Belows(t, y, aet) == Belows(t, y, aet[..k]) + Belows(t, y, aet[k..])
  {
  }

  /** Putting in an idle strand does not change what the row reads. */
  lemma InsertReads(t: Table, p: Flags, y: real, s: seq<Edge>, e: Edge, k: nat)
    requires ReadsBelow(t, p, y, s) && k <= |s| && Idle(BelowStrand(t, y, e))
    ensures ReadsBelow(t, p, y, s[..k] + [e] + s[k..])
  {
    var s' := s[..k] + [e] + s[k..];
    forall x, i: nat | SplitsAt(s', x, i)
      ensures ParityAfter(p, Belows(t, y, s'[..i]))
           == p.Toggle(Flags(MemberBelow(t, Clip, x, y), MemberBelow(t, Subj, x, y)))
    {
      InsertSplits(s, e, k, x, i);
      if i <= k {
        assert s'[..i] == s[..i];
      } else {
        var a, b := s[..k], s[k..i - 1];
        assert s'[..i] == a + [e] + b && s[..i - 1] == a + b;
        assert Belows(t, y, s'[..i]) == Belows(t, y, a) + [BelowStrand(t, y, e)] + Belows(t, y, b);
        assert Belows(t, y, s[..i - 1]) == Belows(t, y, a) + Belows(t, y, b);
        IdleInsert(Int, {}, p, Belows(t, y, a), BelowStrand(t, y, e), Belows(t, y, b), []);
      }
    }
  }

  lemma InsertSplits(s: seq<Edge>, e: Edge, k: nat, x: real, i: nat)
    requires k <= |s| && SplitsAt(s[..k] + [e] + s[k..], x, i)
    ensures SplitsAt(s, x, if i <= k then i else i - 1)
  {
    var s' := s[..k] + [e] + s[k..];
    assert forall j :: 0 <= j < k ==> s'[j] == s[j];
    assert forall j :: k <= j < |s| ==> s'[j + 1] == s[j];
  }

  lemma InsertKeepsBoundary(op: Op, t: Table, y: real, ids: set<nat>, aet: seq<Edge>, out: Store, id: nat, k: nat)
    requires Chained(t) && AtBoundary(op, t, y, ids, aet, out)
    requires id in Starting(t, y) && id !in ids && k <= |aet|
    requires BottomSorted(aet[..k] + [NewEdge(op, t, id)] + aet[k..])
    ensures AtBoundary(op, t, y, ids + {id}, aet[..k] + [NewEdge(op, t, id)] + aet[k..], out)
  {
    hide RowHeld, Holds, BottomSorted, NewEdge, Idle, StandsAt, ReadsBelow;
    var e := NewEdge(op, t, id);
    NewEdgeStands(op, t, y, id);
    HoldsInsert(aet, ids, e, k);
    BelowsInsert(t, y, aet, e, k);
    InsertReads(t, StartParity(op), y, aet, e, k);
    IdleInsert(op, Segments(t), StartParity(op), Belows(t, y, aet[..k]), BelowStrand(t, y, e), Belows(t, y, aet[k..]),
      out);
  }

  /** Evenness of the crossings makes both rows of a boundary leave the parity as they
      found it. */

  predicate Informed(t: Table, s: seq<Edge>) {
    forall i :: 0 <= i < |s| ==> s[i].id < |t| && s[i].info == t[s[i].id]
  }

  function OfKind(t: Table, ids: set<nat>, kind: Kind): set<nat> {
    set id: nat | id in ids && id < |t| && t[id].kind == kind
  }

  lemma HoldsTail(s: seq<Edge>, ids: set<nat>)
    requires Holds(s, ids) && s != []
    ensures s[0].id in ids && Holds(s[1..], ids - {s[0].id})
  {
    var id, rest := s[0].id, Ids(s[1..]);
    assert Ids(s) == [id] + rest;
    var m := multiset(rest);
    assert multiset(ids) == multiset{id} + m;
    assert multiset(ids)[id] > 0;
    var n := multiset(ids - {id});
    assert multiset(ids) == multiset{id} + n;
    assert multiset{id} + m - multiset{id} == m;
    assert multiset{id} + n - multiset{id} == n;
  }

  lemma HoldsCons(e: Edge, s: seq<Edge>, ids: set<nat>)
    requires Holds(s, ids) && e.id !in ids
    ensures Holds([e] + s, ids + {e.id})
  {
    assert Ids([e] + s) == [e.id] + Ids(s);
    assert multiset(ids + {e.id}) == multiset(ids) + multiset{e.id};
  }

  lemma HoldsNothing(ids: set<nat>)
    requires Holds([], ids)
    ensures ids == {}
  {
    assert |multiset(ids)| == |ids|;
  }

  lemma KindOfTail(t: Table, ids: set<nat>, id: nat, kind: Kind)
    requires id in ids && id < |t|
    ensures |OfKind(t, ids, kind)| == |OfKind(t, ids - {id}, kind)| + if t[id].kind == kind then 1 else 0
  {
    if t[id].kind == kind {
      assert OfKind(t, ids, kind) == OfKind(t, ids - {id}, kind) + {id};
    } else {
      assert OfKind(t, ids, kind) == OfKind(t, ids - {id}, kind);
    }
  }

  lemma {:induction false} UnitParityCounts(t: Table, p: Flags, s: seq<Edge>, ids: set<nat>)
    requires Holds(s, ids) && Informed(t, s)
    ensures UnitParity(p, s) == p.Toggle(Flags(Odd(|OfKind(t, ids, Clip)|), Odd(|OfKind(t, ids, Subj)|)))
    decreases |s|
  {
    if s == [] {
      HoldsNothing(ids);
      assert OfKind(t, ids, Clip) == {} && OfKind(t, ids, Subj) == {};
    } else {
      var id := s[0].id;
      HoldsTail(s, ids);
      KindOfTail(t, ids, id, Clip);
      KindOfTail(t, ids, id, Subj);
      UnitParityCounts(t, p.Toggle(Unit(s[0].info.kind)), s[1..], ids - {id});
    }
  }

  /** Those of `ids` that go on above height `y`. */
  function GoingOn(t: Table, y: real, ids: set<nat>): set<nat> {
    set id: nat | id in ids && id < |t| && t[id].seg.top.y != y
  }

  lemma {:induction false} LiveHolds(t: Table, y: real, s: seq<Edge>, ids: set<nat>)
    requires Holds(s, ids) && Informed(t, s)
    ensures Holds(Live(y, s), GoingOn(t, y, ids)) && Informed(t, Live(y, s))
    decreases |s|
  {
    hide Holds;
    if s == [] {
      HoldsNothing(ids);
      assert GoingOn(t, y, ids) == {};
    } else {
      var id := s[0].id;
      HoldsTail(s, ids);
      LiveHolds(t, y, s[1..], ids - {id});
      if GoesOn(y, s[0]) {
        assert GoingOn(t, y, ids) == GoingOn(t, y, ids - {id}) + {id};
        HoldsCons(s[0], Live(y, s[1..]), GoingOn(t, y, ids - {id}));
      } else {
        assert GoingOn(t, y, ids) == GoingOn(t, y, ids - {id});
        assert Live(y, s) == Live(y, s[1..]);
      }
    }
  }

  /** The edges that go on from height `y` toggle each parity an even number of times. */
  lemma LiveParity(t: Table, y: real, p: Flags, s: seq<Edge>)
    requires Chained(t) && Even(t) && Holds(s, Present(t, y)) && Informed(t, s)
    ensures UnitParity(p, Live(y, s)) == p
  {
    hide Holds, Live, OfKind, GoingOn, Present, CrossedAt, Chained;
    LiveHolds(t, y, s, Present(t, y));
    var ids := GoingOn(t, y, Present(t, y));
    UnitParityCounts(t, p, Live(y, s), ids);
    KindGoingOn(t, y, Clip);
    KindGoingOn(t, y, Subj);
    assert |CrossedAt(t, Clip, y)| % 2 == 0 && |CrossedAt(t, Subj, y)| % 2 == 0;
  }

  lemma KindGoingOn(t: Table, y: real, kind: Kind)
    requires Chained(t)
    ensures OfKind(t, GoingOn(t, y, Present(t, y)), kind) == CrossedAt(t, kind, y)
  {
    assert forall i :: 0 <= i < |t| ==> ChainedAt(t, i);
  }

  lemma StandsForScan(t: Table, y: real, e: Edge)
    requires Chained(t) && StandsAt(t, y, e)
    ensures Stands(Segments(t), y, e, LowerLine(t, y, e))
  {
    assert ChainedAt(t, e.id);
    assert t[e.id].seg in Segments(t);
    if e.BotY() == y && e.info.pred.Some? {
      var j := e.info.pred.value;
      assert ChainedAt(t, j) && t[j].seg in Segments(t);
    }
  }

  /** The upper row of a bundled boundary, without the edges that end there. */
  lemma BundledUpperRow(t: Table, y: real, aet: seq<Edge>, s: seq<Edge>)
    requires BundledAt(y, aet, s) && forall i :: 0 <= i < |aet| ==> StandsAt(t, y, aet[i])
    ensures forall p: Flags, i :: 0 <= i <= |s| ==>
      ParityAfter(p, Aboves(s[..i])) == ParityAfter(p, Aboves(Live(y, s[..i])))
    ensures Ids(s) == Ids(aet) && Informed(t, s)
  {
    hide Linked, Balanced;
    forall i | 0 <= i < |s|
      ensures !GoesOn(y, s[i]) ==> Idle(AboveStrand(s[i]))
      ensures s[i].id == aet[i].id && s[i].id < |t| && s[i].info == t[s[i].id]
    {
      assert SameButBundles(aet[i], s[i]) && StandsAt(t, y, aet[i]);
    }
    forall p: Flags, i | 0 <= i <= |s|
      ensures ParityAfter(p, Aboves(s[..i])) == ParityAfter(p, Aboves(Live(y, s[..i])))
    {
      LiveBusy(y, s[..i]);
      BusyRow(Int, p, Aboves(s[..i]), []);
      BusyRow(Int, p, Aboves(Live(y, s[..i])), []);
    }
  }

  lemma BundledParity(op: Op, t: Table, y: real, p: Flags, aet: seq<Edge>, s: seq<Edge>)
    requires Chained(t) && Even(t) && Holds(aet, Present(t, y))
    requires BundledAt(y, aet, s) && forall i :: 0 <= i < |aet| ==> StandsAt(t, y, aet[i])
    ensures ParityAfter(p, Aboves(s)) == p
  {
    hide Linked, StandsAt, Chained, Even, Present;
    BundledUpperRow(t, y, aet, s);
    assert s[..|s|] == s;
    BalancedParity(NO_FLAGS, p, Live(y, s));
    LiveParity(t, y, p, s);
    assert p.Toggle(NO_FLAGS) == p;
  }

  /** Bundled, the row is ready to be scanned. */
  lemma BundledIsReady(op: Op, t: Table, y: real, aet: seq<Edge>, s: seq<Edge>, out: Store)
    requires Chained(t) && Even(t) && AtBoundary(op, t, y, Present(t, y), aet, out)
    requires BundledAt(y, aet, s)
    ensures ScanPre(op, t, y, StartParity(op), s, out)
    ensures Belows(t, y, s) == Belows(t, y, aet)
  {
    hide RowHeld, Linked, Balanced, ParityAfter, Live, Stands, Holds, ReadsBelow, Chained, Even, Present;
    BundledParity(op, t, y, StartParity(op), aet, s);
    forall i | 0 <= i < |s|
      ensures BelowStrand(t, y, s[i]) == BelowStrand(t, y, aet[i])
      ensures s[i].outAbove.None? && Stands(Segments(t), y, s[i], LowerLine(t, y, s[i]))
    {
      assert SameButBundles(aet[i], s[i]) && StandsAt(t, y, aet[i]);
      StandsForScan(t, y, s[i]);
    }
    assert Belows(t, y, s) == Belows(t, y, aet);
  }

  /** A part of the row that is cut off by a property of its edges. */
  lemma PrefixHolds(s: seq<Edge>, ids: set<nat>, i: nat, part: set<nat>)
    requires Holds(s, ids) && i <= |s| && part <= ids
    requires forall j :: 0 <= j < i ==> s[j].id in part
    requires forall j :: i <= j < |s| ==> s[j].id !in part
    ensures Holds(s[..i], part)
  {
    var a, b := Ids(s[..i]), Ids(s[i..]);
    assert Ids(s) == a + b;
    var whole: multiset<nat>, want: multiset<nat> := multiset(ids), multiset(part);
    var got: multiset<nat>, rest: multiset<nat> := multiset(a), multiset(b);
    assert whole == got + rest;
    forall id: nat
      ensures got[id] == want[id]
    {
      if id in part {
        assert id !in b;
        assert rest[id] == 0 && whole[id] == 1;
      } else {
        assert id !in a;
        assert got[id] == 0;
      }
    }
  }

  lemma {:induction false} LivePrefix(y: real, s: seq<Edge>, i: nat)
    requires i <= |s|
    ensures Live(y, s) == Live(y, s[..i]) + Live(y, s[i..])
  {
    assert s == s[..i] + s[i..];
    LiveConcat(y, s[..i], s[i..]);
  }

  /** Cut at x, the live part of a row ends with a whole bundle. */
  lemma CutIsBalanced(y: real, s: seq<Edge>, x: real, i: nat)
    requires SplitsAt(s, x, i) && Linked(Live(y, s)) && Balanced(NO_FLAGS, Live(y, s))
    ensures Balanced(NO_FLAGS, Live(y, s[..i]))
  {
    var l, a, b := Live(y, s), Live(y, s[..i]), Live(y, s[i..]);
    LivePrefix(y, s, i);
    if a != [] {
      var m := |a| - 1;
      LiveMember(y, s[..i], a[m]);
      assert l[m] == a[m] && l[m].xb < x;
      if b != [] {
        LiveMember(y, s[i..], b[0]);
        assert l[m + 1] == b[0] && l[m + 1].xb >= x;
      }
      assert LinkedAt(l, m);
      BalancedPrefix(NO_FLAGS, l, m + 1);
      assert l[..m + 1] == a;
    }
  }

  /** Left of every x, the bundled upper row toggles the parity as the sides of the two
      polygons do just above the boundary. */
  lemma BundledReads(op: Op, t: Table, y: real, p: Flags, aet: seq<Edge>, s: seq<Edge>)
    requires Chained(t) && Holds(aet, Present(t, y)) && BundledAt(y, aet, s)
    requires forall i :: 0 <= i < |aet| ==> StandsAt(t, y, aet[i])
    ensures ReadsAbove(t, p, y, s)
  {
    hide Linked, Balanced, Chained;
    BundledUpperRow(t, y, aet, s);
    forall x, i: nat | SplitsAt(s, x, i)
      ensures ParityAfter(p, Aboves(s[..i]))
           == p.Toggle(Flags(MemberAbove(t, Clip, x, y), MemberAbove(t, Subj, x, y)))
    {
      var a := s[..i];
      CutIsBalanced(y, s, x, i);
      BalancedParity(NO_FLAGS, p, Live(y, a));
      assert p.Toggle(NO_FLAGS) == p;
      var part := set id: nat | id in Present(t, y) && id < |t| && t[id].seg.XAt(y) < x;
      forall j | 0 <= j < |s|
        ensures s[j].id in part <==> s[j].xb < x
      {
        assert SameButBundles(aet[j], s[j]) && StandsAt(t, y, aet[j]);
        assert Ids(aet)[j] == aet[j].id && aet[j].id in multiset(Ids(aet));
      }
      PrefixHolds(s, Present(t, y), i, part);
      LiveHolds(t, y, a, part);
      UnitParityCounts(t, p, Live(y, a), GoingOn(t, y, part));
      GoingOnLeft(t, y, x, part, Clip);
      GoingOnLeft(t, y, x, part, Subj);
    }
  }

  lemma GoingOnLeft(t: Table, y: real, x: real, part: set<nat>, kind: Kind)
    requires Chained(t)
    requires part == set id: nat | id in Present(t, y) && id < |t| && t[id].seg.XAt(y) < x
    ensures OfKind(t, GoingOn(t, y, part), kind) == LeftAbove(t, kind, x, y)
  {
    forall id: nat
      ensures id in OfKind(t, GoingOn(t, y, part), kind) <==> id in LeftAbove(t, kind, x, y)
    {
      assert id < |t| ==> ChainedAt(t, id);
    }
  }

  /** From the scanned boundary to the inside of the scanbeam. */

  /** What scanning and deletion leave alone. */
  predicate Carried(e: Edge, f: Edge) {
    f.id == e.id && f.info == e.info && f.xb == e.xb && f.above == e.above && f.stateAbove == e.stateAbove
  }

  lemma {:induction false} LiveCarried(y: real, s: seq<Edge>, t: seq<Edge>)
    requires |s| == |t| && forall i :: 0 <= i < |s| ==> Carried(s[i], t[i])
    ensures |Live(y, s)| == |Live(y, t)|
    ensures forall i :: 0 <= i < |Live(y, s)| ==> Carried(Live(y, s)[i], Live(y, t)[i])
    decreases |s|
  {
    if s != [] {
      LiveCarried(y, s[1..], t[1..]);
    }
  }

  lemma {:induction false} BalancedCarried(owed: Flags, s: seq<Edge>, t: seq<Edge>)
    requires Balanced(owed, s) && |s| == |t| && forall i :: 0 <= i < |s| ==> Carried(s[i], t[i])
    ensures Balanced(owed, t)
    decreases |s|
  {
    if s != [] {
      assert Carried(s[0], t[0]);
      BalancedCarried(
        if s[0].stateAbove == BundleTail then owed.Toggle(Unit(s[0].info.kind)) else NO_FLAGS, s[1..], t[1..]);
    }
  }

  lemma {:induction false} LiveSorted(y: real, s: seq<Edge>)
    requires BottomSorted(s)
    ensures BottomSorted(Live(y, s))
    decreases |s|
  {
    if s != [] {
      LiveSorted(y, s[1..]);
      forall e | e in Live(y, s[1..])
        ensures s[0].xb <= e.xb
      {
        LiveMember(y, s[1..], e);
        var i :| 0 <= i < |s[1..]| && s[1..][i] == e;
        assert s[i + 1] == e;
      }
    }
  }

  /** A strand that toggles nothing holds nothing. */
  lemma {:induction false} MatchedIdle(op: Op, p: Flags, s: seq<Strand>, i: nat)
    requires Matched(op, p, s) && i < |s| && !s[i].flags.Any()
    ensures Idle(s[i])
    decreases |s|
  {
    if i == 0 {
      assert p.Toggle(s[0].flags) == p;
    } else {
      MatchedIdle(op, p.Toggle(s[0].flags), s[1..], i - 1);
    }
  }

  /** Deleting the edges that end here deletes only idle strands. */
  lemma {:induction false} LiveBusy(y: real, s: seq<Edge>)
    requires forall i :: 0 <= i < |s| && !GoesOn(y, s[i]) ==> Idle(AboveStrand(s[i]))
    ensures Busy(Aboves(Live(y, s))) == Busy(Aboves(s))
    decreases |s|
  {
    if s != [] {
      LiveBusy(y, s[1..]);
      assert Aboves(s)[1..] == Aboves(s[1..]);
      if GoesOn(y, s[0]) {
        assert Aboves(Live(y, s))[1..] == Aboves(Live(y, s[1..]));
      } else {
        assert Live(y, s) == Live(y, s[1..]);
      }
    }
  }

  /** What is left of the row is held as the whole row was. */
  lemma LiveRowHeld(op: Op, segs: set<Segment>, p: Flags, y: real, s: seq<Edge>, out: Store)
    requires RowHeld(op, segs, p, Aboves(s), out) && Sided(p, Aboves(s))
    requires forall i :: 0 <= i < |s| && !GoesOn(y, s[i]) ==> s[i].above == NO_FLAGS
    ensures RowHeld(op, segs, p, Aboves(Live(y, s)), out) && Sided(p, Aboves(Live(y, s)))
    ensures ParityAfter(p, Aboves(Live(y, s))) == ParityAfter(p, Aboves(s))
    ensures Busy(Aboves(Live(y, s))) == Busy(Aboves(s))
  {
    forall i | 0 <= i < |s| && !GoesOn(y, s[i])
      ensures Idle(AboveStrand(s[i]))
    {
      MatchedIdle(op, p, Aboves(s), i);
    }
    LiveBusy(y, s);
    SameBusyRow(op, segs, p, Aboves(s), Aboves(Live(y, s)), out);
  }

  /** Coincident edges stay together up to the top of the scanbeam. */
  lemma LinkedIsBundled(op: Op, p: Flags, yb: real, yt: real, s: seq<Edge>, t: seq<Edge>)
    requires Linked(s) && |t| == |s| && forall i :: 0 <= i < |s| ==> Carried(s[i], t[i])
    requires forall i :: 0 <= i < |t| ==> t[i].xb == t[i].info.seg.XAt(yb) && t[i].xt == t[i].info.seg.XAt(yt)
    requires Matched(op, p, Aboves(t))
    ensures Bundled(t)
    ensures forall i :: 0 <= i < |t| && t[i].stateAbove == Unbundled ==> t[i].above.Any()
  {
    hide Segment.XAt;
    forall i | 0 <= i < |t|
      ensures BundledPlace(t, i)
      ensures t[i].stateAbove == Unbundled ==> t[i].above.Any()
    {
      assert LinkedAt(s, i);
      if t[i].stateAbove == BundleTail {
        MatchedIdle(op, p, Aboves(t), i);
        assert LinkedAt(s, i + 1) && Coincide(s[i], s[i + 1]);
        assert Carried(s[i], t[i]) && Carried(s[i + 1], t[i + 1]);
        CoincideAtTop(yb, yt, t[i], t[i + 1]);
      }
    }
  }

  lemma {:induction false} LinkedIsHeaded(s: seq<Edge>, t: seq<Edge>, i: nat)
    requires Linked(s) && |t| == |s| && i <= |s| && forall j :: 0 <= j < |s| ==> Carried(s[j], t[j])
    ensures Headed(i > 0 && t[i - 1].stateAbove == BundleTail, t[i..])
    decreases |s| - i
  {
    if i < |s| {
      LinkedIsHeaded(s, t, i + 1);
      assert LinkedAt(s, i) && (i > 0 ==> LinkedAt(s, i - 1));
      assert t[i..][1..] == t[i + 1..];
    }
  }

  lemma CoincideAtTop(yb: real, yt: real, e: Edge, f: Edge)
    requires Coincide(e, f)
    requires e.xb == e.info.seg.XAt(yb) && e.xt == e.info.seg.XAt(yt)
    requires f.xb == f.info.seg.XAt(yb) && f.xt == f.info.seg.XAt(yt)
    ensures e.xt == f.xt
  {
    RiseIsSlope(e.info.seg, yb, yt);
    RiseIsSlope(f.info.seg, yb, yt);
  }

  /** An edge of the boundary that does not end there spans the scanbeam. */
  lemma SpansBeam(t: Table, ys: seq<real>, k: nat, e: Edge)
    requires Chained(t) && Heights(t, ys) && k + 1 < |ys|
    requires e.id < |t| && e.info == t[e.id]
    requires e.info.seg.bot.y <= ys[k] <= e.info.seg.top.y && e.TopY() != ys[k]
    ensures e.info.seg in Segments(t) && ys[k + 1] <= e.TopY()
    ensures TopX(ys[k + 1], e) == e.info.seg.XAt(ys[k + 1])
  {
    assert ChainedAt(t, e.id);
    NextHeight(ys, k, e.TopY());
    XAtTop(e.info.seg);
  }

  lemma XAtTop(s: Segment)
    requires s.Valid()
    ensures s.XAt(s.top.y) == s.top.x
  {
  }

  /** No height lies between two consecutive ones. */
  lemma NextHeight(ys: seq<real>, k: nat, y: real)
    requires forall i, j :: 0 <= i < j < |ys| ==> ys[i] < ys[j]
    requires k + 1 < |ys| && y in ys
    ensures ys[k] < y ==> ys[k + 1] <= y
    ensures y < ys[k + 1] ==> y <= ys[k]
  {
    var l :| 0 <= l < |ys| && ys[l] == y;
    assert l <= k ==> ys[l] <= ys[k];
    assert k + 1 <= l ==> ys[k + 1] <= ys[l];
  }

  /** What the stages of a boundary do to the row of `aet`. */
  ghost predicate Handed(yb: real, yt: real, aet: seq<Edge>, bundled: seq<Edge>, scanned: seq<Edge>, kept: seq<Edge>) {
    && BundledAt(yb, aet, bundled)
    && |scanned| == |bundled| && (forall i :: 0 <= i < |bundled| ==> SameButPointers(bundled[i], scanned[i]))
    && |kept| == |Live(yb, scanned)|
    && forall i :: 0 <= i < |kept| ==>
         SameAbove(Live(yb, scanned)[i], kept[i]) && kept[i].xt == TopX(yt, Live(yb, scanned)[i])
  }

  lemma KeptSpans(t: Table, ys: seq<real>, k: nat, ids: set<nat>, aet: seq<Edge>, bundled: seq<Edge>,
                  scanned: seq<Edge>, kept: seq<Edge>)
    requires Chained(t) && Heights(t, ys) && k + 1 < |ys|
    requires forall i :: 0 <= i < |aet| ==> StandsAt(t, ys[k], aet[i])
    requires Handed(ys[k], ys[k + 1], aet, bundled, scanned, kept)
    ensures forall i :: 0 <= i < |kept| ==>
      && kept[i].id < |t| && kept[i].info == t[kept[i].id] && kept[i].info.seg in Segments(t)
      && kept[i].info.seg.bot.y <= ys[k] && ys[k + 1] <= kept[i].TopY()
      && kept[i].xb == kept[i].info.seg.XAt(ys[k]) && kept[i].xt == kept[i].info.seg.XAt(ys[k + 1])
  {
    hide Linked;
    var live := Live(ys[k], scanned);
    forall i | 0 <= i < |kept|
      ensures kept[i].id < |t| && kept[i].info == t[kept[i].id] && kept[i].info.seg in Segments(t)
      ensures kept[i].info.seg.bot.y <= ys[k] && ys[k + 1] <= kept[i].TopY()
      ensures kept[i].xb == kept[i].info.seg.XAt(ys[k]) && kept[i].xt == kept[i].info.seg.XAt(ys[k + 1])
    {
      LiveMember(ys[k], scanned, live[i]);
      var j :| 0 <= j < |scanned| && scanned[j] == live[i];
      assert SameButPointers(bundled[j], scanned[j]) && SameButBundles(aet[j], bundled[j])
        && StandsAt(t, ys[k], aet[j]);
      SpansBeam(t, ys, k, live[i]);
    }
  }

  lemma KeptHolds(t: Table, yb: real, yt: real, ids: set<nat>, aet: seq<Edge>, bundled: seq<Edge>,
                  scanned: seq<Edge>, kept: seq<Edge>)
    requires Holds(aet, ids) && BottomSorted(aet) && Informed(t, aet)
    requires Handed(yb, yt, aet, bundled, scanned, kept)
    ensures Holds(kept, GoingOn(t, yb, ids)) && BottomSorted(kept)
  {
    hide Linked;
    forall i | 0 <= i < |aet|
      ensures scanned[i].id == aet[i].id && scanned[i].xb == aet[i].xb && scanned[i].info == aet[i].info
    {
      assert SameButBundles(aet[i], bundled[i]) && SameButPointers(bundled[i], scanned[i]);
    }
    assert Ids(scanned) == Ids(aet);
    LiveHolds(t, yb, scanned, ids);
    LiveSorted(yb, scanned);
    assert Ids(kept) == Ids(Live(yb, scanned));
  }

  lemma KeptRow(op: Op, segs: set<Segment>, p: Flags, yb: real, yt: real, aet: seq<Edge>, bundled: seq<Edge>,
                scanned: seq<Edge>, kept: seq<Edge>, out: Store)
    requires Handed(yb, yt, aet, bundled, scanned, kept)
    requires RowHeld(op, segs, p, Aboves(scanned), out) && Sided(p, Aboves(scanned))
    requires forall i :: 0 <= i < |kept| ==>
      kept[i].xb == kept[i].info.seg.XAt(yb) && kept[i].xt == kept[i].info.seg.XAt(yt)
    ensures RowHeld(op, segs, p, Aboves(kept), out) && Sided(p, Aboves(kept))
    ensures Bundled(kept) && Headed(false, kept) && Balanced(NO_FLAGS, kept)
    ensures ParityAfter(p, Aboves(kept)) == ParityAfter(p, Aboves(scanned))
    ensures Busy(Aboves(kept)) == Busy(Aboves(scanned))
    ensures forall i :: 0 <= i < |kept| && kept[i].stateAbove == Unbundled ==> kept[i].above.Any()
  {
    hide Sided, Anchored, Sound, Balanced, Matched, Live, Busy, ParityAfter, Ends, Bundled,
      Headed, Linked;
    forall i | 0 <= i < |scanned|
      ensures !GoesOn(yb, scanned[i]) ==> scanned[i].above == NO_FLAGS
      ensures Carried(bundled[i], scanned[i])
    {
      assert SameButPointers(bundled[i], scanned[i]) && SameButBundles(aet[i], bundled[i]);
    }
    LiveRowHeld(op, segs, p, yb, scanned, out);
    assert Aboves(kept) == Aboves(Live(yb, scanned));
    LiveCarried(yb, bundled, scanned);
    LinkedIsBundled(op, p, yb, yt, Live(yb, bundled), kept);
    LinkedIsHeaded(Live(yb, bundled), kept, 0);
    BalancedCarried(NO_FLAGS, Live(yb, bundled), kept);
  }

  /** After deletion, the row is ready for the inside of the scanbeam. */
  lemma KeptIsReady(op: Op, t: Table, ys: seq<real>, k: nat, aet: seq<Edge>, bundled: seq<Edge>,
                    scanned: seq<Edge>, kept: seq<Edge>, before: Store, out: Store)
    requires Chained(t) && Heights(t, ys) && k + 1 < |ys|
    requires AtBoundary(op, t, ys[k], Present(t, ys[k]), aet, before)
    requires Handed(ys[k], ys[k + 1], aet, bundled, scanned, kept)
    requires RowHeld(op, Segments(t), StartParity(op), Aboves(scanned), out) && Sided(StartParity(op), Aboves(scanned))
    ensures InteriorPre(op, Segments(t), StartParity(op), ys[k], ys[k + 1], kept, out)
    ensures Holds(kept, GoingOn(t, ys[k], Present(t, ys[k]))) && Informed(t, kept)
    ensures ParityAfter(StartParity(op), Aboves(kept)) == ParityAfter(StartParity(op), Aboves(scanned))
    ensures Busy(Aboves(kept)) == Busy(Aboves(scanned))
  {
    hide RowHeld, Sided, Holds, BottomSorted, Bundled, Headed, Balanced, Handed, Present, ParityAfter, GoingOn,
      Chained, ReadsBelow;
    KeptSpans(t, ys, k, Present(t, ys[k]), aet, bundled, scanned, kept);
    assert Informed(t, aet) by { assert forall i :: 0 <= i < |aet| ==> StandsAt(t, ys[k], aet[i]); }
    KeptHolds(t, ys[k], ys[k + 1], Present(t, ys[k]), aet, bundled, scanned, kept);
    KeptRow(op, Segments(t), StartParity(op), ys[k], ys[k + 1], aet, bundled, scanned, kept, out);
  }

  /** From the top of the scanbeam to the next boundary. */

  /** The edges that reach height `y` from below. */
  function Arriving(t: Table, y: real): set<nat> {
    Present(t, y) - Starting(t, y)
  }

  function NextId(t: Table, yt: real, id: nat): nat
    requires id < |t|
  {
    if t[id].seg.top.y == yt && t[id].succ.Some? && t[id].succ.value < |t| then t[id].succ.value else id
  }

  function NextIds(t: Table, yt: real, ids: set<nat>): set<nat> {
    set id: nat | id in ids && id < |t| :: NextId(t, yt, id)
  }

  lemma NextIdArrives(t: Table, ys: seq<real>, k: nat, id: nat)
    requires Chained(t) && Heights(t, ys) && k + 1 < |ys|
    requires id < |t| && CrossedAbove(t, id, ys[k])
    ensures var n := NextId(t, ys[k + 1], id);
            n in Present(t, ys[k + 1]) && n !in Starting(t, ys[k + 1])
  {
    assert ChainedAt(t, id);
    assert t[id].seg.top.y in ys;
    if t[id].succ.Some? {
      assert ChainedAt(t, t[id].succ.value);
      assert t[t[id].succ.value].seg.top.y in ys;
    }
    hide Chained, Heights;
    NextHeight(ys, k, t[id].seg.top.y);
  }

  lemma ArrivingIsNext(t: Table, ys: seq<real>, k: nat, id: nat) returns (from: nat)
    requires Chained(t) && Heights(t, ys) && k + 1 < |ys|
    requires id in Present(t, ys[k + 1]) && id !in Starting(t, ys[k + 1])
    ensures from < |t| && CrossedAbove(t, from, ys[k]) && NextId(t, ys[k + 1], from) == id
  {
    assert ChainedAt(t, id);
    NextHeight(ys, k, t[id].seg.bot.y);
    if t[id].seg.bot.y == ys[k + 1] {
      from := t[id].pred.value;
      assert ChainedAt(t, from);
      NextHeight(ys, k, t[from].seg.bot.y);
    } else {
      from := id;
    }
  }

  /** The edges that go on above a height are those crossed there. */
  lemma GoingOnCrosses(t: Table, y: real)
    requires Chained(t)
    ensures forall id: nat :: id in GoingOn(t, y, Present(t, y)) <==> id < |t| && CrossedAbove(t, id, y)
  {
    forall id: nat
      ensures id in GoingOn(t, y, Present(t, y)) <==> id < |t| && CrossedAbove(t, id, y)
    {
      assert id < |t| ==> ChainedAt(t, id);
    }
  }

  /** Exactly the edges that reach the next boundary are handed on to it. */
  lemma NextIdsArrive(t: Table, ys: seq<real>, k: nat)
    requires Chained(t) && Heights(t, ys) && k + 1 < |ys|
    ensures NextIds(t, ys[k + 1], GoingOn(t, ys[k], Present(t, ys[k]))) == Arriving(t, ys[k + 1])
  {
    hide Chained, Heights, Present, Starting, GoingOn, CrossedAbove, NextId, Arriving;
    var yt, from := ys[k + 1], GoingOn(t, ys[k], Present(t, ys[k]));
    GoingOnCrosses(t, ys[k]);
    forall id: nat | id in from
      ensures id < |t| && NextId(t, yt, id) in Arriving(t, yt)
    {
      NextIdArrives(t, ys, k, id);
      ArrivingDef(t, yt, NextId(t, yt, id));
    }
    forall id: nat | id in Arriving(t, yt)
      ensures id in NextIds(t, yt, from)
    {
      ArrivingDef(t, yt, id);
      var j := ArrivingIsNext(t, ys, k, id);
      assert j in from;
    }
  }

  lemma ArrivingDef(t: Table, y: real, id: nat)
    ensures id in Arriving(t, y) <==> id in Present(t, y) && id !in Starting(t, y)
  {
  }

  /** The row `next` is the row `s`, moved up to `yt`. */
  ghost predicate MovedUp(op: Op, t: Table, yt: real, s: seq<Edge>, next: seq<Edge>) {
    |next| == |s| && forall i :: 0 <= i < |s| ==> next[i] == NextEdge(op, t, yt, s[i])
  }

  lemma {:induction false} NextHolds(op: Op, t: Table, yt: real, s: seq<Edge>, next: seq<Edge>, ids: set<nat>)
    requires Chained(t) && Holds(s, ids) && Informed(t, s) && MovedUp(op, t, yt, s, next)
    requires forall id :: id in ids ==> id < |t| && t[id].seg.bot.y < yt
    ensures Holds(next, NextIds(t, yt, ids))
    decreases |s|
  {
    hide Holds, Chained, NextIds;
    if s == [] {
      HoldsNothing(ids);
      NextIdsOfNone(t, yt);
    } else {
      var id := s[0].id;
      HoldsTail(s, ids);
      NextHolds(op, t, yt, s[1..], next[1..], ids - {id});
      var n, rest := NextId(t, yt, id), NextIds(t, yt, ids - {id});
      assert next[0].id == n;
      NextIdOnce(t, yt, ids, id);
      NextIdsSplit(t, yt, ids, id);
      HoldsCons(next[0], next[1..], rest);
      assert next == [next[0]] + next[1..];
    }
  }

  lemma NextIdsOfNone(t: Table, yt: real)
    ensures NextIds(t, yt, {}) == {}
  {
  }

  lemma NextIdsSplit(t: Table, yt: real, ids: set<nat>, id: nat)
    requires id in ids && id < |t|
    ensures NextIds(t, yt, ids) == NextIds(t, yt, ids - {id}) + {NextId(t, yt, id)}
  {
    assert forall i :: i in ids ==> i == id || i in ids - {id};
  }

  lemma NextIdOnce(t: Table, yt: real, ids: set<nat>, id: nat)
    requires Chained(t) && id in ids
    requires forall i :: i in ids ==> i < |t| && t[i].seg.bot.y < yt
    ensures NextId(t, yt, id) !in NextIds(t, yt, ids - {id})
  {
    forall i | i in ids
      ensures NextId(t, yt, i) == NextId(t, yt, id) ==> i == id
    {
      assert ChainedAt(t, i) && ChainedAt(t, id);
    }
  }

  /** One edge, moved up, stands on the next boundary and goes on from where it was held. */
  lemma NextStands(op: Op, t: Table, yb: real, yt: real, e: Edge)
    requires Chained(t) && e.id < |t| && e.info == t[e.id] && yb < yt
    requires e.info.seg.bot.y <= yb && yt <= e.TopY() && e.xt == e.info.seg.XAt(yt)
    ensures var n := NextEdge(op, t, yt, e);
            && StandsAt(t, yt, n) && n.xb == e.xt && n.id == NextId(t, yt, e.id)
            && BelowStrand(t, yt, n) == AboveStrand(e).(side := NO_FLAGS)
  {
    assert ChainedAt(t, e.id);
    XAtTop(e.info.seg);
    if e.TopY() == yt && e.info.succ.Some? {
      assert ChainedAt(t, e.info.succ.value);
    }
  }

  lemma MovedStands(op: Op, t: Table, yb: real, yt: real, kept: seq<Edge>, crossed: seq<Edge>, next: seq<Edge>)
    requires Chained(t) && yb < yt && Informed(t, kept)
    requires forall e :: e in kept ==> Spans(Segments(t), yb, yt, e)
    requires forall f :: f in crossed ==> exists e :: e in kept && SameButPointers(e, f)
    requires MovedUp(op, t, yt, crossed, next)
    ensures Informed(t, crossed)
    ensures forall i :: 0 <= i < |next| ==> StandsAt(t, yt, next[i])
    ensures forall i :: 0 <= i < |next| ==> next[i].xb == crossed[i].xt == crossed[i].info.seg.XAt(yt)
    ensures forall i :: 0 <= i < |next| ==>
      BelowStrand(t, yt, next[i]) == AboveStrand(crossed[i]).(side := NO_FLAGS)
  {
    hide AboveStrand, BelowStrand, StandsAt, Chained;
    forall i | 0 <= i < |crossed|
      ensures crossed[i].id < |t| && crossed[i].info == t[crossed[i].id]
      ensures StandsAt(t, yt, next[i])
      ensures next[i].xb == crossed[i].xt == crossed[i].info.seg.XAt(yt)
      ensures BelowStrand(t, yt, next[i]) == AboveStrand(crossed[i]).(side := NO_FLAGS)
    {
      assert crossed[i] in crossed;
      var e :| e in kept && SameButPointers(e, crossed[i]);
      NextStands(op, t, yb, yt, crossed[i]);
    }
  }

  /** The sides crossed inside a scanbeam are those crossed just below its top. */
  lemma CrossedUpToTop(t: Table, ys: seq<real>, k: nat, id: nat)
    requires Heights(t, ys) && k + 1 < |ys| && id < |t|
    ensures CrossedAbove(t, id, ys[k]) <==> CrossedBelow(t, id, ys[k + 1])
  {
    NextHeight(ys, k, t[id].seg.bot.y);
    NextHeight(ys, k, t[id].seg.top.y);
    BeamRises(t, ys, k);
  }

  /** Left of every x, the row at the top of the scanbeam toggles the parity as the sides
      of the two polygons do just below it. */
  lemma NextReads(t: Table, ys: seq<real>, k: nat, p: Flags, from: set<nat>, crossed: seq<Edge>, next: seq<Edge>)
    requires Heights(t, ys) && k + 1 < |ys|
    requires forall id: nat :: id in from <==> id < |t| && CrossedAbove(t, id, ys[k])
    requires Holds(crossed, from) && Informed(t, crossed) && BalancedAt(p, crossed, ys[k + 1])
    requires |next| == |crossed| && forall i :: 0 <= i < |next| ==>
      && next[i].xb == crossed[i].xt == crossed[i].info.seg.XAt(ys[k + 1])
      && BelowStrand(t, ys[k + 1], next[i]) == AboveStrand(crossed[i]).(side := NO_FLAGS)
    ensures ReadsBelow(t, p, ys[k + 1], next)
  {
    hide Heights, CrossedAbove, BelowStrand, AboveStrand;
    var yt := ys[k + 1];
    forall x, i: nat | SplitsAt(next, x, i)
      ensures ParityAfter(p, Belows(t, yt, next[..i]))
           == p.Toggle(Flags(MemberBelow(t, Clip, x, yt), MemberBelow(t, Subj, x, yt)))
    {
      var part := set id: nat | id in from && id < |t| && t[id].seg.XAt(yt) < x;
      forall j | 0 <= j < |crossed|
        ensures crossed[j].id in part <==> crossed[j].xt < x
      {
        assert Ids(crossed)[j] == crossed[j].id && crossed[j].id in multiset(Ids(crossed));
        assert next[j].xb == crossed[j].xt;
      }
      assert LevelSplit(crossed, x, yt, i) by {
        assert forall j :: 0 <= j < |next| ==> next[j].xb == crossed[j].info.seg.XAt(yt);
      }
      SidesDoNotCount(Int, p, Aboves(crossed[..i]), Belows(t, yt, next[..i]), []);
      PrefixHolds(crossed, from, i, part);
      UnitParityCounts(t, p, crossed[..i], part);
      PartIsLeft(t, ys, k, x, from, part, Clip);
      PartIsLeft(t, ys, k, x, from, part, Subj);
    }
  }

  lemma PartIsLeft(t: Table, ys: seq<real>, k: nat, x: real, from: set<nat>, part: set<nat>, kind: Kind)
    requires Heights(t, ys) && k + 1 < |ys|
    requires forall id: nat :: id in from <==> id < |t| && CrossedAbove(t, id, ys[k])
    requires part == set id: nat | id in from && id < |t| && t[id].seg.XAt(ys[k + 1]) < x
    ensures OfKind(t, part, kind) == LeftBelow(t, kind, x, ys[k + 1])
  {
    hide Heights, CrossedAbove, CrossedBelow;
    forall id: nat
      ensures id in OfKind(t, part, kind) <==> id in LeftBelow(t, kind, x, ys[k + 1])
    {
      if id < |t| {
        CrossedUpToTop(t, ys, k, id);
      }
    }
  }

  /** What the inside of the scanbeam hands on, moved up, is the next boundary's row. */
  lemma NextIsReady(op: Op, t: Table, ys: seq<real>, k: nat, kept: seq<Edge>, crossed: seq<Edge>,
                    next: seq<Edge>, out: Store)
    requires Chained(t) && Heights(t, ys) && k + 1 < |ys|
    requires Holds(kept, GoingOn(t, ys[k], Present(t, ys[k]))) && Informed(t, kept)
    requires forall e :: e in kept ==> Spans(Segments(t), ys[k], ys[k + 1], e)
    requires Reordered(kept, crossed) && TopSorted(crossed) && BalancedAt(StartParity(op), crossed, ys[k + 1])
    requires RowHeld(op, Segments(t), StartParity(op), Aboves(crossed), out)
    requires ParityAfter(StartParity(op), Aboves(crossed)) == StartParity(op)
    requires MovedUp(op, t, ys[k + 1], crossed, next)
    ensures AtBoundary(op, t, ys[k + 1], Arriving(t, ys[k + 1]), next, out)
  {
    hide Holds, Present, GoingOn, Arriving, NextIds, Matched, Anchored, Sound, NextEdge, AboveStrand, BelowStrand,
      StandsAt, Spans, SameButPointers, Chained, Heights, BalancedAt, ReadsBelow, CrossedAbove, StartParity,
      ParityAfter;
    var yb, yt, p := ys[k], ys[k + 1], StartParity(op);
    BeamRises(t, ys, k);
    var from := GoingOn(t, yb, Present(t, yb));
    MovedStands(op, t, yb, yt, kept, crossed, next);
    HoldsReordered(kept, crossed, from);
    FromBelow(t, yb, yt);
    NextHolds(op, t, yt, crossed, next, from);
    NextIdsArrive(t, ys, k);
    GoingOnCrosses(t, yb);
    NextReads(t, ys, k, p, from, crossed, next);
    SidesDoNotCount(op, p, Aboves(crossed), Belows(t, yt, next), out);
  }

  lemma BeamRises(t: Table, ys: seq<real>, k: nat)
    requires Heights(t, ys) && k + 1 < |ys|
    ensures ys[k] < ys[k + 1]
  {
  }

  lemma HoldsReordered(s: seq<Edge>, t: seq<Edge>, ids: set<nat>)
    requires Holds(s, ids) && Reordered(s, t)
    ensures Holds(t, ids)
  {
  }

  lemma FromBelow(t: Table, yb: real, yt: real)
    requires yb < yt
    ensures forall id :: id in GoingOn(t, yb, Present(t, yb)) ==> id < |t| && t[id].seg.bot.y < yt
  {
  }
}
