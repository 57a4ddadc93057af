/**
 The region of the result polygon, from the count of its sides: how often its contours turn
 around a point, and even-odd membership.
 */
module ResultRegions {
  import opened Base
  import opened Sides
  import opened Polygons
  import opened Regions
  import opened Output
  import opened Results
  import opened Tally

  /** The result, as a polygon that the clipper could be called with again. */
  function AsPolygon(r: seq<ResultContour>): (p: Polygon)
    ensures |p| == |r|
  {
    seq(|r|, i requires 0 <= i < |r| => Contour(|r[i].vertex|, r[i].vertex))
  }

  /** How often a contour turns around a probe: the sides to the left of the probe that go up,
      less those that go down. */
  function ContourTurns(v: seq<Point>, q: Probe): int {
    if v == [] then 0 else -(PathHits(v, q) + Hit(v[|v| - 1], v[0], q))
  }

  function Turns(r: seq<ResultContour>, q: Probe): int {
    if r == [] then 0 else Turns(r[..|r| - 1], q) + ContourTurns(r[|r| - 1].vertex, q)
  }

  /** The sides of an open path are the first sides of the contour. */
  lemma {:induction false} PathIsSides(w: seq<Point>, k: nat, q: Probe)
    requires 0 < k <= |w|
    ensures (CountIf(SidesUpTo(w, k - 1), ToLeft(q.level, q.x, q.y)) - PathHits(w[..k], q)) % 2 == 0
    decreases k
  {
    hide ToLeft, Sides.Between, Hit;
    if k == 1 {
      assert SidesUpTo(w, 0) == [] && CountIf([], ToLeft(q.level, q.x, q.y)) == 0;
    } else {
      PathIsSides(w, k - 1, q);
      assert w[..k][..k - 1] == w[..k - 1];
      CountIfConcat(SidesUpTo(w, k - 2), SideOf(w, k - 2), ToLeft(q.level, q.x, q.y));
      HitIsSide(w[k - 2], w[k - 1], q);
    }
  }

  lemma HitIsSide(a: Point, b: Point, q: Probe)
    ensures (CountIf(Sides.Between(a, b), ToLeft(q.level, q.x, q.y)) - Hit(a, b, q)) % 2 == 0
  {
    var s := Sides.Between(a, b);
    if s != [] {
      assert s[..0] == [] && CountIf([], ToLeft(q.level, q.x, q.y)) == 0;
    }
  }

  /** A contour has a point by the even-odd rule exactly if it turns around it an odd number of
      times. */
  lemma ContourParity(w: seq<Point>, q: Probe)
    ensures ContourMember(q.level, w, q.x, q.y) == (ContourTurns(w, q) % 2 == 1)
  {
    hide ToLeft, Sides.Between, PathHits, Hit;
    var n := |w|;
    if n == 0 {
      assert CountIf([], ToLeft(q.level, q.x, q.y)) == 0;
    } else {
      assert w[..n] == w;
      PathIsSides(w, n, q);
      CountIfConcat(SidesUpTo(w, n - 1), SideOf(w, n - 1), ToLeft(q.level, q.x, q.y));
      HitIsSide(w[n - 1], w[0], q);
    }
  }

  lemma {:induction false} TurnsParity(r: seq<ResultContour>, q: Probe)
    ensures Member(q.level, AsPolygon(r), q.x, q.y) == (Turns(r, q) % 2 == 1)
    decreases |r|
  {
    hide Member, ContourTurns, ContourMember;
    var p := AsPolygon(r);
    MemberSplits(q.level, p, q.x, q.y);
    if r != [] {
      var n := |r| - 1;
      assert p[..n] == AsPolygon(r[..n]);
      TurnsParity(r[..n], q);
      ContourParity(r[n].vertex, q);
    }
  }

  /** Read backwards, every side counts with the opposite sign. */
  lemma {:induction false} ReversedHits(v: seq<Point>, q: Probe)
    ensures PathHits(Reversed(v), q) == -PathHits(v, q)
    decreases |v|
  {
    hide Hit;
    if v == [] {
      assert Reversed(v) == v;
    } else {
      var r := Reversed(v[1..]);
      assert Reversed(v) == r + [v[0]] && v == [v[0]] + v[1..];
      ReversedHits(v[1..], q);
      PathConcat(r, [v[0]], q);
      PathConcat([v[0]], v[1..], q);
      if |v| > 1 {
        HitBothWays(v[0], v[1], q);
      }
    }
  }

  /** A closed node counts what its contour in the result turns. */
  lemma ClosedContour(c: Poly, q: Probe)
    requires c.closed && c.verts != []
    ensures ContourTurns(Reversed(c.verts), q) == ContourHits(c, q)
  {
    hide Hit, PathHits;
    var v := c.verts;
    ReversedHits(v, q);
    HitBothWays(v[0], v[|v| - 1], q);
  }

  /** Contours of at most two vertices count nothing. */
  lemma ShortContour(c: Poly, q: Probe)
    requires c.closed && |c.verts| <= 2
    ensures ContourHits(c, q) == 0
  {
    hide Hit;
    if |c.verts| == 1 {
      HitBothWays(c.verts[0], c.verts[0], q);
    } else if |c.verts| == 2 {
      HitBothWays(c.verts[0], c.verts[1], q);
      assert PathHits(c.verts[..1], q) == 0;
    }
  }

  /** Every node is closed or has been absorbed. */
  ghost predicate Finished(s: Store) {
    forall r :: 0 <= r < |s| ==> FinishedNode(s[r])
  }

  predicate FinishedNode(c: Poly) {
    if c.active then c.closed && c.verts != [] else c.verts == []
  }

  /** The result turns around a probe as often as the contours' sides to its left count. */
  lemma {:induction false} ResultTurns(s: Store, q: Probe)
    requires Finished(s)
    ensures Turns(Extract(s), q) == Hits(s, q)
    decreases |s|
  {
    hide ContourHits, ContourTurns;
    var r := Extract(s);
    if s != [] {
      assert FinishedNode(s[0]) && Finished(s[1..]);
      ResultTurns(s[1..], q);
      if Valued(s[0]) {
        assert r[..|r| - 1] == Extract(s[1..]);
        ClosedContour(s[0], q);
      } else {
        assert r == Extract(s[1..]);
        if s[0].active {
          ShortContour(s[0], q);
        } else {
          NothingToHit(s[0], q);
        }
      }
    }
  }

  lemma NothingToHit(c: Poly, q: Probe)
    requires c.verts == []
    ensures ContourHits(c, q) == 0
  {
  }

  /** When no end is held any more, every node is finished. */
  lemma SoundIsFinished(segs: set<Segment>, s: Store)
    requires Sound(segs, multiset{}, s)
    ensures Finished(s)
  {
    forall r | 0 <= r < |s|
      ensures FinishedNode(s[r])
    {
      if s[r].active {
        AllClosed(s, r);
      }
    }
  }

  /** A contour that is no hole turns around a probe once or not at all; a hole turns around it once
      the other way or not at all. */
  predicate TurnsAsFlagged(c: ResultContour, q: Probe) {
    var n := ContourTurns(c.vertex, q);
    n == 0 || n == if c.hole then -1 else 1
  }

  ghost predicate AllTurnAsFlagged(r: seq<ResultContour>, q: Probe) {
    forall c :: c in r ==> TurnsAsFlagged(c, q)
  }

  /** How many contours, holes or others, turn around a probe. */
  function Surrounding(r: seq<ResultContour>, hole: bool, q: Probe): nat {
    if r == [] then 0
    else
      var c := r[|r| - 1];
      Surrounding(r[..|r| - 1], hole, q) + if c.hole == hole && ContourTurns(c.vertex, q) != 0 then 1 else 0
  }

  /** The contours that are no holes count for a probe, the holes against it. */
  lemma {:induction false} TurnsAreSurrounding(r: seq<ResultContour>, q: Probe)
    requires AllTurnAsFlagged(r, q)
    ensures Turns(r, q) == Surrounding(r, false, q) - Surrounding(r, true, q)
    decreases |r|
  {
    hide ContourTurns;
    if r != [] {
      var c := r[|r| - 1];
      assert c in r && TurnsAsFlagged(c, q);
      TurnsAreSurrounding(r[..|r| - 1], q);
    }
  }

  /** Two probes that all contours but one turn around equally often. */
  lemma {:induction false} TurnsDiffer(r: seq<ResultContour>, k: nat, q: Probe, q': Probe)
    requires k < |r|
    requires forall i :: 0 <= i < |r| && i != k ==> ContourTurns(r[i].vertex, q) == ContourTurns(r[i].vertex, q')
    ensures Turns(r, q') - Turns(r, q) == ContourTurns(r[k].vertex, q') - ContourTurns(r[k].vertex, q)
    decreases |r|
  {
    hide ContourTurns;
    var n := |r| - 1;
    if k == n {
      TurnsSame(r[..n], q, q');
    } else {
      TurnsDiffer(r[..n], k, q, q');
    }
  }

  lemma {:induction false} TurnsSame(r: seq<ResultContour>, q: Probe, q': Probe)
    requires forall i :: 0 <= i < |r| ==> ContourTurns(r[i].vertex, q) == ContourTurns(r[i].vertex, q')
    ensures Turns(r, q) == Turns(r, q')
    decreases |r|
  {
    hide ContourTurns;
    if r != [] {
      TurnsSame(r[..|r| - 1], q, q');
    }
  }
}
