/**
 Counting sides.  A probe is a place just left of a point, at a level just above or just
 below its height.  The sides of the output contours to the left of a probe are counted,
 together with the rays that the contours' open ends will follow upwards.

 Sides count with a sign: from the left end of a contour to its right end, a side that goes
 down counts 1 and a side that goes up counts -1.  So what a left end draws counts 1, and what
 a right end draws counts -1.
 */
module Tally {
  import opened Base
  import opened Output
  import opened Strands
  import opened Sides
  import opened Regions
  import opened Sums

  datatype Probe = Probe(level: Level, x: real, y: real)

  /** The probe's level lies below height h. */
  predicate Below(q: Probe, h: real) {
    match q.level
    case JustAbove => q.y < h
    case JustBelow => q.y <= h
  }

  /** What the side from `a` to `b` counts: nothing unless it is crossed at the probe's level,
      left of the probe. */
  function Hit(a: Point, b: Point, q: Probe): int {
    if a.y > b.y && ToLeft(q.level, q.x, q.y)(Rising(b, a)) then 1
    else if a.y < b.y && ToLeft(q.level, q.x, q.y)(Rising(a, b)) then -1
    else 0
  }

  lemma HitBothWays(a: Point, b: Point, q: Probe)
    ensures Hit(a, b, q) == -Hit(b, a, q)
    ensures a.y == b.y ==> Hit(a, b, q) == 0
  {
  }

  /** A side hits nothing above its ends. */
  lemma HitNone(a: Point, b: Point, q: Probe, h: real)
    requires a.y <= h && b.y <= h && !Below(q, h)
    ensures Hit(a, b, q) == 0
  {
  }

  /** The sides of a path. */
  function PathHits(v: seq<Point>, q: Probe): int
    decreases |v|
  {
    if |v| < 2 then 0 else PathHits(v[..|v| - 1], q) + Hit(v[|v| - 2], v[|v| - 1], q)
  }

  lemma {:induction false} PathConcat(v: seq<Point>, w: seq<Point>, q: Probe)
    ensures PathHits(v + w, q)
         == PathHits(v, q) + PathHits(w, q) + if v != [] && w != [] then Hit(v[|v| - 1], w[0], q) else 0
    decreases |w|
  {
    hide Hit;
    if w == [] {
      assert v + w == v;
    } else if v == [] {
      assert v + w == w;
    } else {
      var n := |w| - 1;
      assert (v + w)[..|v + w| - 1] == v + w[..n];
      PathConcat(v, w[..n], q);
    }
  }

  /** The sides of a contour, with the one that closed it. */
  function ContourHits(c: Poly, q: Probe): int {
    PathHits(c.verts, q) + if c.closed && c.verts != [] then Hit(c.verts[|c.verts| - 1], c.verts[0], q) else 0
  }

  function HitsIn(q: Probe): Poly -> int {
    (c: Poly) => ContourHits(c, q)
  }

  lemma HitsShaped(q: Probe)
    ensures Shaped(HitsIn(q))
  {
  }

  /** The sides of all contours. */
  function Hits(s: Store, q: Probe): int {
    Sum(s, HitsIn(q))
  }

  /** What an end at `v` draws when it moves to `pt`. */
  function Stroke(side: Side, v: Point, pt: Point, q: Probe): int {
    if side == Left then Hit(pt, v, q) else Hit(v, pt, q)
  }

  /** A vertex added at an end adds the side that leads to it. */
  lemma AddHits(s: Store, e: End, pt: Point, q: Probe)
    requires Valid(s) && e.poly < |s| && Open(s, Rep(s, e))
    ensures Hits(Add(s, e, pt), q) == Hits(s, q) + Stroke(e.side, EndVertex(s, e), pt, q)
  {
    hide Hit, Sum, PathHits;
    var v := s[Rep(s, e)].verts;
    PathOfOne(pt, q);
    PathConcat([pt], v, q);
    PathConcat(v, [pt], q);
    AddSum(s, e, pt, HitsIn(q));
  }

  lemma PathOfOne(pt: Point, q: Probe)
    ensures PathHits([pt], q) == 0
  {
  }

  lemma StartHits(s: Store, pt: Point, q: Probe)
    ensures Hits(AddLocalMin(s, pt), q) == Hits(s, q)
  {
    hide Hit, Sum, PathHits;
    PathOfOne(pt, q);
    AddLocalMinSum(s, pt, HitsIn(q));
  }

  /** Joining two ends adds the side between them. */
  lemma JoinHits(s: Store, p: nat, r: nat, side: Side, q: Probe)
    requires Valid(s) && p < |s| && r < |s| && Open(s, s[p].proxy) && Open(s, s[r].proxy)
    ensures Hits(Merge(s, p, r, side), q)
         == Hits(s, q) + Stroke(side, EndVertex(s, End(p, side)), EndVertex(s, End(r, Other(side))), q)
  {
    hide Hit, Sum, PathHits, Shaped;
    var v, w := s[s[p].proxy].verts, s[s[r].proxy].verts;
    PathConcat(v, w, q);
    PathConcat(w, v, q);
    HitsShaped(q);
    MergeSum(s, p, r, side, HitsIn(q));
  }

  /** All vertices lie at or below height h. */
  ghost predicate UpTo(s: Store, h: real) {
    forall r :: 0 <= r < |s| ==> PathUpTo(s[r].verts, h)
  }

  predicate PathUpTo(v: seq<Point>, h: real) {
    forall i :: 0 <= i < |v| ==> v[i].y <= h
  }

  lemma UpToHigher(s: Store, h: real, k: real)
    requires UpTo(s, h) && h <= k
    ensures UpTo(s, k)
  {
    forall r | 0 <= r < |s|
      ensures PathUpTo(s[r].verts, k)
    {
      assert PathUpTo(s[r].verts, h);
    }
  }

  lemma AddUpTo(s: Store, e: End, pt: Point, h: real)
    requires Valid(s) && e.poly < |s| && UpTo(s, h) && pt.y <= h
    ensures UpTo(Add(s, e, pt), h)
  {
    AddKeepsOthers(s, e, pt);
    var t, rep := Add(s, e, pt), Rep(s, e);
    forall r | 0 <= r < |t|
      ensures PathUpTo(t[r].verts, h)
    {
      assert PathUpTo(s[r].verts, h);
      assert r != rep ==> t[r] == s[r];
    }
  }

  lemma StartUpTo(s: Store, pt: Point, h: real)
    requires UpTo(s, h) && pt.y <= h
    ensures UpTo(AddLocalMin(s, pt), h)
  {
    var t := AddLocalMin(s, pt);
    forall r | 0 <= r < |t|
      ensures PathUpTo(t[r].verts, h)
    {
      assert r < |s| ==> PathUpTo(s[r].verts, h);
    }
  }

  lemma JoinUpTo(s: Store, p: nat, q: nat, side: Side, h: real)
    requires Valid(s) && p < |s| && q < |s| && UpTo(s, h)
    ensures UpTo(Merge(s, p, q, side), h)
  {
    var t, rp, rq := Merge(s, p, q, side), s[p].proxy, s[q].proxy;
    forall r | 0 <= r < |t|
      ensures PathUpTo(t[r].verts, h)
    {
      assert PathUpTo(s[r].verts, h) && PathUpTo(s[rp].verts, h) && PathUpTo(s[rq].verts, h);
    }
  }

  lemma EndUpTo(s: Store, e: End, h: real)
    requires Valid(s) && e.poly < |s| && UpTo(s, h)
    ensures EndVertex(s, e).y <= h
  {
    assert PathUpTo(s[Rep(s, e)].verts, h);
  }

  /** Nothing is hit above all vertices. */
  lemma NoHits(s: Store, q: Probe, h: real)
    requires UpTo(s, h) && !Below(q, h)
    ensures Hits(s, q) == 0
  {
    hide Hit;
    forall r | 0 <= r < |s|
      ensures HitsIn(q)(s[r]) == 0
    {
      var v := s[r].verts;
      assert PathUpTo(v, h);
      NoPathHits(v, q, h);
      if v != [] {
        HitNone(v[|v| - 1], v[0], q, h);
      }
    }
    SumZero(s, HitsIn(q));
  }

  lemma {:induction false} NoPathHits(v: seq<Point>, q: Probe, h: real)
    requires PathUpTo(v, h) && !Below(q, h)
    ensures PathHits(v, q) == 0
    decreases |v|
  {
    if |v| >= 2 {
      NoPathHits(v[..|v| - 1], q, h);
      HitNone(v[|v| - 2], v[|v| - 1], q, h);
    }
  }

  function Sign(side: Side): int {
    if side == Left then 1 else -1
  }

  /** The ray that an end at `v` draws up along `line`. */
  function RayHit(line: Segment, v: Point, side: Side, q: Probe): int {
    if !Below(q, v.y) && line.XAt(q.y) < q.x then Sign(side) else 0
  }

  /** What an output pointer's end will follow. */
  ghost function Ray(line: Segment, s: Store, o: Option<nat>, side: Side, q: Probe): int {
    if o.Some? && Valid(s) && o.value < |s| then RayHit(line, EndVertex(s, End(o.value, side)), side, q) else 0
  }

  lemma SameLine(line: Segment, a: Point, b: Point, y: real)
    requires line.Contains(a) && line.Contains(b) && a.y < b.y
    ensures Rising(a, b).XAt(y) == line.XAt(y)
  {
    var d := line.dx;
    var u := Rising(a, b).dx;
    assert b.x - a.x == d * (b.y - line.bot.y) - d * (a.y - line.bot.y) == d * (b.y - a.y);
    assert u * (b.y - a.y) == b.x - a.x;
    assert (u - d) * (b.y - a.y) == u * (b.y - a.y) - d * (b.y - a.y) == 0.0;
    assert u == d;
    assert d * (y - line.bot.y) == d * (a.y - line.bot.y) + d * (y - a.y);
  }

  /** Below the height that it reaches, what an end draws along a line is what the ray counted. */
  lemma RayBecomesSide(line: Segment, v: Point, pt: Point, side: Side, q: Probe)
    requires line.Contains(v) && line.Contains(pt) && v.y <= pt.y && Below(q, pt.y)
    ensures Stroke(side, v, pt, q) == RayHit(line, v, side, q)
  {
    if v.y < pt.y {
      SameLine(line, v, pt, q.y);
    }
  }

  /** The rays of a row. */
  ghost function Rays(op: Op, p: Flags, s: seq<Strand>, out: Store, q: Probe): int
    decreases |s|
  {
    if s == [] then 0
    else Ray(s[0].line, out, s[0].out, HeldSide(op, p), q) + Rays(op, p.Toggle(s[0].flags), s[1..], out, q)
  }

  lemma {:induction false} RaysConcat(op: Op, p: Flags, a: seq<Strand>, b: seq<Strand>, out: Store, q: Probe)
    ensures Rays(op, p, a + b, out, q) == Rays(op, p, a, out, q) + Rays(op, ParityAfter(p, a), b, out, q)
    decreases |a|
  {
    hide Ray;
    if a == [] {
      assert a + b == b;
    } else {
      assert (a + b)[1..] == a[1..] + b;
      RaysConcat(op, p.Toggle(a[0].flags), a[1..], b, out, q);
    }
  }

  lemma RaysFirst(op: Op, p: Flags, x: Strand, s: seq<Strand>, out: Store, q: Probe)
    ensures Rays(op, p, [x] + s, out, q)
         == Ray(x.line, out, x.out, HeldSide(op, p), q) + Rays(op, p.Toggle(x.flags), s, out, q)
  {
    hide Ray;
    assert ([x] + s)[1..] == s;
  }

  lemma RaysLast(op: Op, p: Flags, s: seq<Strand>, x: Strand, out: Store, q: Probe)
    ensures Rays(op, p, s + [x], out, q)
         == Rays(op, p, s, out, q) + Ray(x.line, out, x.out, HeldSide(op, ParityAfter(p, s)), q)
  {
    hide Ray, ParityAfter;
    RaysConcat(op, p, s, [x], out, q);
    assert [x] + [] == [x];
    RaysFirst(op, ParityAfter(p, s), x, [], out, q);
  }

  /** Rays survive any change of the contours that leaves the row's ends alone. */
  lemma {:induction false} RaysFrame(op: Op, p: Flags, s: seq<Strand>, out: Store, out': Store, q: Probe)
    requires Valid(out) && Valid(out') && |out| <= |out'|
    requires Anchored(op, p, s, out) && Undisturbed(Ends(op, p, s), out, out')
    ensures Rays(op, p, s, out', q) == Rays(op, p, s, out, q)
    decreases |s|
  {
    hide RayHit, Valid;
    if s != [] {
      var r := p.Toggle(s[0].flags);
      if s[0].out.Some? {
        var e := End(s[0].out.value, HeldSide(op, p));
        assert Ends(op, p, s)[e] > 0;
        assert EndVertex(out', e) == EndVertex(out, e);
      }
      assert Ends(op, r, s[1..]) <= Ends(op, p, s);
      RaysFrame(op, r, s[1..], out, out', q);
    }
  }

  lemma {:induction false} RaysBusy(op: Op, p: Flags, s: seq<Strand>, out: Store, q: Probe)
    ensures Rays(op, p, Busy(s), out, q) == Rays(op, p, s, out, q)
    decreases |s|
  {
    hide RayHit, EndVertex, Valid;
    if s != [] {
      RaysBusy(op, p.Toggle(s[0].flags), s[1..], out, q);
      if Idle(s[0]) {
        assert p.Toggle(s[0].flags) == p;
        assert Busy(s) == Busy(s[1..]);
      } else {
        assert Busy(s)[1..] == Busy(s[1..]);
      }
    }
  }

  lemma {:induction false} RaysButSides(op: Op, p: Flags, s: seq<Strand>, t: seq<Strand>, out: Store, q: Probe)
    requires SameButSides(s, t)
    ensures Rays(op, p, s, out, q) == Rays(op, p, t, out, q)
    decreases |s|
  {
    hide Ray;
    if s != [] {
      RaysButSides(op, p.Toggle(s[0].flags), s[1..], t[1..], out, q);
    }
  }

  /** The sides drawn so far and the rays of the row, counted together. */
  ghost function Total(op: Op, p: Flags, s: seq<Strand>, out: Store, q: Probe): int {
    Hits(out, q) + Rays(op, p, s, out, q)
  }
}
