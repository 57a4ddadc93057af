/**
 The sides of a contour that are not horizontal, and what `OPTIMAL` may drop without
 losing any of them.
 */
module Sides {
  import opened Base
  import opened Cycle

  /** The side from `a` up to `b`. */
  function Rising(a: Point, b: Point): (s: Segment)
    requires a.y < b.y
    ensures s.Valid() && s.bot == a && s.top == b
  {
    Segment(a, b, (b.x - a.x) / (b.y - a.y))
  }

  /** The side between two neighbouring vertices, directed upwards, unless it is horizontal. */
  function Between(a: Point, b: Point): seq<Segment> {
    if a.y < b.y then [Rising(a, b)] else if b.y < a.y then [Rising(b, a)] else []
  }

  /** The side that starts at vertex i. */
  function SideOf(w: seq<Point>, i: nat): seq<Segment>
    requires i < |w|
  {
    Between(w[i], w[NextIndex(i, |w|)])
  }

  /** The sides that are not horizontal among the first k, in order. */
  function SidesUpTo(w: seq<Point>, k: nat): seq<Segment>
    requires k <= |w|
  {
    if k == 0 then [] else SidesUpTo(w, k - 1) + SideOf(w, k - 1)
  }

  function SidesOf(w: seq<Point>): seq<Segment> {
    SidesUpTo(w, |w|)
  }

  /** How many of the sides pass a test. */
  function CountIf(s: seq<Segment>, test: Segment -> bool): nat {
    if s == [] then 0 else CountIf(s[..|s| - 1], test) + if test(s[|s| - 1]) then 1 else 0
  }

  lemma {:induction false} CountIfConcat(a: seq<Segment>, b: seq<Segment>, test: Segment -> bool)
    ensures CountIf(a + b, test) == CountIf(a, test) + CountIf(b, test)
  {
    if b == [] {
      assert a + b == a;
    } else {
      assert (a + b)[..|a + b| - 1] == a + b[..|b| - 1];
      CountIfConcat(a, b[..|b| - 1], test);
    }
  }

  /** Counting depends on the sides only, not on their order. */
  lemma {:induction false} CountIfPermuted(a: seq<Segment>, b: seq<Segment>, test: Segment -> bool)
    requires multiset(a) == multiset(b)
    ensures CountIf(a, test) == CountIf(b, test)
    decreases |a|
  {
    if a == [] {
      assert |multiset(b)| == 0;
    } else {
      var i := TakenOut(a, b);
      var x, r, l, m := a[|a| - 1], a[..|a| - 1], b[..i], b[i + 1..];
      CountIfPermuted(r, l + m, test);
      hide CountIf;
      CountIfConcat(l, m, test);
      CountIfConcat(l + [x], m, test);
      CountIfConcat(l, [x], test);
      CountIfConcat(r, [x], test);
      assert a == r + [x] && b == l + [x] + m;
    }
  }

  /** Where the last element of a permutation stands. */
  lemma TakenOut(a: seq<Segment>, b: seq<Segment>) returns (i: nat)
    requires a != [] && multiset(a) == multiset(b)
    ensures i < |b| && b[i] == a[|a| - 1] && multiset(a[..|a| - 1]) == multiset(b[..i] + b[i + 1..])
  {
    var x := a[|a| - 1];
    assert x in multiset(a) && x in multiset(b);
    i :| 0 <= i < |b| && b[i] == x;
    WithoutOne(a, |a| - 1);
    WithoutOne(b, i);
    assert a[..|a| - 1] + a[|a|..] == a[..|a| - 1];
  }

  lemma WithoutOne(s: seq<Segment>, i: nat)
    requires i < |s|
    ensures multiset(s[..i] + s[i + 1..]) == multiset(s) - multiset{s[i]}
  {
    assert s == s[..i] + [s[i]] + s[i + 1..];
  }

  predicate IsCrossed(s: Segment, l: Level, y: real) {
    match l
    case JustAbove => s.bot.y <= y < s.top.y
    case JustBelow => s.bot.y < y <= s.top.y
  }

  function CrossedAt(l: Level, y: real): Segment -> bool {
    (s: Segment) => IsCrossed(s, l, y)
  }

  predicate Over(p: Point, l: Level, y: real) {
    match l
    case JustAbove => p.y > y
    case JustBelow => p.y >= y
  }

  /** The number of the first k sides crossed at a level is even exactly if the chain of
      sides ends on the side of the level where it started. */
  lemma {:induction false} CrossingsSoFar(w: seq<Point>, l: Level, y: real, k: nat)
    requires k <= |w| && w != []
    ensures CountIf(SidesUpTo(w, k), CrossedAt(l, y)) % 2
         == if Over(w[0], l, y) == Over(w[if k == |w| then 0 else k], l, y) then 0 else 1
    decreases k
  {
    hide CrossedAt, Between, Over;
    if k > 0 {
      CrossingsSoFar(w, l, y, k - 1);
      CountIfConcat(SidesUpTo(w, k - 1), SideOf(w, k - 1), CrossedAt(l, y));
      OneSide(w[k - 1], w[NextIndex(k - 1, |w|)], l, y);
    }
  }

  lemma OneSide(a: Point, b: Point, l: Level, y: real)
    ensures CountIf(Between(a, b), CrossedAt(l, y)) == if Over(a, l, y) == Over(b, l, y) then 0 else 1
  {
    var s := Between(a, b);
    if s != [] {
      assert s[..0] == [] && CountIf([], CrossedAt(l, y)) == 0;
    }
  }

  /** A closed contour crosses every level an even number of times. */
  lemma CrossedEvenly(w: seq<Point>, l: Level, y: real)
    ensures CountIf(SidesOf(w), CrossedAt(l, y)) % 2 == 0
  {
    if w != [] {
      CrossingsSoFar(w, l, y, |w|);
    }
  }

  /** `OPTIMAL`: the vertex does not lie inside a run of horizontal sides. */
  predicate Optimal(v: seq<Point>, i: nat)
    requires i < |v|
  {
    v[PrevIndex(i, |v|)].y != v[i].y || v[NextIndex(i, |v|)].y != v[i].y
  }

  /** A vertex is kept exactly if it is an end of a side that is not horizontal. */
  lemma OptimalIsEnd(v: seq<Point>, i: nat)
    requires i < |v|
    ensures Optimal(v, i) <==> SideOf(v, PrevIndex(i, |v|)) != [] || SideOf(v, i) != []
  {
    assert NextIndex(PrevIndex(i, |v|), |v|) == i;
  }

  /** The optimal vertices among the first k. */
  function KeptUpTo(v: seq<Point>, k: nat): seq<Point>
    requires k <= |v|
  {
    if k == 0 then [] else KeptUpTo(v, k - 1) + if Optimal(v, k - 1) then [v[k - 1]] else []
  }

  function Kept(v: seq<Point>): seq<Point> {
    KeptUpTo(v, |v|)
  }

  lemma {:induction false} KeptPrefix(v: seq<Point>, j: nat, k: nat)
    requires j <= k <= |v|
    ensures KeptUpTo(v, j) <= KeptUpTo(v, k)
    decreases k
  {
    if j < k {
      KeptPrefix(v, j, k - 1);
    }
  }

  /** Where the run of dropped vertices from `a` on ends. */
  function NextKept(v: seq<Point>, a: nat): (b: nat)
    requires a <= |v|
    ensures a <= b <= |v| && (b < |v| ==> Optimal(v, b))
    ensures KeptUpTo(v, b) == KeptUpTo(v, a)
    decreases |v| - a
  {
    if a == |v| || Optimal(v, a) then a
    else assert KeptUpTo(v, a + 1) == KeptUpTo(v, a) + []; NextKept(v, a + 1)
  }

  /** A run of dropped vertices stays at one height. */
  lemma {:induction false} RunIsLevel(v: seq<Point>, a: nat)
    requires a < |v|
    ensures var b := NextKept(v, a); v[if b == |v| then 0 else b].y == v[a].y
    decreases |v| - a
  {
    if !Optimal(v, a) && a + 1 < |v| {
      RunIsLevel(v, a + 1);
    }
  }

  /** Where a kept vertex goes. */
  lemma KeptAt(v: seq<Point>, i: nat)
    requires i < |v| && Optimal(v, i)
    ensures |KeptUpTo(v, i + 1)| == |KeptUpTo(v, i)| + 1 <= |Kept(v)|
    ensures Kept(v)[|KeptUpTo(v, i)|] == v[i]
  {
    KeptPrefix(v, i + 1, |v|);
    assert KeptUpTo(v, i + 1)[|KeptUpTo(v, i)|] == v[i];
  }

  /** The run ends at a kept vertex at the latest. */
  lemma {:induction false} KeptBy(v: seq<Point>, a: nat, i: nat)
    requires a <= i < |v| && Optimal(v, i)
    ensures NextKept(v, a) <= i
    decreases i - a
  {
    if !Optimal(v, a) {
      KeptBy(v, a + 1, i);
    }
  }

  lemma FirstKept(v: seq<Point>, i: nat)
    requires i < |v| && Optimal(v, i)
    ensures NextKept(v, 0) <= i && KeptUpTo(v, NextKept(v, 0)) == []
  {
    KeptBy(v, 0, i);
  }

  /** The kept vertex after a kept vertex i is its old neighbour, or at the same height as
      both. */
  lemma AfterKept(v: seq<Point>, i: nat) returns (b: nat)
    requires i < |v| && Optimal(v, i)
    ensures b < |v| && |KeptUpTo(v, i)| < |Kept(v)|
    ensures Kept(v)[NextIndex(|KeptUpTo(v, i)|, |Kept(v)|)] == v[b]
    ensures b == NextIndex(i, |v|) || v[b].y == v[i].y == v[NextIndex(i, |v|)].y
  {
    hide KeptUpTo, NextKept;
    var j := |KeptUpTo(v, i)|;
    KeptAt(v, i);
    if i + 1 < |v| {
      RunIsLevel(v, i + 1);
      NextKeptStops(v, i + 1);
    }
    b := NextKept(v, i + 1);
    if b < |v| {
      KeptAt(v, b);
    } else {
      b := NextKept(v, 0);
      FirstKept(v, i);
      KeptAt(v, b);
      RunIsLevel(v, 0);
      NextKeptStops(v, 0);
    }
  }

  lemma NextKeptStops(v: seq<Point>, a: nat)
    requires a < |v|
    ensures NextKept(v, a) == a <==> Optimal(v, a)
  {
  }

  /** Between the places of two neighbouring kept vertices the side is the old one, and a
      dropped vertex starts no side. */
  lemma SideKept(v: seq<Point>, i: nat)
    requires i < |v|
    ensures Optimal(v, i) ==>
      |KeptUpTo(v, i)| < |Kept(v)| && SideOf(Kept(v), |KeptUpTo(v, i)|) == SideOf(v, i)
    ensures !Optimal(v, i) ==> SideOf(v, i) == []
  {
    hide KeptUpTo;
    if Optimal(v, i) {
      KeptAt(v, i);
      var b := AfterKept(v, i);
    }
  }

  lemma KeptIsAll(v: seq<Point>)
    ensures Kept(v) == KeptUpTo(v, |v|)
  {
  }

  /** Dropping the vertices that are not optimal changes no side that is not horizontal. */
  lemma {:induction false} SidesKeptUpTo(v: seq<Point>, k: nat)
    requires k <= |v|
    ensures |KeptUpTo(v, k)| <= |Kept(v)|
    ensures SidesUpTo(Kept(v), |KeptUpTo(v, k)|) == SidesUpTo(v, k)
    decreases k
  {
    hide Kept, SideOf, Optimal;
    KeptPrefix(v, k, |v|);
    assert KeptUpTo(v, k) <= Kept(v) by { KeptIsAll(v); }
    if k > 0 {
      SidesKeptUpTo(v, k - 1);
      SideKept(v, k - 1);
    }
  }

  /** Optimisation keeps all sides that are not horizontal, in order. */
  lemma OptimisationKeepsSides(v: seq<Point>)
    ensures SidesOf(Kept(v)) == SidesOf(v)
  {
    SidesKeptUpTo(v, |v|);
  }

  /** How far ahead of vertex a vertex b is. */
  function Away(d: Direction, a: nat, b: nat, n: nat): nat
    requires a < n && b < n
  {
    var (from, to) := if d == Forward then (a, b) else (b, a);
    if from <= to then to - from else to + n - from
  }

  /** On the way from a lowest vertex to a higher one, the contour starts to climb. */
  lemma {:induction false} LeavesLowest(w: seq<Point>, d: Direction, a: nat, b: nat) returns (i: nat)
    requires a < |w| && b < |w| && w[a].y < w[b].y && forall j :: 0 <= j < |w| ==> w[a].y <= w[j].y
    ensures i < |w| && w[i].y == w[a].y && Climbs(w, d, i)
    decreases Away(d, a, b, |w|)
  {
    if Climbs(w, d, a) {
      i := a;
    } else {
      i := LeavesLowest(w, d, Ahead(d, a, |w|), b);
    }
  }

  lemma {:induction false} LowestVertex(w: seq<Point>, k: nat) returns (a: nat)
    requires 0 < k <= |w|
    ensures a < k && forall j :: 0 <= j < k ==> w[a].y <= w[j].y
    decreases k
  {
    a := k - 1;
    if k > 1 {
      var b := LowestVertex(w, k - 1);
      if w[b].y < w[a].y {
        a := b;
      }
    }
  }

  /** A contour that keeps any vertex has a local minimum at its lowest height. */
  lemma KeptHasMinimum(v: seq<Point>, d: Direction) returns (i: nat)
    requires Kept(v) != []
    ensures var w := Kept(v); i < |w| && IsMin(w, d, i) && forall j :: 0 <= j < |w| ==> w[i].y <= w[j].y
  {
    var w := Kept(v);
    var j := SomeKept(v, |v|);
    var s := KeptEndsSide(v, j);
    OptimisationKeepsSides(v);
    var k := SomeSide(w, |w|);
    var a := LowestVertex(w, |w|);
    i := LeavesLowest(w, d, a, if w[k].y != w[a].y then k else NextIndex(k, |w|));
  }

  lemma {:induction false} SomeKept(v: seq<Point>, k: nat) returns (i: nat)
    requires k <= |v| && KeptUpTo(v, k) != []
    ensures i < |v| && Optimal(v, i)
    decreases k
  {
    if Optimal(v, k - 1) {
      i := k - 1;
    } else {
      i := SomeKept(v, k - 1);
    }
  }

  lemma {:induction false} SomeSide(w: seq<Point>, k: nat) returns (i: nat)
    requires k <= |w| && SidesUpTo(w, k) != []
    ensures i < |w| && w[i].y != w[NextIndex(i, |w|)].y
    decreases k
  {
    if SideOf(w, k - 1) != [] {
      i := k - 1;
    } else {
      i := SomeSide(w, k - 1);
    }
  }

  lemma {:induction false} SideIsAmong(w: seq<Point>, i: nat, k: nat)
    requires i < k <= |w|
    ensures forall s :: s in SideOf(w, i) ==> s in SidesUpTo(w, k)
    decreases k
  {
    if i < k - 1 {
      SideIsAmong(w, i, k - 1);
    }
  }

  /** Every kept vertex ends a side that is not horizontal. */
  lemma KeptEndsSide(v: seq<Point>, i: nat) returns (s: Segment)
    requires i < |v| && Optimal(v, i)
    ensures s in SidesOf(v) && (s.bot == v[i] || s.top == v[i])
  {
    var p := PrevIndex(i, |v|);
    if v[NextIndex(i, |v|)].y != v[i].y {
      SideIsAmong(v, i, |v|);
      s := SideOf(v, i)[0];
    } else {
      SideIsAmong(v, p, |v|);
      assert NextIndex(p, |v|) == i;
      s := SideOf(v, p)[0];
    }
  }
}
