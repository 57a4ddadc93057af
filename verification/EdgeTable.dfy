/**
 What the sweep relies on in its tables: the edge table, the scanbeam table and the local
 minima table.
 */
module EdgeTable {
  import opened Base
  import opened Edges
  import opened LocalMinima

  /** Every edge rises, and `pred` and `succ` chain edges that meet end to end. */
  ghost predicate Chained(t: Table) {
    forall i :: 0 <= i < |t| ==> ChainedAt(t, i)
  }

  ghost predicate ChainedAt(t: Table, i: nat)
    requires i < |t|
  {
    && t[i].seg.Valid()
    && (t[i].succ.Some? ==> Follows(t, i, t[i].succ.value))
    && (t[i].pred.Some? ==> Follows(t, t[i].pred.value, i))
  }

  ghost predicate Follows(t: Table, i: nat, j: nat) {
    && i < |t| && j < |t|
    && t[i].succ == Some(j) && t[j].pred == Some(i)
    && t[i].seg.top == t[j].seg.bot && t[i].kind == t[j].kind
  }

  /** The edge is crossed just above height `y`. */
  predicate CrossedAbove(t: Table, i: nat, y: real) {
    i < |t| && t[i].seg.bot.y <= y < t[i].seg.top.y
  }

  /** The edge is crossed just below height `y`. */
  predicate CrossedBelow(t: Table, i: nat, y: real) {
    i < |t| && t[i].seg.bot.y < y <= t[i].seg.top.y
  }

  function CrossedAt(t: Table, kind: Kind, y: real): set<nat> {
    set i: nat | 0 <= i < |t| && t[i].kind == kind && CrossedAbove(t, i, y)
  }

  /** Closed contours are crossed an even number of times at every height. */
  ghost predicate Even(t: Table) {
    forall kind, y :: |CrossedAt(t, kind, y)| % 2 == 0
  }

  /** The scanbeam table: the heights of the edges' ends, in order. */
  ghost predicate Heights(t: Table, ys: seq<real>) {
    && (forall k, l :: 0 <= k < l < |ys| ==> ys[k] < ys[l])
    && (forall i :: 0 <= i < |t| ==> t[i].seg.bot.y in ys && t[i].seg.top.y in ys)
    && (forall y :: y in ys ==> exists i :: 0 <= i < |t| && (t[i].seg.bot.y == y || t[i].seg.top.y == y))
  }

  /** The edges of the active edge table at height `y`: those crossed there, and those
      that end there without a successor. */
  function Present(t: Table, y: real): set<nat> {
    set i: nat | 0 <= i < |t| && (CrossedAbove(t, i, y) || (t[i].seg.top.y == y && t[i].succ.None?))
  }

  /** The edges that start a bound at height `y`. */
  function Starting(t: Table, y: real): set<nat> {
    set i: nat | 0 <= i < |t| && t[i].seg.bot.y == y && t[i].pred.None?
  }

  /** The local minima table holds, in order of height, every edge that starts a bound,
      exactly once; those of one height from left to right. */
  ghost predicate Minima(t: Table, lmt: seq<Minimum>) {
    && (forall m, n :: 0 <= m < n < |lmt| ==> lmt[m].y < lmt[n].y)
    && (forall m :: 0 <= m < |lmt| ==> MinimumAt(t, lmt[m]))
    && (forall i :: 0 <= i < |t| && t[i].pred.None? ==> exists m :: 0 <= m < |lmt| && lmt[m].y == t[i].seg.bot.y)
  }

  ghost predicate MinimumAt(t: Table, m: Minimum) {
    m.bounds != [] && multiset(m.bounds) == multiset(Starting(t, m.y)) && BoundsSorted(t, m.bounds)
  }
}
