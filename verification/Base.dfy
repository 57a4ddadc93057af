/**
 Vocabulary shared by the whole model: points, set operations, per-polygon
 flags and the half-open segments that the polygons' sides become.

 Coordinates are exact reals.  Arrays that the program indexes with CLIP and
 SUBJ are values of type `Flags`.
 */
module Base {

  datatype Option<+T> = None | Some(value: T)

  datatype Point = Point(x: real, y: real)

  /** The largest finite double, (2^53 - 1) * 2^971. */
  const DBL_MAX: real :=
    179769313486231570814527423731704356798070567525844996598917476803157260780028538760589558632766878171540458953514382464234321326889464182768467546703537516986049910576551282076245490090389328944075868508455133942304583236903222948165808559332123348274797826204144723168738177180919299881250404026184124858368.0

  datatype Op = Diff | Int | Xor | Union

  datatype Kind = Clip | Subj

  datatype Side = Left | Right

  /** One flag for each polygon. */
  datatype Flags = Flags(clip: bool, subj: bool) {
    function Toggle(other: Flags): Flags {
      Flags(clip != other.clip, subj != other.subj)
    }

    predicate Any() {
      clip || subj
    }
  }

  const NO_FLAGS := Flags(false, false)

  /** The flag of one polygon alone. */
  function Unit(kind: Kind): Flags {
    Flags(kind == Clip, kind == Subj)
  }

  /** The set operation asked for, on even-odd membership in the two polygons. */
  predicate SetOperation(op: Op, inSubj: bool, inClip: bool) {
    match op
    case Diff => inSubj && !inClip
    case Int => inSubj && inClip
    case Xor => inSubj != inClip
    case Union => inSubj || inClip
  }

  /** Initial value of the running parity: a difference inverts the clip polygon. */
  function StartParity(op: Op): Flags {
    Flags(op == Diff, false)
  }

  /** Occupancy of a region as the sweep computes it from a parity. */
  predicate Inside(op: Op, parity: Flags) {
    match op
    case Diff => parity.clip && parity.subj
    case Int => parity.clip && parity.subj
    case Xor => parity.clip != parity.subj
    case Union => parity.clip || parity.subj
  }

  /** A side of a polygon that is not horizontal, directed upwards. */
  datatype Segment = Segment(bot: Point, top: Point, dx: real) {
    predicate Valid() {
      && bot.y < top.y
      && dx * (top.y - bot.y) == top.x - bot.x
    }

    function XAt(y: real): real {
      bot.x + dx * (y - bot.y)
    }

    predicate Contains(p: Point) {
      bot.y <= p.y <= top.y && p.x == XAt(p.y)
    }
  }

  /** Just above or just below a height.  Just above it, the lower end of a side belongs to
      the side and the upper end does not; just below it, it is the other way round. */
  datatype Level = JustAbove | JustBelow

  predicate Odd(n: nat) {
    n % 2 == 1
  }

  /** The straight line from `a` to `b` is horizontal or runs along one of `segs`. */
  ghost predicate Along(segs: set<Segment>, a: Point, b: Point) {
    a.y == b.y || exists s :: s in segs && s.Contains(a) && s.Contains(b)
  }

  /** The point lies on one of `segs`. */
  ghost predicate OnSide(segs: set<Segment>, p: Point) {
    exists s :: s in segs && s.Contains(p)
  }
}
