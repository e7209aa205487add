/**
 Real-valued 3-vectors as the tracker uses them, with one extra value for a vector
 whose components are infinite or not-a-number.  The tracker produces such a vector
 when it divides a position error by a zero time step; from then on every comparison
 against a distance involving it is false, which is what `Within` and `Less` say.
 */
module Vectors {

  datatype Vec = Vec(x: real, y: real, z: real) | NonFinite

  const ZERO: Vec := Vec(0.0, 0.0, 0.0)

  datatype Axis = X | Y | Z

  function Coord(v: Vec, c: Axis): real
    requires v.Vec?
  {
    match c case X => v.x case Y => v.y case Z => v.z
  }

  function Add(a: Vec, b: Vec): Vec {
    if a.Vec? && b.Vec? then Vec(a.x + b.x, a.y + b.y, a.z + b.z) else NonFinite
  }

  function Sub(a: Vec, b: Vec): Vec {
    if a.Vec? && b.Vec? then Vec(a.x - b.x, a.y - b.y, a.z - b.z) else NonFinite
  }

  /** The product, under a name that proofs about sums need not look into. */
  function Times(a: real, b: real): real {
    a * b
  }

  function Scale(k: real, v: Vec): Vec {
    if v.Vec? then Vec(Times(k, v.x), Times(k, v.y), Times(k, v.z)) else NonFinite
  }

  /** Division by a scalar; by zero, every component is infinite or not-a-number. */
  function Over(v: Vec, k: real): Vec {
    if v.Vec? && k != 0.0 then Vec(v.x / k, v.y / k, v.z / k) else NonFinite
  }

  /** A squared distance, or `Unbounded` for one that is infinite or not-a-number. */
  datatype Distance = Dist(d: real) | Unbounded

  function Square(r: real): real {
    r * r
  }

  function DistSq(a: Vec, b: Vec): Distance {
    if a.Vec? && b.Vec? then
      Dist(Square(a.x - b.x) + Square(a.y - b.y) + Square(a.z - b.z))
    else
      Unbounded
  }

  /** `a < b`, where an unbounded right-hand side is the initial `infinity()` of a search. */
  predicate Less(a: Distance, b: Distance) {
    a.Dist? && (b.Unbounded? || a.d < b.d)
  }

  predicate Within(a: Vec, b: Vec, limit: real) {
    Less(DistSq(a, b), Dist(limit))
  }

  /** `p` lies on the segment from `a` to `b`, at fraction `f` of the way. */
  predicate OnSegment(p: Vec, a: Vec, b: Vec, f: real) {
    0.0 <= f <= 1.0 && p == Add(a, Scale(f, Sub(b, a)))
  }

  // ----- what the distance measures ---------------------------------------------------------------

  /** The distance is symmetric, and zero between equal points only. */
  lemma DistanceZeroIff(a: Vec, b: Vec)
    ensures DistSq(a, b) == DistSq(b, a)
    ensures DistSq(a, b).Dist? <==> a.Vec? && b.Vec?
    ensures DistSq(a, b).Dist? ==> DistSq(a, b).d >= 0.0 && (DistSq(a, b).d == 0.0 <==> a == b)
  {
    if a.Vec? && b.Vec? {
      SquareSign(a.x - b.x, b.x - a.x);
      SquareSign(a.y - b.y, b.y - a.y);
      SquareSign(a.z - b.z, b.z - a.z);
    }
  }

  lemma SquareSign(d: real, e: real)
    requires e == -d
    ensures Square(d) == Square(e) && Square(d) >= 0.0 && (Square(d) == 0.0 <==> d == 0.0)
  {
    NegatedSquare(d, e);
    hide Square;
    if d > 0.0 {
      PositiveSquare(d);
    } else if d < 0.0 {
      PositiveSquare(e);
    } else {
      ZeroSquare();
    }
  }

  lemma NegatedSquare(d: real, e: real)
    requires e == -d
    ensures Square(d) == Square(e)
  {
  }

  lemma PositiveSquare(m: real)
    requires m > 0.0
    ensures Square(m) > 0.0
  {
    calc {
      Square(m);
      m * m;
      > { PositiveTimesItself(m); }
      0.0;
    }
  }

  lemma PositiveTimesItself(m: real)
    requires m > 0.0
    ensures m * m > 0.0
  {
  }

  lemma ZeroSquare()
    ensures Square(0.0) == 0.0
  {
  }

  /** The point `d` away from `a` along one axis. */
  function Along(a: Vec, c: Axis, d: real): Vec
    requires a.Vec?
  {
    match c
    case X => a.(x := a.x + d)
    case Y => a.(y := a.y + d)
    case Z => a.(z := a.z + d)
  }

  /** Along each axis it is the square of the difference, and steps along different axes add up. */
  lemma DistanceAlongAxes(a: Vec, p: real, q: real, r: real)
    requires a.Vec?
    ensures DistSq(a, Along(a, X, p)) == Dist(p * p)
    ensures DistSq(a, Along(a, Y, q)) == Dist(q * q)
    ensures DistSq(a, Along(a, Z, r)) == Dist(r * r)
    ensures DistSq(a, Along(Along(Along(a, X, p), Y, q), Z, r)) == Dist(p * p + q * q + r * r)
  {
    SquareOf(a.x, p);
    SquareOf(a.y, q);
    SquareOf(a.z, r);
    SquareOf(a.x, 0.0);
    SquareOf(a.y, 0.0);
    SquareOf(a.z, 0.0);
  }

  lemma SquareOf(x: real, d: real)
    ensures Square(x - (x + d)) == d * d
  {
    assert x - (x + d) == -d;
  }
}
