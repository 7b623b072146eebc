/** The four fan shapes: where each position of a fan sits between From and To, and the value it takes. */
module FanShapes {
  import opened Prelude

  datatype Shape = Linear | Reverse | Mirror | EdgesIn

  function Abs(x: real): real { if x < 0.0 then -x else x }

  /** Position i of n, between From (0) and To (1). */
  function Position(shape: Shape, i: nat, n: nat): real
    requires n >= 2
  {
    var d := (n - 1) as real;
    match shape
    case Linear => i as real / d
    case Reverse => 1.0 - i as real / d
    case Mirror => Abs((2 * i) as real - d) / d
    case EdgesIn => 1.0 - Abs((2 * i) as real - d) / d
  }

  /** The fewest positions a shape can be drawn through: a mirror needs a centre and two ends. */
  function Needed(shape: Shape): nat
  {
    if shape.Linear? || shape.Reverse? then 2 else 3
  }

  /** The value at share t of the way from a to b. */
  function FanValue(a: uint32, b: uint32, t: real): int
  {
    a + Round(Way(t, b - a))
  }

  function Way(t: real, span: int): real
  {
    t * span as real
  }

  // ---------------------------------------------------------------- positions

  lemma Quotient(x: real, d: real)
    requires 0.0 <= x <= d && d > 0.0
    ensures 0.0 <= x / d <= 1.0 && (x == 0.0 ==> x / d == 0.0) && (x == d ==> x / d == 1.0)
  {}

  lemma QuotientGrows(x: real, y: real, d: real)
    requires x <= y && d > 0.0
    ensures x / d <= y / d
  {}

  /** Every position is between the ends, and the shape's ends are met exactly: a linear fan goes from
      From to To and a reverse one back, a mirror has To at both ends, edges-in From; with an odd number
      of positions the middle one is the other end. */
  lemma PositionEnds(shape: Shape, i: nat, n: nat)
    requires n >= 2 && i < n
    ensures 0.0 <= Position(shape, i, n) <= 1.0
    ensures i == 0 ==> Position(shape, i, n) == if shape.Linear? || shape.EdgesIn? then 0.0 else 1.0
    ensures i == n - 1 ==> Position(shape, i, n) == if shape.Linear? || shape.Mirror? then 1.0 else 0.0
    ensures 2 * i == n - 1 && (shape.Mirror? || shape.EdgesIn?) ==> Position(shape, i, n) == if shape.Mirror? then 0.0 else 1.0
  {
    var d := (n - 1) as real;
    Quotient(i as real, d);
    Quotient(Abs((2 * i) as real - d), d);
  }

  /** A shape climbs or falls along each leg: over the whole fan, or up to and from its middle. */
  lemma PositionMonotone(shape: Shape, i: nat, j: nat, n: nat)
    requires n >= 2 && i <= j < n
    ensures shape.Linear? ==> Position(shape, i, n) <= Position(shape, j, n)
    ensures shape.Reverse? ==> Position(shape, i, n) >= Position(shape, j, n)
    ensures 2 * j <= n - 1 ==> (shape.Mirror? ==> Position(shape, i, n) >= Position(shape, j, n)) && (shape.EdgesIn? ==> Position(shape, i, n) <= Position(shape, j, n))
    ensures 2 * i >= n - 1 ==> (shape.Mirror? ==> Position(shape, i, n) <= Position(shape, j, n)) && (shape.EdgesIn? ==> Position(shape, i, n) >= Position(shape, j, n))
  {
    var d := (n - 1) as real;
    var x, y := Abs((2 * i) as real - d), Abs((2 * j) as real - d);
    QuotientGrows(i as real, j as real, d);
    if x <= y {
      QuotientGrows(x, y, d);
    }
    if y <= x {
      QuotientGrows(y, x, d);
    }
  }

  /** Neighbours on one leg are all as far apart: a share of the n - 1 steps of the fan, or twice that where
      a leg is half of it. */
  lemma PositionStep(shape: Shape, i: nat, n: nat)
    requires i + 1 < n
    ensures var step, d := Position(shape, i + 1, n) - Position(shape, i, n), 1.0 / (n - 1) as real;
            (shape.Linear? ==> step == d) && (shape.Reverse? ==> step == -d) &&
            (2 * (i + 1) <= n - 1 ==> (shape.Mirror? ==> step == -2.0 * d) && (shape.EdgesIn? ==> step == 2.0 * d)) &&
            (2 * i >= n - 1 ==> (shape.Mirror? ==> step == 2.0 * d) && (shape.EdgesIn? ==> step == -2.0 * d))
  {
    var m := (n - 1) as real;
    Apart(i as real, (i + 1) as real, m, 1.0);
    var x, y := Abs((2 * i) as real - m), Abs((2 * (i + 1)) as real - m);
    if 2 * (i + 1) <= n - 1 {
      Apart(x, y, m, -2.0);
    }
    if 2 * i >= n - 1 {
      Apart(x, y, m, 2.0);
    }
  }

  lemma Apart(x: real, y: real, m: real, k: real)
    requires m > 0.0 && y - x == k
    ensures y / m - x / m == k * (1.0 / m)
  {
    Scaled(x, m);
    Scaled(y, m);
    var d := 1.0 / m;
    assert y * d - x * d == (y - x) * d;
  }

  lemma Scaled(x: real, m: real)
    requires m > 0.0
    ensures x / m == x * (1.0 / m)
  {
    var d := 1.0 / m;
    assert d * m == 1.0;
    assert (x * d) * m == x * (d * m);
  }

  /** Reverse is linear read backwards, mirror and edges-in read the same both ways, and edges-in is
      mirror with its ends changed. */
  lemma PositionSymmetry(i: nat, n: nat)
    requires n >= 2 && i < n
    ensures Position(Reverse, i, n) == Position(Linear, n - 1 - i, n)
    ensures Position(Mirror, i, n) == Position(Mirror, n - 1 - i, n)
    ensures Position(EdgesIn, i, n) == Position(EdgesIn, n - 1 - i, n)
    ensures Position(EdgesIn, i, n) == 1.0 - Position(Mirror, i, n)
  {
    var d := (n - 1) as real;
    assert (n - 1 - i) as real == d - i as real;
    assert (d - i as real) / d == d / d - i as real / d;
    assert (2 * (n - 1 - i)) as real - d == -((2 * i) as real - d);
  }

  // ---------------------------------------------------------------- values

  lemma WayBetween(t: real, span: int)
    requires 0.0 <= t <= 1.0
    ensures span >= 0 ==> 0.0 <= Way(t, span) <= span as real
    ensures span <= 0 ==> span as real <= Way(t, span) <= 0.0
    ensures Way(0.0, span) == 0.0 && Way(1.0, span) == span as real
  {
    var x := span as real;
    assert x >= 0.0 ==> (1.0 - t) * x >= 0.0;
    assert x <= 0.0 ==> (1.0 - t) * x <= 0.0;
  }

  lemma RoundBetween(lo: int, x: real, hi: int)
    requires lo as real <= x <= hi as real
    ensures lo <= Round(x) <= hi
    ensures x == lo as real ==> Round(x) == lo
    ensures x == hi as real ==> Round(x) == hi
  {}

  /** A fan stays between its ends, meets each of them, and is never more than half a step off the
      straight line. */
  lemma FanStraight(a: uint32, b: uint32, t: real)
    requires 0.0 <= t <= 1.0
    ensures if a <= b then a <= FanValue(a, b, t) <= b else b <= FanValue(a, b, t) <= a
    ensures t == 0.0 ==> FanValue(a, b, t) == a
    ensures t == 1.0 ==> FanValue(a, b, t) == b
    ensures -0.5 <= FanValue(a, b, t) as real - (a as real + Way(t, b - a)) <= 0.5
  {
    WayBetween(t, b - a);
    if a <= b {
      RoundBetween(0, Way(t, b - a), b - a);
    } else {
      RoundBetween(b - a, Way(t, b - a), 0);
    }
  }

  lemma WayGrows(t: real, u: real, span: int)
    requires t <= u
    ensures span >= 0 ==> Way(t, span) <= Way(u, span)
    ensures span <= 0 ==> Way(t, span) >= Way(u, span)
  {
    assert span >= 0 ==> (u - t) * span as real >= 0.0;
    assert span <= 0 ==> (u - t) * span as real <= 0.0;
  }

  lemma RoundGrows(x: real, y: real)
    requires x <= y
    ensures Round(x) <= Round(y)
  {}

  /** Along a leg the values follow the positions. */
  lemma FanMonotone(a: uint32, b: uint32, t: real, u: real)
    requires t <= u
    ensures a <= b ==> FanValue(a, b, t) <= FanValue(a, b, u)
    ensures b <= a ==> FanValue(a, b, t) >= FanValue(a, b, u)
  {
    WayGrows(t, u, b - a);
    var x, y := Way(t, b - a), Way(u, b - a);
    hide Round, Way;
    if x <= y {
      RoundGrows(x, y);
    }
    if y <= x {
      RoundGrows(y, x);
    }
  }

  lemma WayBack(t: real, span: int)
    ensures Way(1.0 - t, -span) == Way(t, span) - span as real
  {}

  predicate HalfWay(x: real)
  {
    (x + 0.5) == (x + 0.5).Floor as real
  }

  /** Exchanging From and To and running the fan the other way gives the same value exactly where the
      line does not pass half-way between two steps: halves are rounded away from From. */
  lemma SwappedEnds(a: uint32, b: uint32, t: real)
    requires 0.0 <= t <= 1.0
    ensures FanValue(a, b, t) == FanValue(b, a, 1.0 - t) <==> !HalfWay(Way(t, b - a))
  {
    WayBetween(t, b - a);
    WayBack(t, b - a);
    var x := Way(t, b - a);
    assert a - b == -(b - a);
    RoundOdd(x, b - a);
    hide Way;
  }

  /** Such a fan: half-way from 0 to 1 is 1, and half-way from 1 to 0 is 0. */
  lemma SwappedEndsDiffer()
    ensures FanValue(0, 1, 0.5) == 1 && FanValue(1, 0, 1.0 - 0.5) == 0
  {
  }

  lemma FloorIs(y: real, n: int)
    requires n as real <= y < n as real + 1.0
    ensures y.Floor == n
  {}

  /** Rounding a number down from its half, and rounding its opposite, part company at halves only. */
  lemma OppositeFloor(x: real)
    ensures -((0.5 - x).Floor) == (x + 0.5).Floor - if HalfWay(x) then 1 else 0
  {
    var f := (x + 0.5).Floor;
    FloorIs(0.5 - x, if HalfWay(x) then 1 - f else -f);
  }

  lemma ShiftFloor(y: real, d: int)
    ensures (y + d as real).Floor == y.Floor + d
  {
    FloorIs(y + d as real, y.Floor + d);
  }

  lemma RoundUp(x: real)
    requires x >= 0.0
    ensures Round(x) == (x + 0.5).Floor
  {}

  lemma RoundDown(x: real)
    requires x <= 0.0
    ensures Round(x) == -((0.5 - x).Floor)
  {
    if x == 0.0 {
      FloorIs(0.5, 0);
    }
  }

  lemma RoundOdd(x: real, d: int)
    requires (0.0 <= x <= d as real) || (d as real <= x <= 0.0)
    ensures Round(x) == d + Round(x - d as real) <==> !HalfWay(x)
  {
    hide Round, HalfWay;
    OppositeFloor(x);
    var y := x - d as real;
    if x >= 0.0 && y <= 0.0 {
      RoundUp(x);
      RoundDown(y);
      ShiftFloor(0.5 - x, d);
    } else {
      RoundDown(x);
      RoundUp(y);
      ShiftFloor(x + 0.5, -d);
    }
  }
}
