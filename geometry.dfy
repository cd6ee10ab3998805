/**
 * Numbers and distances shared by the game's simulation: the values the host
 * supplies (Math.random, Math.PI, Math.cos, Math.sin), circle-distance tests
 * written without a square root, and JavaScript's remainder operator on numbers.
 */
module Geometry {

  /** A value of Math.random(): a real in [0, 1). */
  type Rand = r: real | 0.0 <= r < 1.0

  /** The host's numeric library, supplied by the caller: Math.PI, Math.cos and Math.sin. */
  datatype Numerics = Numerics(pi: real, cos: real -> real, sin: real -> real)

  /** The identity cos(a)^2 + sin(a)^2 == 1 at angle a, which a faithful Numerics satisfies. */
  predicate Pythagorean(m: Numerics, a: real) {
    m.cos(a) * m.cos(a) + m.sin(a) * m.sin(a) == 1.0
  }

  /** Math.random() * Math.PI * 2: a heading drawn uniformly from [0, 2 pi). */
  function DrawnAngle(m: Numerics, u: Rand): real {
    u * m.pi * 2.0
  }

  /** A velocity (dx, dy) of magnitude s: dx² + dy² = s². */
  predicate HasSpeed(dx: real, dy: real, s: real) {
    dx * dx + dy * dy == s * s
  }

  /** Squared Euclidean distance between (x1, y1) and (x2, y2). */
  function SqDist(x1: real, y1: real, x2: real, y2: real): real {
    (x1 - x2) * (x1 - x2) + (y1 - y2) * (y1 - y2)
  }

  /**
   * Math.hypot(x1 - x2, y1 - y2) < limit. A distance is never negative, so it
   * is below limit exactly when limit is positive and the squares compare.
   */
  predicate Closer(x1: real, y1: real, x2: real, y2: real, limit: real) {
    limit > 0.0 && SqDist(x1, y1, x2, y2) < limit * limit
  }

  /** Math.hypot(x1 - x2, y1 - y2) > limit, again without the square root. */
  predicate Farther(x1: real, y1: real, x2: real, y2: real, limit: real) {
    limit < 0.0 || SqDist(x1, y1, x2, y2) > limit * limit
  }

  lemma SquareBelow(d: real, e: real)
    requires 0.0 <= d < e
    ensures d * d < e * e
  {
    LengthsMonotone(0.0, e - d, e + d);
    assert Lengths(e - d, e + d) == e * e - d * d;
  }

  /**
   * Closer agrees with comparing the true distance d (the non-negative root
   * of the squared distance) against limit, for every limit.
   */
  lemma CloserIsDistanceBelow(d: real, x1: real, y1: real, x2: real, y2: real, limit: real)
    requires 0.0 <= d && d * d == SqDist(x1, y1, x2, y2)
    ensures Closer(x1, y1, x2, y2, limit) <==> d < limit
  {
    if d < limit {
      SquareBelow(d, limit);
    } else if limit > 0.0 {
      assert limit <= d;
      if limit < d { SquareBelow(limit, d); }
    }
  }

  /** Farther agrees with comparing the true distance d against limit, for every limit. */
  lemma FartherIsDistanceAbove(d: real, x1: real, y1: real, x2: real, y2: real, limit: real)
    requires 0.0 <= d && d * d == SqDist(x1, y1, x2, y2)
    ensures Farther(x1, y1, x2, y2, limit) <==> d > limit
  {
    if limit >= 0.0 {
      if d > limit {
        SquareBelow(limit, d);
      } else if d < limit {
        SquareBelow(d, limit);
      }
    }
  }

  /** A speed spread over a heading by cos and sin keeps its magnitude. */
  lemma HeadingKeepsSpeed(m: Numerics, a: real, speed: real)
    ensures Pythagorean(m, a) ==>
              (m.cos(a) * speed) * (m.cos(a) * speed) + (m.sin(a) * speed) * (m.sin(a) * speed) == speed * speed
  {
    var c, s := m.cos(a), m.sin(a);
    calc {
      (c * speed) * (c * speed) + (s * speed) * (s * speed);
      (c * c + s * s) * (speed * speed);
    }
  }

  /** The velocity (cos(angle) * speed, sin(angle) * speed) of a speed along a heading. */
  function Heading(m: Numerics, angle: real, speed: real): (v: (real, real))
    ensures Pythagorean(m, angle) ==> HasSpeed(v.0, v.1, speed)
    ensures Pythagorean(m, angle) ==> v.0 * m.cos(angle) + v.1 * m.sin(angle) == speed
    ensures v.0 * m.sin(angle) == v.1 * m.cos(angle)
  {
    HeadingKeepsSpeed(m, angle, speed);
    HeadingPointsAlong(m, angle, speed);
    (m.cos(angle) * speed, m.sin(angle) * speed)
  }

  /**
   * (cos a · s, sin a · s) points along a: its component along the unit
   * vector (cos a, sin a) is s, and its component across it is 0.
   */
  lemma HeadingPointsAlong(m: Numerics, a: real, speed: real)
    ensures Pythagorean(m, a) ==> (m.cos(a) * speed) * m.cos(a) + (m.sin(a) * speed) * m.sin(a) == speed
    ensures (m.cos(a) * speed) * m.sin(a) == (m.sin(a) * speed) * m.cos(a)
  {
    var c, s := m.cos(a), m.sin(a);
    calc {
      (c * speed) * c + (s * speed) * s;
      (c * c + s * s) * speed;
    }
  }

  /** Math.trunc on a real quotient: rounds toward zero. */
  function Trunc(q: real): (t: int)
    ensures q >= 0.0 ==> t as real <= q < t as real + 1.0
    ensures q <= 0.0 ==> t as real - 1.0 < q <= t as real
  {
    if q >= 0.0 then q.Floor else -((-q).Floor)
  }

  /**
   * x lengths of b. Products are kept behind this name so that the solver
   * handles each one as a single term.
   */
  function Lengths(x: real, b: real): real {
    x * b
  }

  lemma LengthsMonotone(x: real, y: real, b: real)
    requires x <= y && b > 0.0
    ensures Lengths(x, b) <= Lengths(y, b)
    ensures x < y ==> Lengths(x, b) < Lengths(y, b)
  {
  }

  lemma LengthsStep(x: real, b: real)
    ensures Lengths(x + 1.0, b) == Lengths(x, b) + b
    ensures Lengths(x - 1.0, b) == Lengths(x, b) - b
  {
  }

  /** The exact quotient a / b of reals. */
  function Quotient(a: real, b: real): (q: real)
    requires b > 0.0
    ensures Lengths(q, b) == a
  {
    a / b
  }

  /** x is a whole number of lengths b. */
  predicate WholeMultiple(x: real, b: real)
    requires b > 0.0
  {
    Quotient(x, b).Floor as real == Quotient(x, b)
  }

  /**
   * JavaScript's a % b on numbers, for b > 0: the remainder of the quotient
   * truncated toward zero, whose sign follows the dividend a (unlike Dafny's
   * Euclidean %, whose result is never negative).
   */
  function JsRem(a: real, b: real): (r: real)
    requires b > 0.0
    ensures a >= 0.0 ==> 0.0 <= r < b
    ensures a <= 0.0 ==> -b < r <= 0.0
    ensures WholeMultiple(a - r, b)
  {
    var t := Trunc(Quotient(a, b));
    JsRemBounds(a, b, t);
    a - Lengths(t as real, b)
  }

  /** The facts about the truncated quotient t of a / b that JsRem's contract rests on. */
  lemma JsRemBounds(a: real, b: real, t: int)
    requires b > 0.0 && t == Trunc(Quotient(a, b))
    ensures a >= 0.0 ==> 0.0 <= a - Lengths(t as real, b) < b
    ensures a <= 0.0 ==> -b < a - Lengths(t as real, b) <= 0.0
    ensures WholeMultiple(Lengths(t as real, b), b)
  {
    var q := Quotient(a, b);
    var tr := t as real;
    LengthsStep(tr, b);
    if a >= 0.0 {
      if q < 0.0 { LengthsMonotone(q, 0.0, b); }
      LengthsMonotone(tr, q, b);
      LengthsMonotone(q, tr + 1.0, b);
    }
    if a <= 0.0 {
      if q > 0.0 { LengthsMonotone(0.0, q, b); }
      LengthsMonotone(tr - 1.0, q, b);
      LengthsMonotone(q, tr, b);
    }
    var k := Quotient(Lengths(tr, b), b);
    Cancel(k, tr, b);
  }

  lemma Cancel(x: real, y: real, b: real)
    requires b > 0.0 && Lengths(x, b) == Lengths(y, b)
    ensures x == y
  {
    if x < y { LengthsMonotone(x, y, b); }
    if y < x { LengthsMonotone(y, x, b); }
  }

  /**
   * The toroidal wrap of the ship, (v + len) % len in JavaScript. It lands in
   * [0, len) only when v is at least -len; it leaves a point already inside
   * [0, len) where it is, and moves any point by a whole number of lengths.
   */
  function Wrap(v: real, len: real): real
    requires len > 0.0
  {
    JsRem(v + len, len)
  }

  /** Where Wrap puts a point, as described above. */
  lemma WrapLands(v: real, len: real)
    requires len > 0.0
    ensures v >= -len ==> 0.0 <= Wrap(v, len) < len
    ensures 0.0 <= v < len ==> Wrap(v, len) == v
    ensures -len <= v < 0.0 ==> Wrap(v, len) == v + len
    ensures WholeMultiple(v - Wrap(v, len), len)
  {
    var a := v + len;
    var r := Wrap(v, len);
    var k := Quotient(a - r, len);
    var w := Quotient(v - r, len);
    LengthsStep(k, len);
    Cancel(w, k - 1.0, len);
    assert (k - 1.0).Floor == k.Floor - 1;
    if 0.0 <= v < len {
      assert 0.0 < Lengths(k, len) < len + len;
      if k <= 0.0 { LengthsMonotone(k, 0.0, len); }
      if k >= 2.0 { LengthsMonotone(1.0, k - 1.0, len); }
      assert k.Floor == 1;
    }
    if -len <= v < 0.0 {
      if k < 0.0 { LengthsMonotone(k, 0.0, len); }
      if k >= 1.0 { LengthsMonotone(1.0, k, len); }
      assert k.Floor == 0;
    }
  }
}
