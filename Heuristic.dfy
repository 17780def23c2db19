/**
 * The four heuristics of `Heuristic`: estimates of the remaining cost from grid point (vx, vy) to
 * the goal (ex, ey). Java's `Math.sqrt` of a non-square cannot be written down in Dafny, so the
 * Euclidean estimate takes the square root as a parameter and its lemmas hold for every
 * non-negative square root of the radicand.
 */
module Heuristics {
  import opened Doubles

  datatype Heuristic = EUCLIDEAN | MANHATTAN | CHEBYSHEV | OCTILE

  function Abs(x: int): nat
  {
    if x < 0 then -x else x
  }

  function Max(a: int, b: int): int
  {
    if a < b then b else a
  }

  function Min(a: int, b: int): int
  {
    if a < b then a else b
  }

  /** `MANHATTAN.h`: |vx-ex| + |vy-ey|; zero exactly at the goal. */
  function Manhattan(vx: int, vy: int, ex: int, ey: int): (d: int)
    ensures d >= 0
    ensures d == 0 <==> vx == ex && vy == ey
    ensures d >= Abs(vx - ex) && d >= Abs(vy - ey)
  {
    Abs(vx - ex) + Abs(vy - ey)
  }

  /** `CHEBYSHEV.h`: max(|vx-ex|, |vy-ey|); zero exactly at the goal. */
  function Chebyshev(vx: int, vy: int, ex: int, ey: int): (d: int)
    ensures d >= 0
    ensures d == 0 <==> vx == ex && vy == ey
    ensures d >= Abs(vx - ex) && d >= Abs(vy - ey)
    ensures d == Abs(vx - ex) || d == Abs(vy - ey)
  {
    Max(Abs(vx - ex), Abs(vy - ey))
  }

  /** `OCTILE.h`: sqrt(2)*min(dx, dy) + |dx - dy| with dx, dy the absolute differences. */
  function Octile(vx: int, vy: int, ex: int, ey: int): (d: real)
    ensures d >= 0.0
    ensures d == 0.0 <==> vx == ex && vy == ey
  {
    var dx := Abs(vx - ex);
    var dy := Abs(vy - ey);
    SQRT2 * Min(dx, dy) as real + Abs(dx - dy) as real
  }

  /** The argument of `Math.sqrt` in `EUCLIDEAN.h`: (vx-ex)^2 + (vy-ey)^2, exact for grid coordinates. */
  function EuclideanRadicand(vx: int, vy: int, ex: int, ey: int): (d: int)
    ensures d >= 0
    ensures d == 0 <==> vx == ex && vy == ey
  {
    (vx - ex) * (vx - ex) + (vy - ey) * (vy - ey)
  }

  /** `r` is a value `EUCLIDEAN.h` can return: a non-negative square root of the radicand. */
  ghost predicate IsEuclidean(r: real, vx: int, vy: int, ex: int, ey: int)
  {
    r >= 0.0 && r * r == EuclideanRadicand(vx, vy, ex, ey) as real
  }

  /** `k.h(vx, vy, ex, ey)`, with `sqrt` standing for `Math.sqrt`. */
  function Estimate(k: Heuristic, sqrt: real -> real, vx: int, vy: int, ex: int, ey: int): (r: real)
    ensures k != EUCLIDEAN ==> Chebyshev(vx, vy, ex, ey) as real <= r <= Manhattan(vx, vy, ex, ey) as real
  {
    ChebyshevManhattanBounds(vx, vy, ex, ey);
    OctileBetween(vx, vy, ex, ey);
    match k
    case EUCLIDEAN => sqrt(EuclideanRadicand(vx, vy, ex, ey) as real)
    case MANHATTAN => Manhattan(vx, vy, ex, ey) as real
    case CHEBYSHEV => Chebyshev(vx, vy, ex, ey) as real
    case OCTILE => Octile(vx, vy, ex, ey)
  }

  /** Chebyshev <= Manhattan <= 2 * Chebyshev. */
  lemma ChebyshevManhattanBounds(vx: int, vy: int, ex: int, ey: int)
    ensures Chebyshev(vx, vy, ex, ey) <= Manhattan(vx, vy, ex, ey) <= 2 * Chebyshev(vx, vy, ex, ey)
  {
  }

  /** Octile is Chebyshev plus (sqrt(2) - 1) per diagonal step, so it lies between Chebyshev and Manhattan. */
  lemma OctileBetween(vx: int, vy: int, ex: int, ey: int)
    ensures Octile(vx, vy, ex, ey)
      == Chebyshev(vx, vy, ex, ey) as real + (SQRT2 - 1.0) * Min(Abs(vx - ex), Abs(vy - ey)) as real
    ensures Chebyshev(vx, vy, ex, ey) as real <= Octile(vx, vy, ex, ey) <= Manhattan(vx, vy, ex, ey) as real
  {
  }

  lemma PositiveProduct(x: real, y: real)
    requires x > 0.0 && y > 0.0
    ensures x * y > 0.0
  {
  }

  /** Squaring is strictly increasing on the non-negative reals. */
  lemma SquareStrict(a: real, b: real)
    requires 0.0 <= b < a
    ensures b * b < a * a
  {
    PositiveProduct(a - b, a + b);
    assert a * a - b * b == (a - b) * (a + b);
  }

  /** Comparing squares of non-negative reals compares the reals. */
  lemma SquareMonotone(a: real, b: real)
    requires 0.0 <= a && 0.0 <= b && a * a <= b * b
    ensures a <= b
  {
    if b < a {
      SquareStrict(a, b);
    }
  }

  lemma SquareAsReal(c: int)
    ensures (c * c) as real == (c as real) * (c as real)
  {
  }

  lemma SquareBounds(dx: nat, dy: nat)
    ensures Max(dx, dy) * Max(dx, dy) <= dx * dx + dy * dy <= (dx + dy) * (dx + dy)
  {
    assert (dx + dy) * (dx + dy) == dx * dx + 2 * dx * dy + dy * dy;
    assert dx * dy >= 0;
  }

  lemma RadicandIsSumOfSquares(vx: int, vy: int, ex: int, ey: int)
    ensures EuclideanRadicand(vx, vy, ex, ey) == Abs(vx - ex) * Abs(vx - ex) + Abs(vy - ey) * Abs(vy - ey)
  {
  }

  /** A non-negative root of a value between two squares lies between their roots. */
  lemma RootBetween(c: int, r: real, m: int, q: int)
    requires 0 <= c && 0 <= m && r >= 0.0 && r * r == q as real && c * c <= q <= m * m
    ensures c as real <= r <= m as real
  {
    SquareAsReal(c);
    SquareAsReal(m);
    SquareMonotone(c as real, r);
    SquareMonotone(r, m as real);
  }

  /** Every non-negative square root of the radicand lies between Chebyshev and Manhattan. */
  lemma EuclideanBetween(r: real, vx: int, vy: int, ex: int, ey: int)
    requires IsEuclidean(r, vx, vy, ex, ey)
    ensures Chebyshev(vx, vy, ex, ey) as real <= r <= Manhattan(vx, vy, ex, ey) as real
    ensures r == 0.0 <==> vx == ex && vy == ey
  {
    var dx, dy := Abs(vx - ex), Abs(vy - ey);
    RadicandIsSumOfSquares(vx, vy, ex, ey);
    SquareBounds(dx, dy);
    RootBetween(Max(dx, dy), r, dx + dy, EuclideanRadicand(vx, vy, ex, ey));
  }

  /** `sqrt` behaves as `Math.sqrt` on exact arithmetic: a non-negative square root of every non-negative real. */
  ghost predicate IsSqrt(sqrt: real -> real)
  {
    forall x: real :: x >= 0.0 ==> sqrt(x) >= 0.0 && sqrt(x) * sqrt(x) == x
  }

  /** With a true square root, the Euclidean estimate is one of the values `EUCLIDEAN.h` can return. */
  lemma EuclideanEstimate(sqrt: real -> real, vx: int, vy: int, ex: int, ey: int)
    requires IsSqrt(sqrt)
    ensures IsEuclidean(Estimate(EUCLIDEAN, sqrt, vx, vy, ex, ey), vx, vy, ex, ey)
  {
    var q := EuclideanRadicand(vx, vy, ex, ey) as real;
    assert q >= 0.0;
    assert sqrt(q) >= 0.0 && sqrt(q) * sqrt(q) == q;
  }

  /** Every heuristic is non-negative and vanishes exactly at the goal. */
  lemma EstimateZeroAtGoal(k: Heuristic, sqrt: real -> real, vx: int, vy: int, ex: int, ey: int)
    requires IsSqrt(sqrt)
    ensures Estimate(k, sqrt, vx, vy, ex, ey) >= 0.0
    ensures Estimate(k, sqrt, vx, vy, ex, ey) == 0.0 <==> vx == ex && vy == ey
  {
    if k == EUCLIDEAN {
      EuclideanEstimate(sqrt, vx, vy, ex, ey);
      EuclideanBetween(Estimate(k, sqrt, vx, vy, ex, ey), vx, vy, ex, ey);
    }
  }

  /** Every heuristic is symmetric in the current point and the goal. */
  lemma EstimateSymmetric(k: Heuristic, sqrt: real -> real, vx: int, vy: int, ex: int, ey: int)
    ensures Estimate(k, sqrt, vx, vy, ex, ey) == Estimate(k, sqrt, ex, ey, vx, vy)
  {
    assert EuclideanRadicand(vx, vy, ex, ey) == EuclideanRadicand(ex, ey, vx, vy);
    assert Octile(vx, vy, ex, ey) == Octile(ex, ey, vx, vy);
  }

  /** Every heuristic depends only on the coordinate differences: shifting both points changes nothing. */
  lemma EstimateTranslationInvariant(k: Heuristic, sqrt: real -> real, vx: int, vy: int, ex: int, ey: int, a: int, b: int)
    ensures Estimate(k, sqrt, vx + a, vy + b, ex + a, ey + b) == Estimate(k, sqrt, vx, vy, ex, ey)
  {
    assert (vx + a) - (ex + a) == vx - ex && (vy + b) - (ey + b) == vy - ey;
  }

  /** Moving to a 4-adjacent cell changes Manhattan by at most 1 (4-connected movement). */
  lemma ManhattanStep(vx: int, vy: int, wx: int, wy: int, ex: int, ey: int)
    requires Abs(vx - wx) + Abs(vy - wy) == 1
    ensures Abs(Manhattan(vx, vy, ex, ey) - Manhattan(wx, wy, ex, ey)) <= 1
  {
  }

  /** Moving to an 8-adjacent cell changes Chebyshev by at most 1 (8-connected movement). */
  lemma ChebyshevStep(vx: int, vy: int, wx: int, wy: int, ex: int, ey: int)
    requires Max(Abs(vx - wx), Abs(vy - wy)) == 1
    ensures Abs(Chebyshev(vx, vy, ex, ey) - Chebyshev(wx, wy, ex, ey)) <= 1
  {
  }

  /** Java's `a / b` on `int`: the quotient truncated toward zero. */
  function JavaDiv(a: int, b: int): int
    requires b != 0
  {
    var q := Abs(a) / Abs(b);
    if (a < 0) == (b < 0) then q else -q
  }

  /** Java's `a % b` on `int`: the remainder that goes with `JavaDiv`, which takes the sign of `a`. */
  function JavaRem(a: int, b: int): int
    requires b != 0
  {
    a - b * JavaDiv(a, b)
  }

  /**
   * The grid coordinates `AStarInstance` decodes from an id: for an id `n >= 0`, Java's truncating
   * `/` and `%` agree with the Euclidean ones, `x = n % mapSize` is a column in `[0, |mapSize|)` and
   * `n = y * mapSize + x`.
   */
  lemma GridCoordinates(n: int, mapSize: int)
    requires n >= 0 && mapSize != 0
    ensures JavaDiv(n, mapSize) == n / mapSize && JavaRem(n, mapSize) == n % mapSize
    ensures 0 <= JavaRem(n, mapSize) < Abs(mapSize)
    ensures n == JavaDiv(n, mapSize) * mapSize + JavaRem(n, mapSize)
  {
    if mapSize < 0 {
      var q := n / -mapSize;
      var r := n % -mapSize;
      assert n == mapSize * -q + r && 0 <= r < -mapSize;
      DivisionUnique(n, mapSize, -q, r);
    }
  }

  /** The Euclidean quotient and remainder are the only ones with `0 <= r < |b|`. */
  lemma DivisionUnique(a: int, b: int, q: int, r: int)
    requires b != 0 && a == b * q + r && 0 <= r < Abs(b)
    ensures a / b == q && a % b == r
  {
    var d := q - a / b;
    assert b * d == a % b - r;
    if d != 0 {
      MultipleAtLeast(b, d);
    }
  }

  /** A non-zero multiple of `b` is at least `|b|` away from zero. */
  lemma MultipleAtLeast(b: int, d: int)
    requires d != 0
    ensures Abs(b * d) >= Abs(b)
  {
    assert Abs(b * d) == Abs(b) * Abs(d);
    ProductAtLeast(Abs(b), Abs(d));
  }

  lemma {:induction false} ProductAtLeast(x: nat, y: nat)
    requires y >= 1
    ensures x * y >= x
    decreases y
  {
    if y > 1 {
      ProductAtLeast(x, y - 1);
      assert x * y == x * (y - 1) + x;
    }
  }
}
