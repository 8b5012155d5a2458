/**
 * Integer helpers shared by the placement engine: the `max`/`min` of
 * window/helpers.go (and of the older copy in monitor.go), and Go's
 * truncating integer division, which the engine relies on for `int32`
 * halving and for converting a scaled float back to `int32`.
 */
module Helpers {

  /** A value that may be absent: Go's nil pointer results. */
  datatype Option<T> = None | Some(value: T)

  /** The larger of two coordinates; `b` wins a tie, as in the source. */
  function Max(a: int, b: int): (r: int)
    ensures r >= a && r >= b
    ensures r == a || r == b
  {
    if a > b then a else b
  }

  /** The smaller of two coordinates; `b` wins a tie, as in the source. */
  function Min(a: int, b: int): (r: int)
    ensures r <= a && r <= b
    ensures r == a || r == b
  {
    if a < b then a else b
  }

  function Abs(x: int): (r: nat)
    ensures r == x || r == -x
  {
    if x < 0 then -x else x
  }

  /**
   * Division truncating toward zero, as Go's `/` on integers and as the
   * `int32(...)` conversion of an exact quotient. Dafny's own `/` is
   * Euclidean, so the magnitude is divided and the sign reattached.
   */
  function Quot(a: int, b: int): (q: int)
    requires b != 0
    ensures Abs(q) * Abs(b) <= Abs(a) < (Abs(q) + 1) * Abs(b)
    ensures q == 0 || ((q > 0) <==> ((a > 0) == (b > 0)))
  {
    var m: int := MagnitudeQuot(Abs(a), Abs(b));
    if (a >= 0) == (b > 0) then m else -m
  }

  /** Euclidean division of magnitudes, with the bounds that characterise it. */
  function MagnitudeQuot(x: nat, b: nat): (m: nat)
    requires b > 0
    ensures m * b <= x < (m + 1) * b
    ensures m > 0 ==> x > 0
  {
    var m := x / b;
    assert x == m * b + x % b;
    assert (m + 1) * b == m * b + b;
    m
  }

  /** `min` never exceeds `max` on the same pair. */
  lemma MinAtMostMax(a: int, b: int)
    ensures Min(a, b) <= Max(a, b)
  {
  }

  /** Truncating division agrees with Euclidean division on non-negative operands. */
  lemma QuotOfNonNegative(a: int, b: int)
    requires a >= 0 && b > 0
    ensures Quot(a, b) == a / b
  {
  }

  /** Negating the dividend negates the truncated quotient (the rounding is symmetric about zero). */
  lemma QuotNegate(a: int, b: int)
    requires b != 0
    ensures Quot(-a, b) == -Quot(a, b)
  {
  }

  /** Dividing an exact multiple gives the factor back. */
  lemma QuotOfMultiple(x: int, b: int)
    requires b != 0
    ensures Quot(x * b, b) == x
  {
    var q := Quot(x * b, b);
    assert Abs(x * b) == Abs(x) * Abs(b) by {
      if x < 0 && b < 0 { assert x * b == (-x) * (-b); }
      else if x < 0 { assert -(x * b) == (-x) * b; }
      else if b < 0 { assert -(x * b) == x * (-b); }
    }
    QuotMagnitudeUnique(Abs(q), Abs(x), Abs(b));
  }

  lemma QuotMagnitudeUnique(q: nat, x: nat, b: nat)
    requires b > 0
    requires q * b <= x * b < (q + 1) * b
    ensures q == x
  {
    if q < x {
      MulMonotone(q + 1, x, b);
    } else if q > x {
      MulMonotone(x + 1, q, b);
    }
  }

  lemma MulMonotone(a: int, c: int, b: nat)
    requires a <= c
    ensures a * b <= c * b
  {
    assert c * b - a * b == (c - a) * b;
  }

  /** Cancelling a positive factor from both sides of `<=`. */
  lemma MulCancel(a: int, c: int, b: int)
    requires b > 0 && a * b <= c * b
    ensures a <= c
  {
    if a > c {
      MulMonotone(c + 1, a, b);
    }
  }

  /** Cancelling a positive factor from both sides of `<`. */
  lemma MulCancelStrict(a: int, c: int, b: int)
    requires b > 0 && a * b < c * b
    ensures a < c
  {
    if a >= c {
      MulMonotone(c, a, b);
    }
  }

  /** The bounds of a truncated quotient of a non-negative dividend by a positive divisor. */
  lemma QuotNonNegativeBounds(a: int, b: int)
    requires a >= 0 && b > 0
    ensures Quot(a, b) >= 0
    ensures Quot(a, b) * b <= a < Quot(a, b) * b + b
  {
    var q := Quot(a, b);
    QuotOfNonNegative(a, b);
    assert a == (a / b) * b + a % b;
  }
}
