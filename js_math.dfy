/**
 * The JavaScript number operations the source relies on, over exact reals and
 * integers: `Math.floor`, `Math.round` and the remainder operator `%`, whose
 * result takes the sign of the dividend (unlike Dafny's Euclidean `%`).
 */
module JsMath {

  /** `Math.floor(x)`. */
  function Floor(x: real): (n: int)
    ensures n as real <= x < n as real + 1.0
  {
    x.Floor
  }

  /** `Math.round(x)`: the nearest integer, halves rounded towards +infinity. */
  function Round(x: real): (n: int)
    ensures n as real - 0.5 <= x < n as real + 0.5
  {
    (x + 0.5).Floor
  }

  /** The integer part of x, rounded towards zero. */
  function Trunc(x: real): (n: int)
    ensures x >= 0.0 ==> n == Floor(x)
    ensures x < 0.0 ==> n == -Floor(-x)
  {
    if x >= 0.0 then Floor(x) else -Floor(-x)
  }

  function Abs(x: real): real {
    if x < 0.0 then -x else x
  }

  /**
   * `a % b` on numbers: a minus a whole multiple of b, smaller than b in size
   * and of the sign of a.
   */
  function Rem(a: real, b: real): (r: real)
    requires b != 0.0
    ensures (a - r) / b == Floor((a - r) / b) as real
    ensures a >= 0.0 ==> 0.0 <= r < Abs(b)
    ensures a < 0.0 ==> -Abs(b) < r <= 0.0
    ensures a >= 0.0 && b > 0.0 ==> r == a - b * (Floor(a / b) as real)
    ensures a < 0.0 && b > 0.0 ==> r == a + b * (Floor(-a / b) as real)
  {
    RemFacts(a, b);
    a - b * (Trunc(a / b) as real)
  }

  lemma RemFacts(a: real, b: real)
    requires b != 0.0
    ensures var r := a - b * (Trunc(a / b) as real);
      && (a - r) / b == Floor((a - r) / b) as real
      && (a >= 0.0 ==> 0.0 <= r < Abs(b))
      && (a < 0.0 ==> -Abs(b) < r <= 0.0)
      && (a >= 0.0 && b > 0.0 ==> r == a - b * (Floor(a / b) as real))
      && (a < 0.0 && b > 0.0 ==> r == a + b * (Floor(-a / b) as real))
  {
    RemWhole(a, b);
    if b > 0.0 {
      RemPositiveDivisor(a, b);
    } else {
      RemNegativeDivisor(a, b);
    }
  }

  /** What separates a from `a % b` is a whole number of b's. */
  lemma RemWhole(a: real, b: real)
    requires b != 0.0
    ensures var r := a - b * (Trunc(a / b) as real); (a - r) / b == Floor((a - r) / b) as real
  {
    var n := Trunc(a / b);
    var r := a - b * (n as real);
    assert a - r == b * (n as real);
    assert (a - r) / b == n as real;
    assert Floor(n as real) == n;
    assert (a - r) / b == Floor((a - r) / b) as real;
    assert r == a - b * (Trunc(a / b) as real);
  }

  /** With a positive divisor, `%` is a minus the multiple of b nearest a towards zero. */
  lemma RemPositiveDivisor(a: real, b: real)
    requires b > 0.0
    ensures var r := a - b * (Trunc(a / b) as real);
      && (a >= 0.0 ==> 0.0 <= r < b && r == a - b * (Floor(a / b) as real))
      && (a < 0.0 ==> -b < r <= 0.0 && r == a + b * (Floor(-a / b) as real))
  {
    if a >= 0.0 {
      FloorDivBounds(a, b);
    } else {
      assert -(a / b) == -a / b;
      FloorDivBounds(-a, b);
    }
  }

  lemma TruncOdd(x: real)
    ensures Trunc(-x) == -Trunc(x)
  {
  }

  /** With a negative divisor, `%` still takes the sign of a and is smaller than -b in size. */
  lemma RemNegativeDivisor(a: real, b: real)
    requires b < 0.0
    ensures var r := a - b * (Trunc(a / b) as real);
      && (a >= 0.0 ==> 0.0 <= r < -b)
      && (a < 0.0 ==> b < r <= 0.0)
  {
    var r := a - b * (Trunc(a / b) as real);
    assert r == a - (-b) * (Trunc(a / (-b)) as real) by {
      RemNegatedDivisor(a, b);
    }
    assert (a >= 0.0 ==> 0.0 <= r < -b) && (a < 0.0 ==> b < r <= 0.0) by {
      RemPositiveDivisor(a, -b);
    }
  }

  /** `a % b` and `a % -b` agree. */
  lemma RemNegatedDivisor(a: real, b: real)
    requires b < 0.0
    ensures a - b * (Trunc(a / b) as real) == a - (-b) * (Trunc(a / (-b)) as real)
  {
    assert a / (-b) == -(a / b);
    TruncOdd(a / b);
  }

  lemma FloorDivBounds(a: real, b: real)
    requires b > 0.0
    ensures b * (Floor(a / b) as real) <= a
    ensures a < b * (Floor(a / b) as real) + b
  {
    var q := a / b;
    var f := Floor(q) as real;
    MulMonotone(b, f, q);
    MulMonotone(b, q, f + 1.0);
    assert b * q == a;
    assert b * (f + 1.0) == b * f + b;
    assert a < b * f + b;
  }

  lemma MulMonotone(b: real, x: real, y: real)
    requires b > 0.0 && x <= y
    ensures b * x <= b * y
    ensures x < y ==> b * x < b * y
  {
  }

  /** `a % b` on integer-valued numbers with a positive divisor. */
  function RemInt(a: int, b: int): (r: int)
    requires b > 0
    ensures a >= 0 ==> r == a % b
    ensures a < 0 ==> -b < r <= 0 && (a - r) % b == 0
  {
    if a >= 0 then a % b
    else
      var r := -((-a) % b);
      assert a - r == -(b * ((-a) / b));
      MultipleRem(b, (-a) / b);
      r
  }

  /** A whole multiple of b leaves no remainder. */
  lemma MultipleRem(b: int, q: int)
    requires b > 0
    ensures (-(b * q)) % b == 0
  {
    var x := b * -q;
    assert -(b * q) == x;
    var d := -q - x / b;
    assert x == b * (x / b) + x % b;
    assert x % b == b * d;
  }
}
