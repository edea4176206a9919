/** Numeric helpers shared by the scoring rules: clamping and Python's `round`,
    both on exact reals. */
module Numeric {

  /** `max(lo, min(hi, x))` */
  function Clamp(x: real, lo: real, hi: real): (r: real)
    requires lo <= hi
    ensures lo <= r <= hi
    ensures lo <= x <= hi ==> r == x
    ensures x < lo ==> r == lo
    ensures hi < x ==> r == hi
  {
    if hi < x then hi else if x < lo then lo else x
  }

  /** Python's `round(x, n)` with `scale == 10^n`: the nearest multiple of
      `1/scale`, ties going to the even multiple. */
  function RoundTo(x: real, scale: nat): real
    requires scale > 0
  {
    var s := x * scale as real;
    var f := s.Floor;
    var frac := s - f as real;
    var n := if frac < 0.5 then f
             else if frac > 0.5 then f + 1
             else if f % 2 == 0 then f else f + 1;
    n as real / scale as real
  }

  /** The integer numerator `RoundTo` picks. */
  function RoundedNumerator(x: real, scale: nat): (n: int)
    requires scale > 0
    ensures RoundTo(x, scale) == n as real / scale as real
    ensures -0.5 <= n as real - x * scale as real <= 0.5
    ensures (x * scale as real).Floor <= n <= (x * scale as real).Floor + 1
  {
    var s := x * scale as real;
    var f := s.Floor;
    var frac := s - f as real;
    if frac < 0.5 then f
    else if frac > 0.5 then f + 1
    else if f % 2 == 0 then f else f + 1
  }

  /** Dividing by a positive number keeps order. */
  lemma DivideMonotone(a: real, b: real, c: real)
    requires a <= b && c > 0.0
    ensures a / c <= b / c
  {
    var qa, qb := a / c, b / c;
    assert qa * c == a && qb * c == b;
  }

  /** Rounding moves a value by at most half a unit of the last kept digit. */
  lemma RoundError(x: real, scale: nat)
    requires scale > 0
    ensures -0.5 / scale as real <= RoundTo(x, scale) - x <= 0.5 / scale as real
  {
    var n := RoundedNumerator(x, scale);
    var sc := scale as real;
    var d := n as real - x * sc;
    assert RoundTo(x, scale) == n as real / sc;
    assert x == (x * sc) / sc;
    assert n as real / sc - (x * sc) / sc == d / sc;
    DivideMonotone(-0.5, d, sc);
    DivideMonotone(d, 0.5, sc);
  }

  /** Multiplying by a non-negative number keeps order. */
  lemma MultiplyMonotone(a: real, b: real, c: real)
    requires a <= b && c >= 0.0
    ensures a * c <= b * c
  {
    assert (b - a) * c >= 0.0;
  }

  /** The numerator of a rounded value stays between whole-number bounds scaled up. */
  lemma NumeratorWithin(x: real, lo: int, hi: int, scale: nat)
    requires scale > 0
    requires lo as real <= x <= hi as real
    ensures lo * scale <= RoundedNumerator(x, scale) <= hi * scale
  {
    var sc := scale as real;
    ScaledCast(lo, scale);
    ScaledCast(hi, scale);
    MultiplyMonotone(lo as real, x, sc);
    MultiplyMonotone(x, hi as real, sc);
    NumeratorBetween(x, scale, lo * scale, hi * scale);
  }

  lemma ScaledCast(a: int, scale: nat)
    ensures (a * scale) as real == a as real * scale as real
  {
  }

  /** A scaled value between two integers rounds to a numerator between them. */
  lemma NumeratorBetween(x: real, scale: nat, lo: int, hi: int)
    requires scale > 0
    requires lo as real <= x * scale as real <= hi as real
    ensures lo <= RoundedNumerator(x, scale) <= hi
  {
    var s := x * scale as real;
    var f := s.Floor;
    assert lo <= f <= hi;
    if f == hi {
      assert s == f as real;
    }
  }

  /** Rounding never leaves an interval whose ends are whole numbers. */
  lemma RoundWithin(x: real, lo: int, hi: int, scale: nat)
    requires scale > 0
    requires lo as real <= x <= hi as real
    ensures lo as real <= RoundTo(x, scale) <= hi as real
  {
    var n := RoundedNumerator(x, scale);
    NumeratorWithin(x, lo, hi, scale);
    ScaledCast(lo, scale);
    ScaledCast(hi, scale);
    QuotientAbove(lo as real, n as real, scale as real);
    QuotientBelow(n as real, hi as real, scale as real);
  }

  lemma QuotientAbove(a: real, n: real, c: real)
    requires c > 0.0 && a * c <= n
    ensures a <= n / c
  {
    var q := n / c;
    assert q * c == n;
    if q < a {
      assert (a - q) * c > 0.0;
    }
  }

  lemma QuotientBelow(n: real, b: real, c: real)
    requires c > 0.0 && n <= b * c
    ensures n / c <= b
  {
    var q := n / c;
    assert q * c == n;
    if b < q {
      assert (q - b) * c > 0.0;
    }
  }

  /** A value already on the rounding grid is left unchanged. */
  lemma RoundOnGrid(k: int, scale: nat)
    requires scale > 0
    ensures RoundTo(k as real / scale as real, scale) == k as real / scale as real
  {
    var sc := scale as real;
    var s := (k as real / sc) * sc;
    assert s == k as real;
    assert s.Floor == k;
    assert RoundedNumerator(k as real / sc, scale) == k;
  }

  /** Comparing a quotient with a bound is comparing the numerator with the scaled bound. */
  lemma DivLess(a: real, t: real, c: real)
    requires t > 0.0
    ensures a / t < c <==> a < c * t
  {
    var q := a / t;
    assert q * t == a;
    if q < c {
      assert q * t < c * t;
    } else {
      assert q * t >= c * t;
    }
  }
}
