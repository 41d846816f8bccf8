/** The java.math.BigDecimal arithmetic the core relies on: the remainder by 0.1 that the per-game
    record checks, and the HALF_UP division that produces the average minutes. */
module Decimals {

  /** A BigDecimal: the value unscaled × 10^(-scale); the scale may be negative. */
  datatype Decimal = Decimal(unscaled: int, scale: int)

  function Pow10(n: nat): (p: nat)
    ensures p >= 1
  {
    if n == 0 then 1 else 10 * Pow10(n - 1)
  }

  function Abs(x: int): nat
  {
    if x < 0 then -x else x
  }

  function Sign(x: int): int
  {
    if x < 0 then -1 else if x == 0 then 0 else 1
  }

  /** The exact value a Decimal denotes. */
  function Value(d: Decimal): real
  {
    if d.scale >= 0 then d.unscaled as real / Pow10(d.scale) as real
    else (d.unscaled * Pow10(-d.scale)) as real
  }

  predicate IsWhole(x: real)
  {
    x.Floor as real == x
  }

  /** The remainder of a truncating division (it takes the dividend's sign). */
  function TruncRem(a: int, b: int): (r: int)
    requires b > 0
    ensures r == 0 <==> a % b == 0
    ensures Abs(r) < b && (r != 0 ==> Sign(r) == Sign(a))
    ensures (a - r) % b == 0
  {
    if a >= 0 then
      assert a - a % b == b * (a / b);
      MultipleMod(b, a / b);
      a % b
    else
      var r := (-a) % b;
      assert r == 0 <==> a % b == 0 by { ModNegate(a, b); }
      assert a + r == b * -((-a) / b);
      MultipleMod(b, -((-a) / b));
      -r
  }

  lemma ModNegate(a: int, b: int)
    requires b > 0
    ensures (-a) % b == 0 <==> a % b == 0
  {
    var q, r := a / b, a % b;
    assert a == b * q + r;
    if r == 0 {
      assert -a == b * (-q);
      MultipleMod(b, -q);
    } else {
      assert -a == b * (-q - 1) + (b - r);
      ModUnique(-a, b, -q - 1, b - r);
    }
  }

  lemma MultipleMod(b: int, q: int)
    requires b > 0
    ensures (b * q) % b == 0
  {
    ModUnique(b * q, b, q, 0);
  }

  /** Euclidean division has one quotient and one remainder. */
  lemma ModUnique(x: int, b: int, q: int, r: int)
    requires b > 0 && 0 <= r < b && x == b * q + r
    ensures x % b == r
  {
    var q', r' := x / b, x % b;
    assert b * (q - q') == r' - r;
    if q > q' {
      MulGrows(b, q - q');
      assert false;
    } else if q < q' {
      MulGrows(b, q' - q);
      assert false;
    }
  }

  lemma MulGrows(b: int, k: int)
    requires b > 0 && k >= 1
    ensures b * k >= b
  {
  }

  /** d.remainder(0.1), counted in units of 10^(-scale) (for a scale of at most 1 it is zero): less
      than 0.1 in magnitude, with the sign of d, and d minus it is a whole number of tenths. */
  function RemainderByTenth(d: Decimal): (r: int)
    ensures d.scale <= 1 ==> r == 0
    ensures d.scale > 1 ==> Abs(r) < Pow10(d.scale - 1) && (d.unscaled - r) % Pow10(d.scale - 1) == 0
    ensures r != 0 ==> Sign(r) == Sign(d.unscaled)
  {
    if d.scale <= 1 then 0 else TruncRem(d.unscaled, Pow10(d.scale - 1))
  }

  /** The number of tenths in a value on the 0.1 grid. */
  function Tenths(d: Decimal): (t: int)
    requires RemainderByTenth(d) == 0
    ensures t as real / 10.0 == Value(d)
  {
    if d.scale <= 1 then
      var t := d.unscaled * Pow10(1 - d.scale);
      TenthsOnCoarseScale(d);
      t
    else
      var q := Pow10(d.scale - 1);
      var t := d.unscaled / q;
      assert d.unscaled == t * q;
      assert Pow10(d.scale) == 10 * q;
      assert Value(d) == (t * q) as real / (10 * q) as real;
      t
  }

  lemma TenthsOnCoarseScale(d: Decimal)
    requires d.scale <= 1
    ensures (d.unscaled * Pow10(1 - d.scale)) as real / 10.0 == Value(d)
  {
    var u := d.unscaled;
    if d.scale == 1 {
      assert Pow10(0) == 1;
    } else {
      var p := Pow10(-d.scale);
      assert Pow10(1 - d.scale) == 10 * p;
      assert (u * (10 * p)) as real == 10.0 * (u * p) as real;
    }
  }

  /** The remainder by 0.1 is zero exactly when the value is a whole number of tenths. */
  lemma RemainderZeroIffTenths(d: Decimal)
    ensures RemainderByTenth(d) == 0 <==> IsWhole(Value(d) * 10.0)
  {
    if RemainderByTenth(d) == 0 {
      var t := Tenths(d);
      assert Value(d) * 10.0 == t as real;
    } else if IsWhole(Value(d) * 10.0) {
      WholeTenthsDivide(d);
      assert false;
    }
  }

  /** A fine-scaled value that is a whole number of tenths has its unscaled digits divisible. */
  lemma WholeTenthsDivide(d: Decimal)
    requires d.scale > 1 && IsWhole(Value(d) * 10.0)
    ensures d.unscaled % Pow10(d.scale - 1) == 0
  {
    var q := Pow10(d.scale - 1);
    var u := d.unscaled;
    assert Pow10(d.scale) == 10 * q;
    var x := u as real / q as real;
    assert Value(d) * 10.0 == x;
    var f := x.Floor;
    assert f as real * q as real == u as real;
    assert (q * f) as real == u as real;
    MultipleMod(q, f);
  }

  /** The rounding on magnitudes: the nearest whole quotient of t by n, halves rounded up. */
  function RoundHalfUpNat(t: nat, n: nat): (r: nat)
    requires n > 0
    ensures (2 * r - 1) * n <= 2 * t < (2 * r + 1) * n
    ensures r != 0 ==> t != 0
  {
    var r := (2 * t + n) / (2 * n);
    assert 2 * n * r <= 2 * t + n < 2 * n * r + 2 * n;
    assert (2 * r - 1) * n == 2 * n * r - n && (2 * r + 1) * n == 2 * n * r + n;
    r
  }

  /** BigDecimal.divide(n, 1, HALF_UP) applied to t tenths: the nearest whole quotient, ties away
      from zero. */
  function RoundHalfUpDiv(t: int, n: int): (r: int)
    requires n != 0
    ensures (2 * Abs(r) - 1) * Abs(n) <= 2 * Abs(t) < (2 * Abs(r) + 1) * Abs(n)
    ensures r != 0 ==> Sign(r) == Sign(t) * Sign(n)
  {
    var m: int := RoundHalfUpNat(Abs(t), Abs(n));
    if (t < 0) != (n < 0) then -m else m
  }

  /** The bounds and the sign of RoundHalfUpDiv pin one value down, for every sign of t and n. */
  lemma RoundHalfUpUnique(t: int, n: int, r: int)
    requires n != 0
    requires (2 * Abs(r) - 1) * Abs(n) <= 2 * Abs(t) < (2 * Abs(r) + 1) * Abs(n)
    requires r != 0 ==> Sign(r) == Sign(t) * Sign(n)
    ensures r == RoundHalfUpDiv(t, n)
  {
    var s := RoundHalfUpDiv(t, n);
    SameBoundsSameValue(Abs(t), Abs(n), Abs(r), Abs(s));
    if r != 0 {
      assert Sign(r) == Sign(s);
    }
  }

  lemma SameBoundsSameValue(t: int, n: int, r: int, s: int)
    requires n > 0
    requires (2 * r - 1) * n <= 2 * t < (2 * r + 1) * n
    requires (2 * s - 1) * n <= 2 * t < (2 * s + 1) * n
    ensures r == s
  {
  }

  lemma Scale32Point5()
    ensures RemainderByTenth(Decimal(325, 1)) == 0 && Tenths(Decimal(325, 1)) == 325
    ensures RemainderByTenth(Decimal(3250, 2)) == 0 && Tenths(Decimal(3250, 2)) == 325
    ensures RemainderByTenth(Decimal(3255, 2)) != 0
    ensures RoundHalfUpDiv(25, 2) == 13 && RoundHalfUpDiv(-25, 2) == -13 && RoundHalfUpDiv(24, 2) == 12
  {
    assert Pow10(1) == 10;
  }
}
