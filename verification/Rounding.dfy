// Reading a decimal gives the nearest double, ties to even.
module Rounding {
  import opened Text
  import opened Decimal
  import opened Doubles

  // The powers of the base, as a function of the exponent.
  ghost predicate ArePowers(base: real, power: int -> real) {
    power(0) == 1.0 && forall q, next :: next == q + 1 ==> power(next) == base * power(q)
  }

  function Power(base: real, q: int): real
    requires base > 0.0
    decreases if q < 0 then -q else q
  {
    if q == 0 then 1.0 else if q > 0 then base * Power(base, q - 1) else Power(base, q + 1) / base
  }

  lemma PowersExist(base: real)
    requires base > 0.0
    ensures ArePowers(base, q => Power(base, q))
  {
  }

  function Abs(x: real): real {
    if x < 0.0 then -x else x
  }

  lemma {:induction false} PowerIsPositive(base: real, power: int -> real, q: int)
    requires base > 0.0 && ArePowers(base, power)
    ensures power(q) > 0.0
    decreases if q < 0 then -q else q
  {
    if q > 0 {
      PowerIsPositive(base, power, q - 1);
      assert power(q) == base * power(q - 1);
    } else if q < 0 {
      PowerIsPositive(base, power, q + 1);
      assert power(q + 1) == base * power(q);
    }
  }

  // The value x is within half a unit of the multiple, and the multiple is even in a tie. It has 53 bits unless
  // the exponent is the least one.
  ghost predicate RoundsTo(x: real, mantissa: nat, q: int, unit: real) {
    && q >= -1074 && mantissa < TWO_53 && (mantissa >= TWO_52 || q == -1074)
    && 2.0 * Abs(x - mantissa as real * unit) <= unit
    && (2.0 * Abs(x - mantissa as real * unit) == unit ==> mantissa % 2 == 0)
  }

  // The double is the one x rounds to, or x rounds to a number with a greater exponent than doubles have.
  ghost predicate IsNearest(x: real, d: Double, twos: int -> real) {
    match d
    case Double(mantissa, q) => q <= 971 && RoundsTo(x, mantissa, q, twos(q))
    case TooLarge => exists mantissa, q :: q > 971 && RoundsTo(x, mantissa, q, twos(q))
  }

  lemma RoundedQuotient(num: nat, den: nat)
    requires den > 0
    ensures var r: int := RoundHalfEven(num, den);
            && -(den as int) <= 2 * (num - r * den) <= den
            && (2 * (num - r * den) == den || 2 * (num - r * den) == -(den as int) ==> r % 2 == 0)
  {
    var q, rest := num / den, num % den;
    assert num == q * den + rest;
    assert (q + 1) * den == q * den + den;
  }

  lemma Cancel(a: real, b: real, den: real)
    requires den > 0.0
    ensures a * den <= b * den ==> a <= b
    ensures a * den == b * den ==> a == b
  {
  }

  // num/den units make x.
  ghost predicate Stands(x: real, num: nat, den: nat, unit: real) {
    den > 0 && unit > 0.0 && x * den as real == num as real * unit
  }

  // Rounding the quotient rounds x to a multiple of the unit.
  lemma QuotientIsNearest(x: real, num: nat, den: nat, unit: real)
    requires Stands(x, num, den, unit)
    ensures var r := RoundHalfEven(num, den);
            && 2.0 * Abs(x - r as real * unit) <= unit
            && (2.0 * Abs(x - r as real * unit) == unit ==> r % 2 == 0)
  {
    var r := RoundHalfEven(num, den);
    RoundedQuotient(num, den);
    MultipleIsNearest(x, num, den, unit, r, num - r * den);
  }

  lemma MultipleIsNearest(x: real, num: nat, den: nat, unit: real, r: nat, off: int)
    requires Stands(x, num, den, unit) && off == num - r * den && -(den as int) <= 2 * off <= den
    requires 2 * off == den || 2 * off == -(den as int) ==> r % 2 == 0
    ensures && 2.0 * Abs(x - r as real * unit) <= unit
            && (2.0 * Abs(x - r as real * unit) == unit ==> r % 2 == 0)
  {
    Offset(x, num, den, r, unit);
    ScaledBound(x - r as real * unit, unit, off, den);
  }

  lemma Offset(x: real, num: nat, den: nat, r: nat, unit: real)
    requires x * den as real == num as real * unit
    ensures (x - r as real * unit) * den as real == (num - r * den) as real * unit
  {
    assert (num - r * den) as real == num as real - r as real * den as real;
    assert (r as real * unit) * den as real == (r as real * den as real) * unit;
  }

  lemma ScaledBound(y: real, unit: real, off: int, den: nat)
    requires den > 0 && unit > 0.0 && y * den as real == off as real * unit
    requires -(den as int) <= 2 * off <= den
    ensures 2.0 * Abs(y) <= unit
    ensures 2.0 * Abs(y) == unit ==> 2 * off == den || 2 * off == -(den as int)
  {
    var a := if off < 0 then -off else off;
    assert Abs(y) * den as real == a as real * unit by {
      assert (-y) * den as real == (-off) as real * unit;
      SignsAgree(y, unit, off, den);
    }
    assert (2.0 * Abs(y)) * den as real == (2 * a) as real * unit;
    TimesUnit(2 * a, den, unit);
    Cancel(2.0 * Abs(y), unit, den as real);
  }

  lemma SignsAgree(y: real, unit: real, off: int, den: nat)
    requires den > 0 && unit > 0.0 && y * den as real == off as real * unit
    ensures y < 0.0 <==> off < 0
  {
    if off < 0 {
      assert off as real * unit < 0.0;
    } else {
      assert off as real * unit >= 0.0;
    }
  }

  lemma TimesUnit(a: nat, den: nat, unit: real)
    requires a <= den && unit > 0.0
    ensures a as real * unit <= unit * den as real
    ensures a as real * unit == unit * den as real ==> a == den
  {
    Cancel(den as real, a as real, unit);
    assert unit * den as real == den as real * unit;
    var gap := (den - a) as real * unit;
    assert den as real * unit - a as real * unit == gap;
  }

  // ---- Scaling ----

  // What ScaleDown makes of its quotient once it is scaled.
  lemma FinishedIsNearest(x: real, num: nat, den: nat, q: int, twos: int -> real)
    requires ArePowers(2.0, twos) && Stands(x, num, den, twos(q)) && q >= -1074
    requires num < TWO_53 * den && (num >= TWO_52 * den || q == -1074)
    ensures IsNearest(x, ScaleDown(num, den, q), twos)
  {
    var r := RoundHalfEven(num, den);
    QuotientIsNearest(x, num, den, twos(q));
    MantissaBounds(num, den, q, r);
    if r == TWO_53 {
      Renormalized(x, twos(q), twos(q + 1), q);
      assert RoundsTo(x, TWO_52, q + 1, twos(q + 1));
    } else {
      assert RoundsTo(x, r, q, twos(q));
    }
  }

  lemma Renormalized(x: real, unit: real, next: real, q: int)
    requires q >= -1074 && next == 2.0 * unit && unit > 0.0
    requires 2.0 * Abs(x - TWO_53 as real * unit) <= unit
    ensures RoundsTo(x, TWO_52, q + 1, next)
  {
    assert TWO_52 as real * next == TWO_53 as real * unit;
  }

  lemma MantissaBounds(num: nat, den: nat, q: int, r: nat)
    requires den > 0 && num < TWO_53 * den && (num >= TWO_52 * den || q == -1074) && r == RoundHalfEven(num, den)
    ensures r <= TWO_53 && (r >= TWO_52 || q == -1074)
  {
    QuotientBelow(num, den, TWO_53);
    if num >= TWO_52 * den {
      QuotientAtLeast(num, den, TWO_52);
    }
  }

  lemma QuotientBelow(num: nat, den: nat, bound: nat)
    requires den > 0 && num < bound * den
    ensures num / den < bound
  {
    assert num / den * den <= num;
    CancelBelow(num / den, bound, den);
  }

  lemma CancelBelow(a: nat, b: nat, den: nat)
    requires a * den < b * den
    ensures a < b
  {
  }

  lemma QuotientAtLeast(num: nat, den: nat, bound: nat)
    requires den > 0 && num >= bound * den
    ensures num / den >= bound
  {
    assert num < (num / den + 1) * den;
    CancelBelow(bound, num / den + 1, den);
  }

  lemma {:induction false} ScaledDownIsNearest(x: real, num: nat, den: nat, q: int, twos: int -> real)
    requires ArePowers(2.0, twos) && Stands(x, num, den, twos(q)) && q >= -1074 && num < TWO_53 * den
    ensures IsNearest(x, ScaleDown(num, den, q), twos)
    decreases q + 1074
  {
    if num < TWO_52 * den && q > -1074 {
      HalfUnits(x, num, den, twos, q);
      ScaledDownIsNearest(x, 2 * num, den, q - 1, twos);
    } else {
      FinishedIsNearest(x, num, den, q, twos);
    }
  }

  lemma HalfUnits(x: real, num: nat, den: nat, twos: int -> real, q: int)
    requires ArePowers(2.0, twos) && Stands(x, num, den, twos(q))
    ensures Stands(x, 2 * num, den, twos(q - 1))
  {
    assert twos(q) == 2.0 * twos(q - 1);
    assert num as real * twos(q) == (2 * num) as real * twos(q - 1);
  }

  lemma {:induction false} ScaledUpIsNearest(x: real, num: nat, den: nat, q: int, twos: int -> real)
    requires ArePowers(2.0, twos) && Stands(x, num, den, twos(q)) && q >= 0
    ensures IsNearest(x, ScaleUp(num, den, q), twos)
    decreases num - den
  {
    if num >= TWO_53 * den {
      DoubleUnits(x, num, den, twos, q);
      ScaledUpIsNearest(x, num, 2 * den, q + 1, twos);
    } else {
      ScaledDownIsNearest(x, num, den, q, twos);
    }
  }

  lemma DoubleUnits(x: real, num: nat, den: nat, twos: int -> real, q: int)
    requires ArePowers(2.0, twos) && Stands(x, num, den, twos(q))
    ensures Stands(x, num, 2 * den, twos(q + 1))
  {
    assert twos(q + 1) == 2.0 * twos(q);
    assert x * (2 * den) as real == 2.0 * (x * den as real);
    assert num as real * twos(q + 1) == 2.0 * (num as real * twos(q));
  }

  // ---- Decimals ----

  lemma {:induction false} ShiftIsPower(n: nat, places: nat, tens: int -> real)
    requires ArePowers(10.0, tens)
    ensures Shift10(n, places) as real == n as real * tens(places)
  {
    if places > 0 {
      ShiftIsPower(n, places - 1, tens);
      assert tens(places) == 10.0 * tens(places - 1);
    }
  }

  lemma {:induction false} NegativePower(places: nat, tens: int -> real)
    requires ArePowers(10.0, tens)
    ensures tens(0 - places) * tens(places) == 1.0
  {
    if places > 0 {
      NegativePower(places - 1, tens);
      assert tens(places) == 10.0 * tens(places - 1);
      assert tens(0 - (places - 1)) == 10.0 * tens(0 - places);
    }
  }

  // The double that is read for n times ten to the power of e is the nearest one, the even one in a tie.
  lemma NearestDoubleIsNearest(n: nat, e: int, twos: int -> real, tens: int -> real)
    requires ArePowers(2.0, twos) && ArePowers(10.0, tens)
    ensures IsNearest(n as real * tens(e), NearestDouble(n, e), twos)
  {
    var x := n as real * tens(e);
    if e >= 0 {
      ShiftIsPower(n, e, tens);
      ScaledUpIsNearest(x, Shift10(n, e), 1, 0, twos);
    } else {
      ShiftStaysPositive(1, -e);
      ShiftIsPower(1, -e, tens);
      NegativePower(-e, tens);
      assert x * tens(-e) == n as real * (tens(e) * tens(-e));
      ScaledUpIsNearest(x, n, Shift10(1, -e), 0, twos);
    }
  }
}
