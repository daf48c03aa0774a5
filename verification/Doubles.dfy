// JavaScript numbers as far as manifests use them: reading a decimal numeral to the nearest double, and
// printing a double.
module Doubles {
  import opened Text
  import opened Decimal

  // The decimal 0.d1d2... times ten to the power of `point`, negated or not. Its digits neither begin
  // nor end with a zero; zero has none.
  datatype Number = Finite(negative: bool, digits: string, point: int) | Infinite(negative: bool)

  const ZERO := Finite(false, "", 0)

  predicate IsDecimal(digits: string, point: int) {
    && AllDigits(digits)
    && (digits == "" ==> point == 0)
    && (digits != "" ==> digits[0] != '0' && digits[|digits| - 1] != '0')
  }

  // ---- Numerals ----

  function DigitRun(s: string): (n: nat)
    ensures n <= |s| && AllDigits(s[..n])
    ensures n < |s| ==> !IsDigit(s[n])
  {
    if s == "" || !IsDigit(s[0]) then 0
    else
      var n := 1 + DigitRun(s[1..]);
      assert s[..n] == [s[0]] + s[1..][..n - 1];
      n
  }

  // digits(.digits)?
  predicate IsUnsignedNumeral(s: string) {
    var n := DigitRun(s);
    n > 0 && (n == |s| || (s[n] == '.' && n + 1 < |s| && DigitRun(s[n + 1..]) == |s| - n - 1))
  }

  // -?digits(.digits)?
  predicate IsNumeral(s: string) {
    if s != "" && s[0] == '-' then IsUnsignedNumeral(s[1..]) else IsUnsignedNumeral(s)
  }

  function DropLeadingZeros(s: string): (r: string)
    ensures |r| <= |s|
  {
    if s != "" && s[0] == '0' then DropLeadingZeros(s[1..]) else s
  }

  function DropTrailingZeros(s: string): string {
    if s != "" && s[|s| - 1] == '0' then DropTrailingZeros(s[..|s| - 1]) else s
  }

  // The decimal that digits spell whose first `whole` ones stand before the point.
  function Normalized(negative: bool, digits: string, whole: int): Number {
    var significant := DropLeadingZeros(digits);
    var kept := DropTrailingZeros(significant);
    if kept == "" then ZERO else Finite(negative, kept, whole - (|digits| - |significant|))
  }

  function ExactUnsigned(s: string, negative: bool): Number
    requires IsUnsignedNumeral(s)
  {
    var n := DigitRun(s);
    if n == |s| then Normalized(negative, s[..n], n)
    else
      Normalized(negative, s[..n] + s[n + 1..], n)
  }

  // The decimal that a numeral denotes.
  function Exact(s: string): Number
    requires IsNumeral(s)
  {
    if s[0] == '-' then ExactUnsigned(s[1..], true) else ExactUnsigned(s, false)
  }

  // ---- The nearest double ----

  datatype Double = Double(mantissa: nat, exponent: int) | TooLarge

  const TWO_52: nat := 0x10_0000_0000_0000
  const TWO_53: nat := 0x20_0000_0000_0000

  function Shift10(n: nat, places: nat): nat {
    if places == 0 then n else 10 * Shift10(n, places - 1)
  }

  function Shift2(n: nat, places: nat): nat {
    if places == 0 then n else 2 * Shift2(n, places - 1)
  }

  function RoundHalfEven(num: nat, den: nat): nat
    requires den > 0
  {
    var q, r := num / den, num % den;
    if 2 * r > den || (2 * r == den && q % 2 == 1) then q + 1 else q
  }

  lemma ShiftStaysPositive(n: nat, places: nat)
    requires n > 0
    ensures Shift10(n, places) > 0 && Shift2(n, places) > 0
  {
  }

  // num/den times two to the power of q, with a mantissa below 2^53.
  function ScaleUp(num: nat, den: nat, q: int): Double
    requires den > 0
    decreases num - den
  {
    if num >= TWO_53 * den then ScaleUp(num, 2 * den, q + 1) else ScaleDown(num, den, q)
  }

  // The mantissa is at least 2^52 unless the exponent is the least one.
  function ScaleDown(num: nat, den: nat, q: int): Double
    requires den > 0
    decreases q + 1074
  {
    if num < TWO_52 * den && q > -1074 then ScaleDown(2 * num, den, q - 1)
    else
      var mantissa := RoundHalfEven(num, den);
      var d := if mantissa == TWO_53 then Double(TWO_52, q + 1) else Double(mantissa, q);
      if d.exponent > 971 then TooLarge else d
  }

  // The double nearest to n times ten to the power of e, ties to even.
  function NearestDouble(n: nat, e: int): Double {
    ShiftStaysPositive(1, if e < 0 then -e else 0);
    if e >= 0 then ScaleUp(Shift10(n, e), 1, 0) else ScaleUp(n, Shift10(1, -e), 0)
  }

  function DoubleOf(digits: string, point: int): Double
    requires AllDigits(digits)
  {
    NearestDouble(ReadNat(digits), point - |digits|)
  }

  // ---- The shortest decimal of a double ----

  // The least n with num/den below ten to the power of n, for a quotient of at least one...
  function PointUp(num: nat, den: nat): int
    requires den > 0
    decreases num - den
  {
    if num >= den then 1 + PointUp(num, 10 * den) else 0
  }

  // ... and for one below.
  function PointDown(num: nat, den: nat): int
    requires num > 0
    decreases den - num
  {
    if 10 * num < den then PointDown(10 * num, den) - 1 else 0
  }

  // n times ten to the power of e.
  function TimesTen(n: nat, e: int): Number {
    Normalized(false, NatToString(n), |NatToString(n)| + e)
  }

  // A decimal that reads as the double v.
  predicate Denotes(x: Number, v: Double) {
    x.Finite? && !x.negative && IsDecimal(x.digits, x.point) && x.digits != "" && DoubleOf(x.digits, x.point) == v
  }

  function FirstDenoting(n: nat, other: nat, e: int, v: Double): (x: Option<Number>)
    ensures x.Some? ==> Denotes(x.value, v)
  {
    if Denotes(TimesTen(n, e), v) then Some(TimesTen(n, e))
    else if Denotes(TimesTen(other, e), v) then Some(TimesTen(other, e))
    else None
  }

  // The multiple of ten to the power of e closest to num/den times that, the even one in a tie, or else
  // its neighbour, if it reads as v.
  function Closest(v: Double, num: nat, den: nat, e: int): (x: Option<Number>)
    requires den > 0
    ensures x.Some? ==> Denotes(x.value, v)
  {
    var below: nat, rest: nat := num / den, num % den;
    if 2 * rest < den || (2 * rest == den && below % 2 == 0) then FirstDenoting(below, below + 1, e, v)
    else FirstDenoting(below + 1, below, e, v)
  }

  // The k-digit decimal closest to num/den, the value of v, or else its neighbour, if it reads as v.
  function WithDigits(v: Double, num: nat, den: nat, k: nat): (x: Option<Number>)
    requires num > 0 && den > 0
    ensures x.Some? ==> Denotes(x.value, v)
  {
    var e := (if num >= den then PointUp(num, den) else PointDown(num, den)) - k;
    if e < 0 then Closest(v, Shift10(num, -e), den, e)
    else
      ShiftStaysPositive(den, e);
      Closest(v, num, Shift10(den, e), e)
  }

  const MAX_DIGITS: nat := 17

  // The first decimal in the search from k digits to 17 that reads as the double v.
  function Shortest(v: Double, num: nat, den: nat, k: nat): (x: Option<Number>)
    requires num > 0 && den > 0
    ensures x.Some? ==> Denotes(x.value, v)
    decreases MAX_DIGITS + 1 - k
  {
    if k > MAX_DIGITS then None
    else if WithDigits(v, num, den, k).Some? then WithDigits(v, num, den, k)
    else Shortest(v, num, den, k + 1)
  }

  function ShortestOf(v: Double): (x: Option<Number>)
    requires v.Double? && v.mantissa > 0
    ensures x.Some? ==> Denotes(x.value, v)
  {
    ShiftStaysPositive(v.mantissa, if v.exponent < 0 then 0 else v.exponent);
    ShiftStaysPositive(1, if v.exponent < 0 then -v.exponent else 0);
    if v.exponent < 0 then Shortest(v, v.mantissa, Shift2(1, -v.exponent), 1)
    else Shortest(v, Shift2(v.mantissa, v.exponent), 1, 1)
  }

  // The decimal that stands for the double nearest to a decimal: the first one found that reads as it.
  function Rounded(x: Number): Number
    requires x.Finite? && IsDecimal(x.digits, x.point)
  {
    if x.digits == "" then ZERO
    else
      var v := DoubleOf(x.digits, x.point);
      if v.TooLarge? then Infinite(x.negative)
      else if v.mantissa == 0 then ZERO
      else
        match ShortestOf(v)
        case None => x
        case Some(short) => Finite(x.negative, short.digits, short.point)
  }

  // What Number() makes of a numeral.
  function ReadNumber(s: string): Number
    requires IsNumeral(s)
  {
    ExactIsDecimal(s);
    Rounded(Exact(s))
  }

  // A number that reading a numeral can give.
  ghost predicate IsNumber(x: Number) {
    x.Finite? ==> IsDecimal(x.digits, x.point) && Rounded(x) == x
  }

  lemma {:induction false} LeadingDropped(s: string)
    requires AllDigits(s)
    ensures var r := DropLeadingZeros(s); AllDigits(r) && (r != "" ==> r[0] != '0' && r[|r| - 1] == s[|s| - 1])
  {
    if s == "" || s[0] != '0' {
    } else {
      LeadingDropped(s[1..]);
    }
  }

  lemma {:induction false} TrailingDropped(s: string)
    requires AllDigits(s)
    ensures var r := DropTrailingZeros(s); AllDigits(r) && (r != "" ==> r[|r| - 1] != '0' && r[0] == s[0])
    decreases |s|
  {
    if s == "" || s[|s| - 1] != '0' {
    } else {
      TrailingDropped(s[..|s| - 1]);
    }
  }

  lemma NormalizedIsDecimal(negative: bool, digits: string, whole: int)
    requires AllDigits(digits)
    ensures var x := Normalized(negative, digits, whole); x.Finite? && IsDecimal(x.digits, x.point)
  {
    LeadingDropped(digits);
    TrailingDropped(DropLeadingZeros(digits));
  }

  lemma ExactIsDecimal(s: string)
    requires IsNumeral(s)
    ensures Exact(s).Finite? && IsDecimal(Exact(s).digits, Exact(s).point)
  {
    var t := if s[0] == '-' then s[1..] else s;
    var n := DigitRun(t);
    if n == |t| {
      NormalizedIsDecimal(s[0] == '-', t[..n], n);
    } else {
      var fraction := t[n + 1..];
      assert fraction[..DigitRun(fraction)] == fraction;
      NormalizedIsDecimal(s[0] == '-', t[..n] + fraction, n);
    }
  }

  // Rounding a number again changes nothing: the decimal found for it reads as the same double.
  lemma RoundedIsNumber(x: Number)
    requires x.Finite? && IsDecimal(x.digits, x.point)
    ensures IsNumber(Rounded(x))
  {
  }

  lemma ReadIsNumber(s: string)
    requires IsNumeral(s)
    ensures IsNumber(ReadNumber(s))
  {
    ExactIsDecimal(s);
    RoundedIsNumber(Exact(s));
  }

  // ---- Printing ----

  function Zeros(n: nat): (z: string)
    ensures |z| == n && forall i :: 0 <= i < n ==> z[i] == '0'
  {
    seq(n, _ => '0')
  }

  function Exponent(e: int): string {
    "e" + (if e < 0 then "-" + NatToString(-e) else "+" + NatToString(e))
  }

  const MAX_WHOLE_DIGITS: int := 21

  function DigitsText(digits: string, point: int): string {
    var k := |digits|;
    if k == 0 then "0"
    else if k <= point <= MAX_WHOLE_DIGITS then digits + Zeros(point - k)
    else if 0 < point <= MAX_WHOLE_DIGITS then digits[..point] + "." + digits[point..]
    else if -6 < point <= 0 then "0." + Zeros(-point) + digits
    else if k == 1 then digits + Exponent(point - 1)
    else digits[..1] + "." + digits[1..] + Exponent(point - 1)
  }

  // String() of a number.
  function NumberText(x: Number): string {
    var magnitude := if x.Infinite? then "Infinity" else DigitsText(x.digits, x.point);
    if x.negative then "-" + magnitude else magnitude
  }

  // Printed without an exponent: zero, or from 0.000001 up to but not including 10^21.
  predicate PrintsPlainly(x: Number) {
    x.Finite? && (x.digits == "" || -6 < x.point <= MAX_WHOLE_DIGITS)
  }

  // ---- Reading what was printed ----

  lemma {:induction false} DigitRunOf(digits: string, rest: string)
    requires AllDigits(digits) && (rest == "" || !IsDigit(rest[0]))
    ensures DigitRun(digits + rest) == |digits|
  {
    if digits == "" {
      assert digits + rest == rest;
    } else {
      assert (digits + rest)[1..] == digits[1..] + rest;
      DigitRunOf(digits[1..], rest);
    }
  }

  lemma {:induction false} LeadingZerosGone(n: nat, rest: string)
    requires rest == "" || rest[0] != '0'
    ensures DropLeadingZeros(Zeros(n) + rest) == rest
  {
    if n == 0 {
      assert Zeros(0) + rest == rest;
    } else {
      assert (Zeros(n) + rest)[1..] == Zeros(n - 1) + rest;
      LeadingZerosGone(n - 1, rest);
    }
  }

  lemma {:induction false} TrailingZerosGone(rest: string, n: nat)
    requires rest == "" || rest[|rest| - 1] != '0'
    ensures DropTrailingZeros(rest + Zeros(n)) == rest
  {
    if n == 0 {
      assert rest + Zeros(0) == rest;
    } else {
      var s := rest + Zeros(n);
      assert s[..|s| - 1] == rest + Zeros(n - 1);
      TrailingZerosGone(rest, n - 1);
    }
  }

  lemma NormalizedOf(t: string, negative: bool, before: nat, digits: string, after: nat, whole: int)
    requires digits != "" && IsDecimal(digits, whole) && t == Zeros(before) + (digits + Zeros(after))
    ensures AllDigits(t) && Normalized(negative, t, whole) == Finite(negative, digits, whole - before)
  {
    LeadingZerosGone(before, digits + Zeros(after));
    TrailingZerosGone(digits, after);
  }

  // All digits, with no point.
  lemma WholeReads(t: string, negative: bool)
    requires t != "" && AllDigits(t)
    ensures IsUnsignedNumeral(t) && ExactUnsigned(t, negative) == Normalized(negative, t, |t|)
  {
    DigitRunOf(t, "");
    assert t + "" == t && t[..|t|] == t;
  }

  lemma PointReads(t: string, a: string, b: string, negative: bool)
    requires a != "" && b != "" && AllDigits(a) && AllDigits(b) && t == a + (['.'] + b)
    ensures IsUnsignedNumeral(t) && ExactUnsigned(t, negative) == Normalized(negative, a + b, |a|)
  {
    DigitRunOf(a, ['.'] + b);
    DigitRunOf(b, "");
    assert b + "" == b && t[..|a|] == a && t[|a| + 1..] == b;
  }

  ghost predicate ReadsAs(t: string, negative: bool, digits: string, point: int) {
    IsUnsignedNumeral(t) && ExactUnsigned(t, negative) == Finite(negative, digits, point)
  }

  lemma WholeDigitsRead(t: string, digits: string, point: int, negative: bool)
    requires IsDecimal(digits, point) && digits != "" && |digits| <= point && t == digits + Zeros(point - |digits|)
    ensures ReadsAs(t, negative, digits, point)
  {
    assert t == Zeros(0) + t;
    NormalizedOf(t, negative, 0, digits, point - |digits|, point);
    WholeReads(t, negative);
  }

  lemma SplitDigitsRead(t: string, digits: string, point: int, negative: bool)
    requires IsDecimal(digits, point) && 0 < point < |digits| && t == digits[..point] + (['.'] + digits[point..])
    ensures ReadsAs(t, negative, digits, point)
  {
    assert digits == Zeros(0) + (digits + Zeros(0)) && digits == digits[..point] + digits[point..];
    NormalizedOf(digits, negative, 0, digits, 0, point);
    PointReads(t, digits[..point], digits[point..], negative);
  }

  lemma SmallDigitsRead(t: string, digits: string, point: int, negative: bool)
    requires IsDecimal(digits, point) && digits != "" && point <= 0
    requires t == "0" + (['.'] + (Zeros(-point) + digits))
    ensures ReadsAs(t, negative, digits, point)
  {
    var fraction := Zeros(-point) + digits;
    assert "0" + fraction == Zeros(1 - point) + (digits + Zeros(0));
    NormalizedOf("0" + fraction, negative, 1 - point, digits, 0, 1);
    PointReads(t, "0", fraction, negative);
  }

  lemma PlainDigitsRead(digits: string, point: int, negative: bool)
    requires IsDecimal(digits, point) && digits != "" && -6 < point <= MAX_WHOLE_DIGITS
    ensures ReadsAs(DigitsText(digits, point), negative, digits, point)
  {
    var t := DigitsText(digits, point);
    if |digits| <= point {
      WholeDigitsRead(t, digits, point, negative);
    } else if 0 < point {
      assert t == digits[..point] + (['.'] + digits[point..]);
      SplitDigitsRead(t, digits, point, negative);
    } else {
      assert t == "0" + (['.'] + (Zeros(-point) + digits));
      SmallDigitsRead(t, digits, point, negative);
    }
  }

  // A number that prints plainly reads back exactly.
  lemma PlainNumberReads(x: Number)
    requires IsNumber(x) && PrintsPlainly(x)
    ensures IsNumeral(NumberText(x)) && ReadNumber(NumberText(x)) == x
  {
    var t := DigitsText(x.digits, x.point);
    if x.digits == "" {
      WholeReads("0", false);
      LeadingZerosGone(1, "");
      assert Zeros(1) + "" == "0";
    } else {
      PlainDigitsRead(x.digits, x.point, x.negative);
      assert IsDigit(t[0]) by {
        assert DigitRun(t) > 0;
      }
      assert ("-" + t)[1..] == t;
    }
  }

  lemma UnsignedNumeralChars(s: string)
    requires IsUnsignedNumeral(s)
    ensures forall c :: c in s ==> IsDigit(c) || c == '.'
  {
    var n := DigitRun(s);
    if n < |s| {
      var fraction := s[n + 1..];
      assert fraction[..DigitRun(fraction)] == fraction;
      assert s == s[..n] + (['.'] + fraction);
    } else {
      assert s[..n] == s;
    }
  }

  lemma NumeralChars(s: string)
    requires IsNumeral(s)
    ensures forall c :: c in s ==> IsDigit(c) || c == '.' || c == '-'
  {
    if s[0] == '-' {
      UnsignedNumeralChars(s[1..]);
      assert s == ['-'] + s[1..];
    } else {
      UnsignedNumeralChars(s);
    }
  }

  // A number that does not is no numeral any more.
  lemma OtherNumberIsNoNumeral(x: Number)
    requires IsNumber(x) && !PrintsPlainly(x)
    ensures !IsNumeral(NumberText(x))
  {
    var t := NumberText(x);
    if x.Infinite? {
      assert "Infinity"[0] == 'I' && 'I' in "Infinity";
      assert 'I' in t;
    } else {
      assert Exponent(x.point - 1)[0] == 'e' && 'e' in Exponent(x.point - 1);
      assert 'e' in DigitsText(x.digits, x.point);
      assert 'e' in t;
    }
    if IsNumeral(t) {
      NumeralChars(t);
    }
  }

  // Printed and read again, a number comes back exactly if it prints plainly; otherwise what was printed
  // is no numeral at all.
  lemma NumberReadsBackIff(x: Number)
    requires IsNumber(x)
    ensures IsNumeral(NumberText(x)) <==> PrintsPlainly(x)
    ensures PrintsPlainly(x) ==> ReadNumber(NumberText(x)) == x
  {
    if PrintsPlainly(x) {
      PlainNumberReads(x);
    } else {
      OtherNumberIsNoNumeral(x);
    }
  }

  // Printed as digits alone.
  predicate PrintsDigits(x: Number) {
    x.Finite? && !x.negative && (x.digits == "" || |x.digits| <= x.point <= MAX_WHOLE_DIGITS)
  }

  function ReadDigits(s: string): Number
    requires s != "" && AllDigits(s)
  {
    WholeReads(s, false);
    ReadNumber(s)
  }

  lemma {:induction false} PrintsDigitsIff(x: Number)
    requires IsNumber(x)
    ensures AllDigits(NumberText(x)) <==> PrintsDigits(x)
    ensures PrintsDigits(x) ==> NumberText(x) != "" && ReadDigits(NumberText(x)) == x
  {
    var t := NumberText(x);
    if PrintsDigits(x) {
      PlainNumberReads(x);
    } else if x.negative || x.Infinite? {
      assert !IsDigit(t[0]);
    } else {
      var i := NonDigitAt(x.digits, x.point);
      assert !IsDigit(t[i]);
    }
  }

  lemma NonDigitAt(digits: string, point: int) returns (i: nat)
    requires IsDecimal(digits, point) && digits != "" && !(|digits| <= point <= MAX_WHOLE_DIGITS)
    ensures i < |DigitsText(digits, point)| && !IsDigit(DigitsText(digits, point)[i])
  {
    var t := DigitsText(digits, point);
    if 0 < point <= MAX_WHOLE_DIGITS {
      i := point;
    } else if -6 < point <= 0 || |digits| > 1 {
      i := 1;
    } else {
      i := 1;
      assert t[1] == Exponent(point - 1)[0];
    }
  }

  // ---- What printed numbers look like ----

  predicate IsNumberChar(c: char) {
    IsDigit(c) || c in "-+.eInfity"
  }

  ghost predicate LooksLikeNumber(s: string) {
    s != "" && forall c :: c in s ==> IsNumberChar(c)
  }

  lemma NumberTextLooks(x: Number)
    requires x.Finite? ==> IsDecimal(x.digits, x.point)
    ensures LooksLikeNumber(NumberText(x))
    ensures IsDigit(NumberText(x)[0]) || NumberText(x)[0] in "-I"
  {
    if x.Finite? {
      DigitsTextLooks(x.digits, x.point);
    }
  }

  lemma DigitsTextLooks(digits: string, point: int)
    requires IsDecimal(digits, point)
    ensures LooksLikeNumber(DigitsText(digits, point)) && IsDigit(DigitsText(digits, point)[0])
  {
    DigitsLook(digits);
    ExponentLooks(point - 1);
    DigitsLook(Zeros(if point <= 0 then -point else 0));
    DigitsLook(Zeros(if |digits| <= point then point - |digits| else 0));
    if 0 < point < |digits| {
      DigitsLook(digits[..point]);
      DigitsLook(digits[point..]);
    }
    if digits != "" {
      DigitsLook(digits[..1]);
      DigitsLook(digits[1..]);
    }
    assert IsNumberChar('.');
  }

  lemma DigitsLook(s: string)
    requires AllDigits(s)
    ensures forall c :: c in s ==> IsNumberChar(c)
  {
  }

  lemma ExponentLooks(e: int)
    ensures forall c :: c in Exponent(e) ==> IsNumberChar(c)
  {
    DigitsLook(NatToString(if e < 0 then -e else e));
    assert IsNumberChar('e') && IsNumberChar('-') && IsNumberChar('+');
  }

  // ---- An example: ten to the power of 21 ----

  const TEN_7: nat := 10_000_000
  const TEN_21: nat := 1_000_000_000_000_000_000_000

  lemma {:induction false} Shift10Twice(n: nat, a: nat, b: nat)
    ensures Shift10(n, a + b) == Shift10(Shift10(n, a), b)
  {
    if b == 0 {
    } else {
      Shift10Twice(n, a, b - 1);
    }
  }

  lemma Shift10By7(n: nat)
    ensures Shift10(n, 7) == TEN_7 * n
  {
    assert Shift10(n, 1) == 10 * n;
    assert Shift10(n, 2) == 100 * n;
    assert Shift10(n, 3) == 1_000 * n;
    assert Shift10(n, 4) == 10_000 * n;
    assert Shift10(n, 5) == 100_000 * n;
    assert Shift10(n, 6) == 1_000_000 * n;
  }

  lemma Shift10By21()
    ensures Shift10(1, 21) == TEN_21 && Shift10(1, 22) == 10 * TEN_21
  {
    Shift10By7(1);
    Shift10By7(TEN_7);
    Shift10By7(TEN_7 * TEN_7);
    Shift10Twice(1, 7, 7);
    Shift10Twice(1, 14, 7);
    assert Shift10(1, 22) == 10 * Shift10(1, 21);
  }

  lemma {:induction false} ScalesUpTo(num: nat, den: nat, q: int, k: nat)
    requires den > 0 && (k > 0 ==> num >= TWO_53 * Shift2(den, k - 1))
    ensures Shift2(den, k) > 0 && ScaleUp(num, den, q) == ScaleUp(num, Shift2(den, k), q + k)
  {
    ShiftStaysPositive(den, k);
    if k == 0 {
    } else {
      ShiftStaysPositive(den, k - 1);
      if k > 1 {
        assert Shift2(den, k - 1) == 2 * Shift2(den, k - 2);
      }
      ScalesUpTo(num, den, q, k - 1);
    }
  }

  lemma Shift2By17(n: nat)
    ensures Shift2(n, 16) == 0x1_0000 * n && Shift2(n, 17) == 0x2_0000 * n
  {
    assert Shift2(n, 1) == 2 * n && Shift2(n, 2) == 4 * n;
    assert Shift2(n, 4) == 16 * n;
    assert Shift2(n, 6) == 64 * n;
    assert Shift2(n, 8) == 256 * n;
    assert Shift2(n, 10) == 1_024 * n;
    assert Shift2(n, 12) == 4_096 * n;
    assert Shift2(n, 14) == 16_384 * n;
  }

  const DOUBLE_TEN_21 := Double(7_629_394_531_250_000, 17)

  lemma NearestToTen21()
    ensures DoubleOf("1", 22) == DOUBLE_TEN_21
  {
    Shift10By21();
    Shift2By17(1);
    ScalesUpTo(TEN_21, 1, 0, 17);
    assert TEN_21 == 7_629_394_531_250_000 * 0x2_0000;
    assert RoundHalfEven(TEN_21, 0x2_0000) == 7_629_394_531_250_000;
    assert "1"[..0] == "" && DigitValue('1') == 1 && ReadNat("1") == 1;
    assert NearestDouble(1, 21) == ScaleUp(TEN_21, 1, 0);
  }

  lemma {:induction false} PointsUpTo(num: nat, den: nat, k: nat)
    requires den > 0 && k > 0 && Shift10(den, k - 1) <= num < Shift10(den, k)
    ensures PointUp(num, den) == k
    decreases k
  {
    Shift10Twice(den, 1, k - 1);
    if k == 1 {
    } else {
      Shift10Twice(den, 1, k - 2);
      ShiftGrows(den, k - 1);
      PointsUpTo(num, 10 * den, k - 1);
    }
  }

  lemma {:induction false} ShiftGrows(n: nat, places: nat)
    ensures n <= Shift10(n, places)
  {
    if places == 0 {
    } else {
      ShiftGrows(n, places - 1);
    }
  }

  lemma OneReadsAsTen21()
    ensures TimesTen(1, 21) == Finite(false, "1", 22) && Denotes(Finite(false, "1", 22), DOUBLE_TEN_21)
  {
    NearestToTen21();
    assert NatToString(1) == "1";
    LeadingZerosGone(0, "1");
    TrailingZerosGone("1", 0);
    assert Zeros(0) + "1" == "1" && "1" + Zeros(0) == "1";
  }

  lemma ShortestOfTen21()
    ensures ShortestOf(DOUBLE_TEN_21) == Some(Finite(false, "1", 22))
  {
    var x, v := Finite(false, "1", 22), DOUBLE_TEN_21;
    OneReadsAsTen21();
    Shift10By21();
    Shift2By17(7_629_394_531_250_000);
    PointsUpTo(TEN_21, 1, 22);
    assert Closest(v, TEN_21, TEN_21, 21) == Some(x);
    assert WithDigits(v, TEN_21, 1, 1) == Some(x);
  }

  // Ten to the power of 21 is a double...
  lemma Ten21IsNumber()
    ensures IsNumber(Finite(false, "1", 22))
  {
    var x := Finite(false, "1", 22);
    assert DoubleOf(x.digits, x.point) == DOUBLE_TEN_21 by {
      NearestToTen21();
    }
    assert ShortestOf(DOUBLE_TEN_21) == Some(x) by {
      ShortestOfTen21();
    }
  }

  // ... and it is printed with an exponent.
  lemma Ten21Text()
    ensures NumberText(Finite(false, "1", 22)) == "1e+21"
  {
    assert NatToString(2) == "2";
    assert NatToString(21) == NatToString(2) + "1";
  }
}
