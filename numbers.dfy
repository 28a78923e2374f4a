/**
 * Exact decimal amounts (`java.math.BigDecimal`) and the helpers of numbers.kt:
 * `negativeOrZero`, `isZero`, `scaled`, `trim` and `string`.
 *
 * A `Decimal` keeps BigDecimal's representation (an unscaled integer and a
 * scale) because `trim` and `string` depend on it; every comparison the
 * exchange makes goes through `compareTo`, that is through `Value`.
 */
module Numbers {
  import opened Wrappers

  /** A `BigDecimal`: the number `unscaled × 10^(-scale)`. */
  datatype Decimal = Decimal(unscaled: int, scale: int)

  /** `BigDecimal.ZERO`: zero at scale 0. */
  const ZERO: Decimal := Decimal(0, 0)

  function Abs(n: int): nat {
    if n < 0 then -n else n
  }

  function Max(a: int, b: int): int {
    if a >= b then a else b
  }

  /** u with n zero digits appended: u × 10^n. */
  function Shift(u: int, n: nat): int {
    if n == 0 then u else Shift(u, n - 1) * 10
  }

  /** 10^n as a rational. */
  function Ten(n: nat): real {
    if n == 0 then 1.0 else 10.0 * Ten(n - 1)
  }

  lemma {:induction false} TenAtLeastOne(n: nat)
    ensures Ten(n) >= 1.0
  {
    if n > 0 {
      TenAtLeastOne(n - 1);
    }
  }

  lemma {:induction false} TenAdd(a: nat, b: nat, c: nat)
    requires a + b == c
    ensures Ten(c) == Ten(a) * Ten(b)
  {
    if a > 0 {
      TenAdd(a - 1, b, c - 1);
    }
  }

  lemma Regroup(x: real, y: real, z: real, p: real, q: real)
    requires p == x * y && q == y * z
    ensures p * z == x * q
  {
  }

  lemma CastProduct(x: int, y: int, z: int)
    requires z == x * y
    ensures z as real == x as real * y as real
  {
  }

  /** Appending n zeros to an integer multiplies it by 10^n. */
  lemma {:induction false} ShiftAsReal(u: int, n: nat)
    ensures Shift(u, n) as real == u as real * Ten(n)
  {
    if n > 0 {
      ShiftAsReal(u, n - 1);
      Regroup(u as real, Ten(n - 1), 10.0, Shift(u, n - 1) as real, Ten(n));
    }
  }

  /** 10^-n as a rational. */
  function InvTen(n: nat): real {
    if n == 0 then 1.0 else InvTen(n - 1) / 10.0
  }

  lemma TenthOfReciprocal(t: real, i: real)
    requires t >= 1.0 && i == 1.0 / t
    ensures i / 10.0 == 1.0 / (10.0 * t)
  {
  }

  lemma {:induction false} InvTenIsReciprocal(n: nat)
    ensures Ten(n) >= 1.0 && InvTen(n) == 1.0 / Ten(n)
  {
    TenAtLeastOne(n);
    if n > 0 {
      InvTenIsReciprocal(n - 1);
      TenthOfReciprocal(Ten(n - 1), InvTen(n - 1));
    }
  }

  /** 10^e as an exact rational, for any integer exponent. */
  function Exp10(e: int): real {
    if e >= 0 then Ten(e) else InvTen(-e)
  }

  lemma Exp10Negative(e: int)
    requires e < 0
    ensures Ten(-e) >= 1.0 && Exp10(e) == 1.0 / Ten(-e)
  {
    InvTenIsReciprocal(-e);
  }

  lemma Exp10Positive(e: int)
    ensures Exp10(e) > 0.0
  {
    if e >= 0 {
      TenAtLeastOne(e);
    } else {
      Exp10Negative(e);
    }
  }

  /** The number a decimal stands for. */
  function Value(d: Decimal): real {
    d.unscaled as real * Exp10(-d.scale)
  }

  lemma CancelDown(eab: real, ea: real, eb: real, pab: real, pb: real)
    requires pb != 0.0 && ea == pab * pb && eb == 1.0 / pb && eab == pab
    ensures eab == ea * eb
  {
  }

  lemma CancelUp(eab: real, ea: real, eb: real, pa: real, pba: real, pb: real)
    requires pa != 0.0 && pba != 0.0 && pb == pa * pba
    requires eab == 1.0 / pba && ea == pa && eb == 1.0 / pb
    ensures eab == ea * eb
  {
  }

  lemma InverseOfProduct(r: real, x: real, y: real, rx: real, ry: real)
    requires x != 0.0 && y != 0.0 && r == 1.0 / (x * y) && rx == 1.0 / x && ry == 1.0 / y
    ensures r == rx * ry
  {
  }

  lemma Exp10AddNegNeg(a: int, b: int, c: int)
    requires a < 0 && b < 0 && a + b == c
    ensures Exp10(c) == Exp10(a) * Exp10(b)
  {
    TenAdd(-a, -b, -c);
    Exp10Negative(a);
    Exp10Negative(b);
    Exp10Negative(c);
    InverseOfProduct(Exp10(c), Ten(-a), Ten(-b), Exp10(a), Exp10(b));
  }

  lemma Exp10AddPosPos(a: int, b: int, c: int)
    requires a >= 0 && b >= 0 && a + b == c
    ensures Exp10(c) == Exp10(a) * Exp10(b)
  {
    TenAdd(a, b, c);
  }

  lemma Exp10AddMixedDown(a: int, b: int, c: int)
    requires b < 0 <= c && a + b == c
    ensures Exp10(c) == Exp10(a) * Exp10(b)
  {
    TenAdd(c, -b, a);
    Exp10Negative(b);
    CancelDown(Exp10(c), Exp10(a), Exp10(b), Ten(c), Ten(-b));
  }

  lemma Exp10AddMixedUp(a: int, b: int, c: int)
    requires 0 <= a && c < 0 && a + b == c
    ensures Exp10(c) == Exp10(a) * Exp10(b)
  {
    TenAdd(a, -c, -b);
    TenAtLeastOne(a);
    Exp10Negative(c);
    Exp10Negative(b);
    CancelUp(Exp10(c), Exp10(a), Exp10(b), Ten(a), Ten(-c), Ten(-b));
  }

  /** Exponents add when powers of ten multiply. */
  lemma Exp10Add(a: int, b: int, c: int)
    requires a + b == c
    ensures Exp10(c) == Exp10(a) * Exp10(b)
  {
    if a >= 0 && b >= 0 {
      Exp10AddPosPos(a, b, c);
    } else if a < 0 && b < 0 {
      Exp10AddNegNeg(a, b, c);
    } else if b < 0 {
      if c >= 0 {
        Exp10AddMixedDown(a, b, c);
      } else {
        Exp10AddMixedUp(a, b, c);
      }
    } else {
      if c >= 0 {
        Exp10AddMixedDown(b, a, c);
      } else {
        Exp10AddMixedUp(b, a, c);
      }
    }
  }

  /** Appending k zeros to the unscaled value and raising the scale by k to t keeps the number. */
  lemma Exp10OfNat(k: nat)
    ensures Exp10(k) == Ten(k)
  {
  }

  /** Moving the exponent up by k multiplies by 10^k. */
  lemma Exp10Shift(e: int, k: nat, f: int)
    requires f == e + k
    ensures Exp10(f) == Ten(k) * Exp10(e)
  {
    Exp10Add(k, e, f);
    Exp10OfNat(k);
  }

  lemma ShiftTimesExp10(u: int, s: int, k: nat, t: int)
    requires t == s + k
    ensures Shift(u, k) as real * Exp10(-t) == u as real * Exp10(-s)
  {
    ShiftAsReal(u, k);
    Exp10Shift(-t, k, -s);
    Regroup(u as real, Ten(k), Exp10(-t), Shift(u, k) as real, Exp10(-s));
  }

  lemma Rescale(u: int, s: int, k: nat, t: int)
    requires t == s + k
    ensures Value(Decimal(Shift(u, k), t)) == Value(Decimal(u, s))
  {
    ShiftTimesExp10(u, s, k, t);
  }

  lemma Distribute(x: real, y: real, e: real, p: real, q: real, sum: real, diff: real)
    requires p == x * e && q == y * e && sum == x + y && diff == x - y
    ensures sum * e == p + q
    ensures diff * e == p - q
  {
  }

  /** At a common scale, values add and subtract with the unscaled integers. */
  lemma ValueAtScale(x: int, y: int, s: int)
    ensures Value(Decimal(x + y, s)) == Value(Decimal(x, s)) + Value(Decimal(y, s))
    ensures Value(Decimal(x - y, s)) == Value(Decimal(x, s)) - Value(Decimal(y, s))
  {
    Distribute(x as real, y as real, Exp10(-s), Value(Decimal(x, s)), Value(Decimal(y, s)), (x + y) as real, (x - y) as real);
  }

  /** Aligning both operands at scale s lets their unscaled values be added or subtracted. */
  lemma AlignedValues(a: Decimal, b: Decimal, s: int)
    requires a.scale <= s && b.scale <= s
    ensures Value(Decimal(Shift(a.unscaled, s - a.scale) + Shift(b.unscaled, s - b.scale), s)) == Value(a) + Value(b)
    ensures Value(Decimal(Shift(a.unscaled, s - a.scale) - Shift(b.unscaled, s - b.scale), s)) == Value(a) - Value(b)
  {
    Rescale(a.unscaled, a.scale, s - a.scale, s);
    Rescale(b.unscaled, b.scale, s - b.scale, s);
    ValueAtScale(Shift(a.unscaled, s - a.scale), Shift(b.unscaled, s - b.scale), s);
  }

  /** `BigDecimal.add`: exact, at the larger of the two scales. */
  function Add(a: Decimal, b: Decimal): (r: Decimal)
    ensures r.scale == Max(a.scale, b.scale)
    ensures Value(r) == Value(a) + Value(b)
  {
    var s := Max(a.scale, b.scale);
    AlignedValues(a, b, s);
    Decimal(Shift(a.unscaled, s - a.scale) + Shift(b.unscaled, s - b.scale), s)
  }

  /** `BigDecimal.subtract`: exact, at the larger of the two scales. */
  function Sub(a: Decimal, b: Decimal): (r: Decimal)
    ensures r.scale == Max(a.scale, b.scale)
    ensures Value(r) == Value(a) - Value(b)
  {
    var s := Max(a.scale, b.scale);
    AlignedValues(a, b, s);
    Decimal(Shift(a.unscaled, s - a.scale) - Shift(b.unscaled, s - b.scale), s)
  }

  lemma Interleave(x: real, y: real, e: real, f: real, p: real, q: real, g: real)
    requires g == e * f
    ensures (x * y) * g == (x * e) * (y * f)
  {
  }

  /** `BigDecimal.multiply`: exact, at the sum of the two scales. */
  lemma MulValue(a: Decimal, b: Decimal)
    ensures Value(Decimal(a.unscaled * b.unscaled, a.scale + b.scale)) == Value(a) * Value(b)
  {
    var s := a.scale + b.scale;
    var x, y := a.unscaled as real, b.unscaled as real;
    var ea, eb, es := Exp10(-a.scale), Exp10(-b.scale), Exp10(-s);
    Exp10Add(-a.scale, -b.scale, -s);
    CastProduct(a.unscaled, b.unscaled, a.unscaled * b.unscaled);
    Interleave(x, y, ea, eb, 0.0, 0.0, es);
    assert Value(Decimal(a.unscaled * b.unscaled, s)) == (x * y) * es;
  }

  function Mul(a: Decimal, b: Decimal): (r: Decimal)
    ensures r.scale == a.scale + b.scale
    ensures Value(r) == Value(a) * Value(b)
  {
    MulValue(a, b);
    Decimal(a.unscaled * b.unscaled, a.scale + b.scale)
  }


  /** Kotlin's `minOf` on comparables: the first argument unless the second is strictly smaller. */
  function Min(a: Decimal, b: Decimal): (r: Decimal)
    ensures r == a || r == b
    ensures Value(r) <= Value(a) && Value(r) <= Value(b)
    ensures Value(a) <= Value(b) ==> r == a
  {
    if Value(a) <= Value(b) then a else b
  }

  /** `negativeOrZero`: a missing amount counts as zero. */
  function NegativeOrZero(d: Option<Decimal>): (r: bool)
    ensures r <==> d.None? || Value(d.value) <= 0.0
  {
    Value(d.GetOr(ZERO)) <= 0.0
  }

  /** 10^18 as an exact rational. */
  const E18: real := 1000000000000000000.0

  /** Half a unit in the eighteenth decimal place: 5 × 10^-19. */
  const HALF_ULP: real := 0.0000000000000000005

  lemma TenTo18()
    ensures Ten(18) == E18
  {
    assert Ten(1) == 10.0;
    assert Ten(2) == 100.0;
    assert Ten(3) == 1000.0;
    assert Ten(4) == 10000.0;
    assert Ten(5) == 100000.0;
    assert Ten(6) == 1000000.0;
    TenAdd(6, 6, 12);
    TenAdd(12, 6, 18);
  }

  /** A decimal at scale 18 counts units of 10^-18. */
  lemma Scale18Value(n: int)
    ensures Value(Decimal(n, 18)) == n as real / E18
  {
    TenTo18();
    Exp10Negative(-18);
  }

  /** HALF_UP rounding of x to a whole number of 10^-18 units: ties go away from zero. */
  function RoundHalfUp18(x: real): int {
    if x >= 0.0 then (x * E18 + 0.5).Floor else -((-x) * E18 + 0.5).Floor
  }

  lemma RoundHalfUp18Bound(x: real)
    ensures -HALF_ULP <= RoundHalfUp18(x) as real / E18 - x <= HALF_ULP
    ensures x >= 0.0 ==> -HALF_ULP < RoundHalfUp18(x) as real / E18 - x
    ensures x < 0.0 ==> RoundHalfUp18(x) as real / E18 - x < HALF_ULP
  {
  }

  /** `scaled`: HALF_UP rounding to 18 fractional digits; the result has scale 18. */
  function Scaled(d: Decimal): (r: Decimal)
    ensures r.scale == 18
    ensures -HALF_ULP <= Value(r) - Value(d) <= HALF_ULP
    ensures Value(d) >= 0.0 ==> -HALF_ULP < Value(r) - Value(d)
    ensures Value(d) < 0.0 ==> Value(r) - Value(d) < HALF_ULP
  {
    var n := RoundHalfUp18(Value(d));
    Scale18Value(n);
    RoundHalfUp18Bound(Value(d));
    Decimal(n, 18)
  }

  lemma RoundHalfUp18Monotone(x: real, y: real)
    requires x <= y
    ensures RoundHalfUp18(x) <= RoundHalfUp18(y)
  {
  }

  /** Rounding keeps the order of amounts. */
  lemma ScaledMonotone(a: Decimal, b: Decimal)
    requires Value(a) <= Value(b)
    ensures Value(Scaled(a)) <= Value(Scaled(b))
  {
    RoundHalfUp18Monotone(Value(a), Value(b));
    Scale18Value(RoundHalfUp18(Value(a)));
    Scale18Value(RoundHalfUp18(Value(b)));
  }

  lemma RoundHalfUp18OfUnits(n: int)
    ensures RoundHalfUp18(n as real / E18) == n
  {
  }

  lemma RoundHalfUp18PositiveIff(x: real)
    ensures RoundHalfUp18(x) > 0 <==> x >= HALF_ULP
  {
  }

  /** An amount rounds to something positive exactly when it is at least half a unit of 10^-18. */
  lemma ScaledPositive(d: Decimal)
    ensures Value(Scaled(d)) > 0.0 <==> Value(d) >= HALF_ULP
  {
    var n := RoundHalfUp18(Value(d));
    Scale18Value(n);
    RoundHalfUp18PositiveIff(Value(d));
  }

  /** Zero rounds to zero. */
  lemma ZeroScaledIsZero()
    ensures Value(Scaled(ZERO)) == 0.0
  {
    ScaledOfTiny(ZERO);
    Scale18Value(0);
  }

  /** Rounding an already rounded amount changes nothing. */
  lemma ScaledIdempotent(d: Decimal)
    ensures Scaled(Scaled(d)) == Scaled(d)
  {
    var n := RoundHalfUp18(Value(d));
    Scale18Value(n);
    RoundHalfUp18OfUnits(n);
  }

  /** An amount with at most 18 fractional digits is not moved by rounding. */
  lemma ScaledExact(d: Decimal)
    requires d.scale <= 18
    ensures Value(Scaled(d)) == Value(d)
  {
    var m := Shift(d.unscaled, 18 - d.scale);
    Rescale(d.unscaled, d.scale, 18 - d.scale, 18);
    Scale18Value(m);
    RoundHalfUp18OfUnits(m);
    Scale18Value(RoundHalfUp18(Value(d)));
  }

  lemma RoundHalfUp18ZeroIff(x: real)
    ensures RoundHalfUp18(x) == 0 <==> -HALF_ULP < x < HALF_ULP
  {
  }

  /** A decimal at scale 19 counts units of 10^-19. */
  lemma Scale19Value(n: int)
    ensures Value(Decimal(n, 19)) == n as real / 10000000000000000000.0
  {
    TenTo18();
    TenAdd(18, 1, 19);
    Exp10Negative(-19);
    assert Exp10(-19) == 1.0 / 10000000000000000000.0;
  }

  /** A decimal at scale 20 counts units of 10^-20. */
  lemma Scale20Value(n: int)
    ensures Value(Decimal(n, 20)) == n as real / 100000000000000000000.0
  {
    TenTo18();
    TenAdd(18, 2, 20);
    assert Ten(2) == 100.0;
    Exp10Negative(-20);
    assert Exp10(-20) == 1.0 / 100000000000000000000.0;
  }

  /** Anything strictly within half a unit of zero rounds to zero. */
  lemma ScaledOfTiny(d: Decimal)
    requires -HALF_ULP < Value(d) < HALF_ULP
    ensures Scaled(d) == Decimal(0, 18)
  {
    RoundHalfUp18ZeroIff(Value(d));
  }

  /** At a tie HALF_UP goes away from zero: ±2.5·10^-18 rounds to ±3·10^-18, not ±2·10^-18. */
  lemma ScaledTiesAwayFromZero()
    ensures Scaled(Decimal(25, 19)) == Decimal(3, 18)
    ensures Scaled(Decimal(-25, 19)) == Decimal(-3, 18)
  {
    Scale19Value(25);
    Scale19Value(-25);
    assert RoundHalfUp18(25.0 / 10000000000000000000.0) == 3;
    assert RoundHalfUp18(-25.0 / 10000000000000000000.0) == -3;
  }

  /** `isZero`: the amount rounds to zero at 18 fractional digits. */
  function IsZero(d: Decimal): (z: bool)
    ensures z <==> -HALF_ULP < Value(d) < HALF_ULP
  {
    RoundHalfUp18ZeroIff(Value(d));
    assert Scaled(ZERO) == Decimal(0, 18);
    Scaled(d) == Scaled(ZERO)
  }

  /** The canonical representation: no trailing zero in the unscaled value, and zero as `ZERO`. */
  predicate Stripped(d: Decimal) {
    if d.unscaled == 0 then d == ZERO else d.unscaled % 10 != 0
  }

  /** `trim`, i.e. `stripTrailingZeros`: the same number in canonical form. */
  function Trim(d: Decimal): (r: Decimal)
    ensures Value(r) == Value(d)
    ensures Stripped(r)
    decreases Abs(d.unscaled)
  {
    if d.unscaled == 0 then
      ZERO
    else if d.unscaled % 10 == 0 then
      var q := d.unscaled / 10;
      assert d.unscaled == Shift(q, 1);
      Rescale(q, d.scale - 1, 1, d.scale);
      Trim(Decimal(q, d.scale - 1))
    else
      d
  }

  /** Trimming a trimmed amount changes nothing. */
  lemma TrimIdempotent(d: Decimal)
    ensures Trim(Trim(d)) == Trim(d)
  {
  }

  lemma RealCancel(x: real, y: real, e: real)
    requires e > 0.0 && x * e == y * e
    ensures x == y
  {
    assert (x - y) * e == 0.0;
  }

  lemma CancelThrough(x: real, y: real, p: real, e: real)
    requires e > 0.0 && x * e == p && p == y * e
    ensures x == y
  {
    RealCancel(x, y, e);
  }

  /** Two values at scales `s <= t` agree exactly when the first, widened by `t - s` places, equals the second. */
  lemma SameValueWidened(u: int, s: int, v: int, t: int)
    requires s <= t && u as real * Exp10(-s) == v as real * Exp10(-t)
    ensures Shift(u, t - s) == v
  {
    ShiftTimesExp10(u, s, t - s, t);
    Exp10Positive(-t);
    CancelThrough(Shift(u, t - s) as real, v as real, u as real * Exp10(-s), Exp10(-t));
  }

  /** A widened number ends in zero. */
  lemma WidenedEndsInZero(u: int, k: nat)
    ensures k == 0 || Shift(u, k) % 10 == 0
  {
    if k > 0 {
      var p := Shift(u, k - 1);
      assert Shift(u, k) == p * 10;
    }
  }

  lemma StrippedUniqueOrdered(a: Decimal, b: Decimal)
    requires Stripped(a) && Stripped(b) && a.unscaled != 0 && b.unscaled != 0
    requires a.scale <= b.scale && Value(a) == Value(b)
    ensures a == b
  {
    SameValueWidened(a.unscaled, a.scale, b.unscaled, b.scale);
    WidenedEndsInZero(a.unscaled, b.scale - a.scale);
  }

  /** Two canonical decimals with the same value are the same decimal. */
  lemma StrippedUnique(a: Decimal, b: Decimal)
    requires Stripped(a) && Stripped(b) && Value(a) == Value(b)
    ensures a == b
  {
    if a.unscaled == 0 || b.unscaled == 0 {
      Exp10Positive(-a.scale);
      Exp10Positive(-b.scale);
      if a.unscaled != 0 {
        RealCancel(a.unscaled as real, 0.0, Exp10(-a.scale));
      } else if b.unscaled != 0 {
        RealCancel(b.unscaled as real, 0.0, Exp10(-b.scale));
      }
    } else if a.scale <= b.scale {
      StrippedUniqueOrdered(a, b);
    } else {
      StrippedUniqueOrdered(b, a);
    }
  }

  /** `trim` depends only on the number: equal amounts trim to the same representation. */
  lemma TrimCanonical(a: Decimal, b: Decimal)
    requires Value(a) == Value(b)
    ensures Trim(a) == Trim(b)
  {
    StrippedUnique(Trim(a), Trim(b));
  }

  predicate IsDigit(c: char) {
    '0' <= c <= '9'
  }

  predicate IsDigits(s: string) {
    forall i {:trigger IsDigit(s[i])} :: 0 <= i < |s| ==> IsDigit(s[i])
  }

  function DigitChar(d: nat): (c: char)
    requires d < 10
    ensures IsDigit(c)
  {
    (48 + d) as char
  }

  function DigitValue(c: char): (d: nat)
    requires IsDigit(c)
    ensures d < 10
  {
    c as int - 48
  }

  /** The decimal digits of n, most significant first, without leading zeros. */
  function NatDigits(n: nat): (s: string)
    ensures |s| >= 1 && IsDigits(s)
    ensures s[|s| - 1] == DigitChar(n % 10)
  {
    if n < 10 then [DigitChar(n)] else NatDigits(n / 10) + [DigitChar(n % 10)]
  }

  function Zeros(k: nat): (s: string)
    ensures |s| == k && IsDigits(s)
  {
    if k == 0 then "" else Zeros(k - 1) + "0"
  }

  function SignText(negative: bool): string {
    if negative then "-" else ""
  }

  function Signed(negative: bool, n: int): int {
    if negative then -n else n
  }

  /**
   * The unsigned part of `toPlainString`, from the digits of the unscaled value's
   * magnitude: zeros appended for a negative scale, a point inserted inside the
   * digits, or "0." and leading zeros when the number is below one.
   */
  function UnsignedText(digits: string, scale: int, zero: bool): string
    requires |digits| > 0
  {
    if scale <= 0 then
      if zero then digits else digits + Zeros(-scale)
    else if |digits| > scale then
      digits[..|digits| - scale] + "." + digits[|digits| - scale..]
    else
      "0" + "." + (Zeros(scale - |digits|) + digits)
  }

  /** `BigDecimal.toPlainString`: the number written out without an exponent. */
  function PlainString(d: Decimal): string {
    SignText(d.unscaled < 0) + UnsignedText(NatDigits(Abs(d.unscaled)), d.scale, d.unscaled == 0)
  }

  lemma DigitsHaveNoPoint(s: string)
    requires IsDigits(s)
    ensures '.' !in s
  {
    forall i | 0 <= i < |s|
      ensures s[i] != '.'
    {
      assert IsDigit(s[i]);
    }
  }

  lemma DigitsConcat(a: string, b: string)
    requires IsDigits(a) && IsDigits(b)
    ensures IsDigits(a + b)
  {
    forall i | 0 <= i < |a + b|
      ensures IsDigit((a + b)[i])
    {
      if i < |a| {
        assert IsDigit(a[i]);
      } else {
        assert IsDigit(b[i - |a|]);
      }
    }
  }

  lemma DigitsSlice(s: string, i: nat, j: nat)
    requires IsDigits(s) && i <= j <= |s|
    ensures IsDigits(s[i..j])
  {
    forall x | 0 <= x < j - i
      ensures IsDigit(s[i..j][x])
    {
      assert s[i..j][x] == s[i + x];
      assert IsDigit(s[i + x]);
    }
  }

  /** A plain numeral has a point only for a positive scale, and then ends in the last digit. */
  lemma PlainStringPoint(d: Decimal)
    ensures '.' in PlainString(d) ==> d.scale > 0
    ensures d.scale > 0 ==> PlainString(d)[|PlainString(d)| - 1] == DigitChar(Abs(d.unscaled) % 10)
  {
    var digits := NatDigits(Abs(d.unscaled));
    var sign := SignText(d.unscaled < 0);
    var text := UnsignedText(digits, d.scale, d.unscaled == 0);
    assert PlainString(d) == sign + text;
    assert '.' !in sign;
    if d.scale <= 0 {
      var z: int := -d.scale;
      DigitsConcat(digits, Zeros(z));
      DigitsHaveNoPoint(digits + Zeros(z));
      DigitsHaveNoPoint(digits);
      assert '.' !in text;
    } else {
      assert text[|text| - 1] == digits[|digits| - 1];
    }
  }

  /** `string` of numbers.kt: strip trailing zeros, then write the number out plainly. */
  function AmountString(d: Decimal): (s: string)
    ensures '.' in s ==> s[|s| - 1] != '0'
  {
    var t := Trim(d);
    assert t.unscaled != 0 ==> Abs(t.unscaled) % 10 != 0;
    PlainStringPoint(t);
    PlainString(t)
  }

  /** The value of a digit string, read most significant digit first. */
  function ParseDigits(s: string): nat
    requires IsDigits(s)
  {
    if s == [] then 0 else ParseDigits(s[..|s| - 1]) * 10 + DigitValue(s[|s| - 1])
  }

  /** The position of the first '.', or |s| when there is none. */
  function PointIndex(s: string): (k: nat)
    ensures k <= |s|
    ensures k < |s| ==> s[k] == '.'
  {
    if s == [] then 0 else if s[0] == '.' then 0 else 1 + PointIndex(s[1..])
  }

  /** Reads a plain numeral back: an optional '-', digits, and optionally '.' followed by digits. */
  function ParsePlain(s: string): Option<Decimal> {
    if |s| > 0 && s[0] == '-' then Negated(ParseUnsigned(s[1..])) else ParseUnsigned(s)
  }

  /** Reads digits, optionally split by one '.', as a non-negative decimal. */
  function ParseUnsigned(body: string): Option<Decimal> {
    var k := PointIndex(body);
    var digits := if k == |body| then body else body[..k] + body[k + 1..];
    if |digits| == 0 || !IsDigits(digits) then
      None
    else
      Some(Decimal(ParseDigits(digits), if k == |body| then 0 else |body| - k - 1))
  }

  function Negated(d: Option<Decimal>): Option<Decimal> {
    match d
    case None => None
    case Some(v) => Some(Decimal(-v.unscaled, v.scale))
  }

  lemma {:induction false} ParseDigitsAppend(a: string, b: string)
    requires IsDigits(a) && IsDigits(b)
    ensures IsDigits(a + b)
    ensures ParseDigits(a + b) == Shift(ParseDigits(a), |b|) + ParseDigits(b)
    decreases |b|
  {
    if b != [] {
      var b' := b[..|b| - 1];
      assert (a + b)[..|a + b| - 1] == a + b';
      ParseDigitsAppend(a, b');
    } else {
      assert a + b == a;
    }
  }

  lemma {:induction false} ParseNatDigits(n: nat)
    ensures ParseDigits(NatDigits(n)) == n
  {
    if n >= 10 {
      ParseNatDigits(n / 10);
      var s := NatDigits(n);
      assert s[..|s| - 1] == NatDigits(n / 10);
    }
  }

  lemma {:induction false} ParseZeros(k: nat)
    ensures ParseDigits(Zeros(k)) == 0
  {
    if k > 0 {
      assert Zeros(k)[..k - 1] == Zeros(k - 1);
      ParseZeros(k - 1);
    }
  }

  lemma {:induction false} ShiftZero(k: nat)
    ensures Shift(0, k) == 0
  {
    if k > 0 {
      ShiftZero(k - 1);
    }
  }

  lemma {:induction false} ShiftSigned(u: int, k: nat)
    ensures Shift(u, k) == Signed(u < 0, Shift(Abs(u), k))
  {
    if k > 0 {
      ShiftSigned(u, k - 1);
    }
  }

  lemma {:induction false} PointIndexOfDigits(s: string)
    requires IsDigits(s)
    ensures PointIndex(s) == |s|
  {
    if s != [] {
      assert IsDigit(s[0]);
      PointIndexOfDigits(s[1..]);
    }
  }

  lemma {:induction false} PointIndexAfterDigits(a: string, b: string)
    requires IsDigits(a)
    ensures PointIndex(a + "." + b) == |a|
  {
    var s := a + "." + b;
    if a != [] {
      assert IsDigit(a[0]) && s[0] == a[0];
      assert s[1..] == a[1..] + "." + b;
      PointIndexAfterDigits(a[1..], b);
    }
  }

  /** A sign in front of an unsigned numeral negates what it reads as. */
  lemma ParseSigned(negative: bool, t: string, u: Decimal, s: string)
    requires |t| > 0 && t[0] != '-' && s == SignText(negative) + t
    requires ParseUnsigned(t) == Some(u)
    ensures ParsePlain(s) == Some(Decimal(Signed(negative, u.unscaled), u.scale))
  {
    if negative {
      assert s[0] == '-' && s[1..] == t;
    } else {
      assert s == t;
    }
  }

  lemma ParseUnsignedWhole(w: string)
    requires IsDigits(w) && |w| > 0
    ensures ParseUnsigned(w) == Some(Decimal(ParseDigits(w), 0))
  {
    PointIndexOfDigits(w);
  }

  lemma ParseUnsignedPointed(a: string, b: string, body: string)
    requires IsDigits(a) && IsDigits(b) && |a| > 0 && body == a + "." + b
    ensures ParseUnsigned(body) == Some(Decimal(ParseDigits(a + b), |b|))
  {
    PointIndexAfterDigits(a, b);
    assert body[..|a|] + body[|a| + 1..] == a + b;
    ParseDigitsAppend(a, b);
  }

  lemma ParseZeroPadded(z: string, k: nat, digits: string)
    requires z == "0" && IsDigits(digits)
    ensures IsDigits(z + (Zeros(k) + digits))
    ensures ParseDigits(z + (Zeros(k) + digits)) == ParseDigits(digits)
  {
    var zeros := Zeros(k);
    ParseDigitsAppend(zeros, digits);
    ParseZeros(k);
    ShiftZero(|digits|);
    assert ParseDigits(z) == ParseDigits([]) * 10 + DigitValue('0');
    ParseDigitsAppend(z, zeros + digits);
    ShiftZero(|zeros + digits|);
  }

  /** Digits written at a scale that is not positive read back as a whole number. */
  lemma UnsignedTextWhole(digits: string, n: nat, scale: int)
    requires |digits| > 0 && IsDigits(digits) && ParseDigits(digits) == n && scale <= 0
    ensures ParseUnsigned(UnsignedText(digits, scale, n == 0)) == Some(Decimal(Shift(n, -scale), 0))
  {
    var k: nat := -scale;
    if n == 0 {
      assert Shift(n, k) == 0 by {
        ShiftZero(k);
      }
      ParseUnsignedWhole(digits);
    } else {
      var w := digits + Zeros(k);
      assert UnsignedText(digits, scale, false) == w;
      assert IsDigits(w) && ParseDigits(w) == Shift(n, k) by {
        ParseDigitsAppend(digits, Zeros(k));
        ParseZeros(k);
      }
      ParseUnsignedWhole(w);
    }
  }

  /** With more digits than the scale, the point falls inside the digits. */
  lemma UnsignedTextLong(digits: string, n: nat, scale: int)
    requires IsDigits(digits) && ParseDigits(digits) == n && 0 < scale < |digits|
    ensures ParseUnsigned(UnsignedText(digits, scale, n == 0)) == Some(Decimal(n, scale))
  {
    var a, b := digits[..|digits| - scale], digits[|digits| - scale..];
    var t := UnsignedText(digits, scale, n == 0);
    assert t == a + "." + b;
    assert a + b == digits;
    DigitsSlice(digits, 0, |digits| - scale);
    DigitsSlice(digits, |digits| - scale, |digits|);
    ParseUnsignedPointed(a, b, t);
  }

  /** Otherwise the number is below one and is written "0." followed by zeros and the digits. */
  lemma UnsignedTextShort(digits: string, n: nat, scale: int)
    requires |digits| > 0 && IsDigits(digits) && ParseDigits(digits) == n && 0 < scale && |digits| <= scale
    ensures ParseUnsigned(UnsignedText(digits, scale, n == 0)) == Some(Decimal(n, scale))
  {
    var k: nat := scale - |digits|;
    var z, b := "0", Zeros(k) + digits;
    var t := UnsignedText(digits, scale, n == 0);
    assert t == z + "." + b;
    assert |b| == scale;
    assert IsDigits(z + b) && ParseDigits(z + b) == n by {
      ParseZeroPadded(z, k, digits);
    }
    assert IsDigits(z) && IsDigits(b) by {
      DigitsConcat(Zeros(k), digits);
      assert IsDigit(z[0]);
    }
    ParseUnsignedPointed(z, b, t);
  }

  /** The unsigned text never starts with a sign and is never empty. */
  lemma UnsignedTextShape(digits: string, scale: int, zero: bool)
    requires |digits| > 0 && IsDigits(digits)
    ensures |UnsignedText(digits, scale, zero)| > 0
    ensures UnsignedText(digits, scale, zero)[0] != '-'
  {
    var t := UnsignedText(digits, scale, zero);
    assert IsDigit(digits[0]);
    if scale <= 0 {
      assert t[0] == digits[0];
    } else if |digits| > scale {
      assert t[0] == digits[0];
    } else {
      assert t[0] == '0';
    }
  }

  /** The unsigned text of n at any scale reads back as n at that scale (scale 0 when it was negative). */
  lemma UnsignedTextRoundTrip(n: nat, scale: int)
    ensures |UnsignedText(NatDigits(n), scale, n == 0)| > 0
    ensures UnsignedText(NatDigits(n), scale, n == 0)[0] != '-'
    ensures ParseUnsigned(UnsignedText(NatDigits(n), scale, n == 0))
         == Some(if scale <= 0 then Decimal(Shift(n, -scale), 0) else Decimal(n, scale))
  {
    var digits := NatDigits(n);
    ParseNatDigits(n);
    UnsignedTextShape(digits, scale, n == 0);
    if scale <= 0 {
      UnsignedTextWhole(digits, n, scale);
    } else if |digits| > scale {
      UnsignedTextLong(digits, n, scale);
    } else {
      UnsignedTextShort(digits, n, scale);
    }
  }

  /** `toPlainString` reads back to the same number, and to the same decimal when the scale is not negative. */
  lemma PlainStringRoundTrip(d: Decimal)
    ensures ParsePlain(PlainString(d)).Some?
    ensures Value(ParsePlain(PlainString(d)).value) == Value(d)
    ensures d.scale >= 0 ==> ParsePlain(PlainString(d)) == Some(d)
  {
    var n := Abs(d.unscaled);
    var t := UnsignedText(NatDigits(n), d.scale, n == 0);
    var u := if d.scale <= 0 then Decimal(Shift(n, -d.scale), 0) else Decimal(n, d.scale);
    var r := Decimal(Signed(d.unscaled < 0, u.unscaled), u.scale);
    assert ParsePlain(PlainString(d)) == Some(r) by {
      UnsignedTextRoundTrip(n, d.scale);
      ParseSigned(d.unscaled < 0, t, u, PlainString(d));
    }
    if d.scale <= 0 {
      ShiftSigned(d.unscaled, -d.scale);
      Rescale(d.unscaled, d.scale, -d.scale, 0);
    } else {
      assert r == d;
    }
  }

  /** The text `string` gives reads back to the same number. */
  lemma AmountStringRoundTrip(d: Decimal)
    ensures ParsePlain(AmountString(d)).Some?
    ensures Value(ParsePlain(AmountString(d)).value) == Value(d)
  {
    PlainStringRoundTrip(Trim(d));
  }

  /** Equal amounts print alike, whatever their scales. */
  lemma AmountStringDependsOnValue(a: Decimal, b: Decimal)
    requires Value(a) == Value(b)
    ensures AmountString(a) == AmountString(b)
  {
    TrimCanonical(a, b);
  }

  /** Whole amounts print with no fraction and no exponent: 10 as "10", whatever its scale. */
  lemma AmountStringOfTen()
    ensures AmountString(Decimal(10, 0)) == "10"
    ensures AmountString(Decimal(10000, 3)) == "10"
  {
    assert Trim(Decimal(10, 0)) == Decimal(1, -1);
    assert Trim(Decimal(10000, 3)) == Decimal(1, -1);
    assert NatDigits(1) == "1";
    assert Zeros(1) == "0";
  }

  /** Fractions keep their significant digits only: -1.250 prints as "-1.25", 0.005 as "0.005". */
  lemma AmountStringOfFractions()
    ensures AmountString(Decimal(-1250, 3)) == "-1.25"
    ensures AmountString(Decimal(5, 3)) == "0.005"
  {
    AmountStringOfNegativeFraction();
    AmountStringOfSmallFraction();
  }

  lemma TrimOfNegativeFraction()
    ensures Trim(Decimal(-1250, 3)) == Decimal(-125, 2)
  {
    assert Trim(Decimal(-125, 2)) == Decimal(-125, 2);
  }

  lemma DigitsOf125()
    ensures NatDigits(125) == "125"
  {
    assert NatDigits(12) == "12";
  }

  lemma AmountStringOfNegativeFraction()
    ensures AmountString(Decimal(-1250, 3)) == "-1.25"
  {
    TrimOfNegativeFraction();
    DigitsOf125();
    var digits := NatDigits(125);
    var u := UnsignedText(digits, 2, false);
    assert u == "1.25" by {
      assert u == digits[..1] + "." + digits[1..];
    }
    assert PlainString(Decimal(-125, 2)) == "-" + u;
  }

  lemma AmountStringOfSmallFraction()
    ensures AmountString(Decimal(5, 3)) == "0.005"
  {
    assert Trim(Decimal(5, 3)) == Decimal(5, 3);
    var digits := NatDigits(5);
    assert digits == "5";
    assert Zeros(2) == "00";
    assert UnsignedText(digits, 3, false) == "0.005";
  }
}
