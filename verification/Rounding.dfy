/** Rounding of the gas figures that a hint discloses. */
module Rounding {

  function Pow10(k: nat): (p: nat)
    ensures p >= 1
  {
    if k == 0 then 1 else 10 * Pow10(k - 1)
  }

  /** Number of decimal digits of a natural number; zero has one digit. */
  function Digits(n: nat): (d: nat)
    ensures d >= 1
  {
    if n < 10 then 1 else 1 + Digits(n / 10)
  }

  const DIGIT_CHARS: string := "0123456789"

  function DecimalNat(n: nat): (s: string)
    ensures |s| == Digits(n)
  {
    if n < 10 then [DIGIT_CHARS[n]] else DecimalNat(n / 10) + [DIGIT_CHARS[n % 10]]
  }

  /** The decimal notation of an integer, with a leading minus sign when negative. */
  function DecimalString(n: int): (s: string)
    ensures |s| == if n < 0 then 1 + Digits(-n) else Digits(n)
  {
    if n < 0 then "-" + DecimalNat(-n) else DecimalNat(n)
  }

  /** The least multiple of `unit` that is not below `n`. */
  ghost predicate IsLeastMultipleFrom(r: int, n: int, unit: nat)
    requires unit > 0
  {
    && r % unit == 0
    && n <= r
    && forall m :: n <= m && m % unit == 0 ==> r <= m
  }

  /** What rounding up to `precision` digits yields, in closed form. */
  function RoundedUp(n: int, precision: int): int {
    var len := |DecimalString(n)|;
    if len <= precision then n
    else
      var unit := Pow10(len - precision);
      CeilDiv(n, unit) * unit
  }

  function CeilDiv(n: int, unit: nat): int
    requires unit > 0
  {
    if n % unit == 0 then n / unit else n / unit + 1
  }

  /** Every integer and every precision are handled; the call in the node uses precisions 2 and 3. */
  method RoundUpWithPrecision(number: int, precisionDigits: int) returns (result: int)
    ensures |DecimalString(number)| <= precisionDigits ==> result == number
    ensures |DecimalString(number)| > precisionDigits ==>
              IsLeastMultipleFrom(result, number, Pow10(|DecimalString(number)| - precisionDigits))
    ensures result == RoundedUp(number, precisionDigits)
  {
    var numDigits := |DecimalString(number)|;
    if numDigits <= precisionDigits {
      return number;
    }
    var power := Pow10(numDigits - precisionDigits);
    var div := number / power;
    MultipleIffExact(number, power);
    if div * power != number {
      div := div + 1;
    }
    result := div * power;
    CeilIsLeastMultiple(number, power);
  }

  lemma MultipleIffExact(n: int, unit: nat)
    requires unit > 0
    ensures n / unit * unit == n <==> n % unit == 0
  {
    assert n == n / unit * unit + n % unit;
  }

  // Multiplication by a positive unit, one fact at a time

  lemma MulMonotone(a: int, b: int, unit: nat)
    requires a <= b
    ensures a * unit <= b * unit
  {
    assert 0 <= (b - a) * unit;
  }

  lemma MulSub(a: int, b: int, unit: nat)
    ensures (a - b) * unit == a * unit - b * unit
  {
  }

  lemma QuotientUnique(x: int, unit: nat, q: int, r: int)
    requires unit > 0 && x == q * unit + r && 0 <= r < unit
    ensures x / unit == q && x % unit == r
  {
    var q', r' := x / unit, x % unit;
    assert x == q' * unit + r';
    if q > q' {
      MulSub(q, q', unit);
      MulMonotone(1, q - q', unit);
    } else if q < q' {
      MulSub(q', q, unit);
      MulMonotone(1, q' - q, unit);
    }
  }

  lemma MulMod(q: int, unit: nat)
    requires unit > 0
    ensures (q * unit) % unit == 0
  {
    QuotientUnique(q * unit, unit, q, 0);
  }

  lemma CeilIsLeastMultiple(n: int, unit: nat)
    requires unit > 0
    ensures IsLeastMultipleFrom(CeilDiv(n, unit) * unit, n, unit)
    ensures CeilDiv(n, unit) * unit - n < unit
  {
    var c := CeilDiv(n, unit);
    assert n == n / unit * unit + n % unit;
    assert c * unit == n / unit * unit + if n % unit == 0 then 0 else unit;
    MulMod(c, unit);
    forall m | n <= m && m % unit == 0
      ensures c * unit <= m
    {
      var q := m / unit;
      assert m == q * unit;
      if q < c {
        MulMonotone(q, c - 1, unit);
        MulSub(c, 1, unit);
      } else {
        MulMonotone(c, q, unit);
      }
    }
  }

  // Powers of ten and digit counts

  lemma {:induction false} Pow10Add(a: nat, b: nat)
    ensures Pow10(a + b) == Pow10(a) * Pow10(b)
  {
    if a > 0 {
      Pow10Add(a - 1, b);
      assert Pow10(a + b) == 10 * (Pow10(a - 1) * Pow10(b)) == Pow10(a) * Pow10(b);
    }
  }

  lemma Pow10Monotone(a: nat, b: nat)
    requires a <= b
    ensures Pow10(a) <= Pow10(b)
  {
  }

  /** A number has `d` digits exactly when it lies between consecutive powers of ten. */
  lemma {:induction false} DigitsBound(n: nat)
    ensures n < Pow10(Digits(n))
    ensures n > 0 ==> Pow10(Digits(n) - 1) <= n
  {
    if n >= 10 {
      DigitsBound(n / 10);
    } else {
      assert Pow10(1) == 10;
    }
  }

  lemma {:induction false} DigitsOf(n: nat, d: nat)
    requires d >= 1 && n < Pow10(d) && (d == 1 || Pow10(d - 1) <= n)
    ensures Digits(n) == d
  {
    if d == 1 {
      assert Pow10(1) == 10 * Pow10(0);
    } else {
      assert Pow10(d - 1) >= 10 * Pow10(0) by { Pow10Monotone(1, d - 1); assert Pow10(1) == 10; }
      DigitsOf(n / 10, d - 1);
    }
  }

  lemma {:induction false} DigitsMonotone(a: nat, b: nat)
    requires a <= b
    ensures Digits(a) <= Digits(b)
  {
    if b >= 10 {
      DigitsMonotone(a / 10, b / 10);
    }
  }

  // The laws that rounding obeys on natural numbers

  lemma CeilBounds(n: int, unit: nat)
    requires unit > 0
    ensures n <= CeilDiv(n, unit) * unit < n + unit
  {
    CeilIsLeastMultiple(n, unit);
  }

  lemma CeilBelowMultiple(n: int, unit: nat, q: int)
    requires unit > 0 && n <= q * unit
    ensures CeilDiv(n, unit) * unit <= q * unit
  {
    CeilIsLeastMultiple(n, unit);
    MulMod(q, unit);
  }

  lemma RoundedUpIsCeil(n: nat, p: int)
    ensures RoundedUp(n, p) ==
            if Digits(n) <= p then n else CeilDiv(n, Pow10(Digits(n) - p)) * Pow10(Digits(n) - p)
  {
  }

  /** A number with at most `p` digits is kept; any other becomes the least multiple of its unit not below it. */
  lemma RoundedUpOfNat(n: nat, p: int)
    ensures Digits(n) <= p ==> RoundedUp(n, p) == n
    ensures Digits(n) > p ==> IsLeastMultipleFrom(RoundedUp(n, p), n, Pow10(Digits(n) - p))
  {
    RoundedUpIsCeil(n, p);
    if Digits(n) > p {
      CeilIsLeastMultiple(n, Pow10(Digits(n) - p));
    }
  }

  /** The same for every integer, whose sign counts as a digit. */
  lemma RoundedUpOfInt(n: int, p: int)
    ensures var len := if n < 0 then 1 + Digits(-n) else Digits(n);
            && (len <= p ==> RoundedUp(n, p) == n)
            && (len > p ==> IsLeastMultipleFrom(RoundedUp(n, p), n, Pow10(len - p)))
  {
    var len := |DecimalString(n)|;
    if len > p {
      CeilIsLeastMultiple(n, Pow10(len - p));
    }
  }

  /** Rounding stays inside the power of ten above the number. */
  lemma RoundedUpBelowNextPower(n: nat, p: nat)
    requires p >= 1
    ensures n <= RoundedUp(n, p) <= Pow10(Digits(n))
  {
    hide Pow10, CeilDiv, Digits, RoundedUp;
    RoundedUpIsCeil(n, p);
    var d := Digits(n);
    DigitsBound(n);
    if d > p {
      CeilBounds(n, Pow10(d - p));
      Pow10Add(p, d - p);
      CeilBelowMultiple(n, Pow10(d - p), Pow10(p));
    }
  }

  /** `r` is `mantissa` followed by `zeros` zero digits. */
  ghost predicate IsScaled(r: int, mantissa: nat, zeros: nat) {
    r == mantissa * Pow10(zeros)
  }

  /** `r` can be written with at most `p` significant digits. */
  ghost predicate HasSignificantDigits(r: int, p: nat) {
    exists m: nat, k: nat :: m < Pow10(p) && IsScaled(r, m, k)
  }

  lemma RoundedUpHasFewDigits(n: nat, p: nat)
    requires p >= 1
    ensures HasSignificantDigits(RoundedUp(n, p), p)
  {
    var d := Digits(n);
    DigitsBound(n);
    if d <= p {
      Pow10Monotone(d, p);
      assert IsScaled(n, n, 0);
    } else {
      var m := MantissaBound(n, p);
      if m == Pow10(p) {
        Pow10Monotone(1, p);
        assert Pow10(1) == 10;
        Pow10Add(p, d - p);
        assert IsScaled(RoundedUp(n, p), 1, d);
      } else {
        assert IsScaled(RoundedUp(n, p), m, d - p);
      }
    }
  }

  lemma FactorBound(a: int, b: int, unit: nat)
    requires unit > 0 && 0 <= a * unit <= b * unit
    ensures 0 <= a <= b
  {
    if a > b {
      MulMonotone(1, a - b, unit);
      MulSub(a, b, unit);
    } else if a < 0 {
      MulMonotone(a, -1, unit);
    }
  }

  lemma MantissaBound(n: nat, p: nat) returns (m: nat)
    requires 1 <= p < Digits(n)
    ensures m <= Pow10(p)
    ensures RoundedUp(n, p) == m * Pow10(Digits(n) - p)
  {
    var d := Digits(n);
    var unit := Pow10(d - p);
    CeilBounds(n, unit);
    RoundedUpBelowNextPower(n, p);
    Pow10Add(p, d - p);
    FactorBound(CeilDiv(n, unit), Pow10(p), unit);
    m := CeilDiv(n, unit);
  }

  /** The relative error is below 10^(1-p). */
  lemma RoundedUpRelativeError(n: nat, p: nat)
    requires n > 0 && p >= 1
    ensures (RoundedUp(n, p) - n) * Pow10(p - 1) < n
  {
    hide Pow10, CeilDiv, Digits, RoundedUp;
    RoundedUpIsCeil(n, p);
    var d := Digits(n);
    if d > p {
      var unit := Pow10(d - p);
      CeilBounds(n, unit);
      DigitsBound(n);
      var e := RoundedUp(n, p) - n;
      Pow10Add(d - p, p - 1);
      MulMonotone(e, unit - 1, Pow10(p - 1));
      MulSub(unit, 1, Pow10(p - 1));
    }
  }

  /** Rounding preserves order, also between numbers with different digit counts. */
  lemma RoundedUpMonotone(a: nat, b: nat, p: nat)
    requires a <= b && p >= 1
    ensures RoundedUp(a, p) <= RoundedUp(b, p)
  {
    DigitsMonotone(a, b);
    RoundedUpBelowNextPower(a, p);
    RoundedUpBelowNextPower(b, p);
    if Digits(a) == Digits(b) {
      if Digits(a) > p {
        var unit := Pow10(Digits(a) - p);
        CeilIsLeastMultiple(a, unit);
        CeilIsLeastMultiple(b, unit);
      }
    } else {
      DigitsBound(b);
      Pow10Monotone(Digits(a), Digits(b) - 1);
    }
  }

  /** With at least one digit of precision, rounding twice is rounding once. */
  lemma RoundedUpIdempotent(n: nat, p: nat)
    requires p >= 1
    ensures RoundedUp(RoundedUp(n, p), p) == RoundedUp(n, p)
  {
    var d := Digits(n);
    var r := RoundedUp(n, p);
    RoundedUpBelowNextPower(n, p);
    DigitsBound(n);
    if d > p {
      var unit := Pow10(d - p);
      CeilIsLeastMultiple(n, unit);
      if r < Pow10(d) {
        DigitsOf(r, d);
        assert r % unit == 0;
        MultipleIffExact(r, unit);
      } else {
        Pow10Monotone(d, d + 1);
        DigitsOf(r, d + 1);
        var unit' := Pow10(d + 1 - p);
        Pow10Add(p - 1, d + 1 - p);
        assert r == Pow10(p - 1) * unit';
        MulMod(Pow10(p - 1), unit');
        MultipleIffExact(r, unit');
      }
    }
  }

  /** Rounding is idempotent at a positive number exactly when some digit of precision is kept. */
  lemma RoundedUpIdempotentIff(n: nat, p: int)
    requires n > 0
    ensures RoundedUp(RoundedUp(n, p), p) == RoundedUp(n, p) <==> p >= 1
  {
    if p >= 1 {
      RoundedUpIdempotent(n, p);
    } else {
      NoPrecisionIsNextPower(n, p);
      var r := RoundedUp(n, p);
      NoPrecisionIsNextPower(r, p);
      DigitsBound(r);
      Pow10Monotone(Digits(r), Digits(r) - p);
    }
  }

  lemma NoPrecisionIsNextPower(n: nat, p: int)
    requires n > 0 && p <= 0
    ensures RoundedUp(n, p) == Pow10(Digits(n) - p)
  {
    var unit := Pow10(Digits(n) - p);
    DigitsBound(n);
    Pow10Monotone(Digits(n), Digits(n) - p);
    QuotientUnique(n, unit, 0, n);
  }
}
