/** Byte strings: memcmp order, big-endian integers, binary64 scores. */
module Bytes {

  type byte = x: int | 0 <= x < 256

  const TWO_53: nat := 0x20_0000_0000_0000
  const TWO_63: nat := 0x8000_0000_0000_0000
  const TWO_64: nat := 0x1_0000_0000_0000_0000

  type uint16 = x: int | 0 <= x < 0x1_0000
  type uint64 = x: int | 0 <= x < 0x1_0000_0000_0000_0000
  type int64 = x: int | -0x8000_0000_0000_0000 <= x < 0x8000_0000_0000_0000

  /** Reinterpretation of a signed word as an unsigned one and back. */
  function AsUint64(x: int64): uint64 {
    if x < 0 then x + TWO_64 else x
  }

  function AsInt64(x: uint64): int64 {
    if x < TWO_63 then x else x - TWO_64
  }

  /** The order in which Redis sorts members of equal score: memcmp, a proper prefix first. */
  predicate LexLess(a: seq<byte>, b: seq<byte>) {
    if b == [] then false
    else if a == [] then true
    else a[0] < b[0] || (a[0] == b[0] && LexLess(a[1..], b[1..]))
  }

  lemma {:induction false} LexConcat(a: seq<byte>, x: seq<byte>, b: seq<byte>, y: seq<byte>)
    requires |a| == |b|
    ensures LexLess(a + x, b + y) <==> LexLess(a, b) || (a == b && LexLess(x, y))
  {
    if a == [] {
      assert a + x == x && b + y == y;
    } else {
      assert (a + x)[1..] == a[1..] + x && (b + y)[1..] == b[1..] + y;
      assert a == b <==> a[0] == b[0] && a[1..] == b[1..] by {
        assert a == [a[0]] + a[1..] && b == [b[0]] + b[1..];
      }
      LexConcat(a[1..], x, b[1..], y);
    }
  }

  lemma {:induction false} LexTrichotomy(a: seq<byte>, b: seq<byte>)
    ensures LexLess(a, b) || LexLess(b, a) || a == b
    ensures !(LexLess(a, b) && LexLess(b, a))
    ensures !LexLess(a, a)
  {
    if a != [] {
      LexTrichotomy(a[1..], a[1..]);
      if b != [] {
        assert a == [a[0]] + a[1..] && b == [b[0]] + b[1..];
        LexTrichotomy(a[1..], b[1..]);
      }
    }
  }

  lemma {:induction false} LexTransitive(a: seq<byte>, b: seq<byte>, c: seq<byte>)
    requires LexLess(a, b) && LexLess(b, c)
    ensures LexLess(a, c)
  {
    if a != [] && a[0] == b[0] == c[0] {
      LexTransitive(a[1..], b[1..], c[1..]);
    }
  }

  // Big-endian integers

  function Pow256(width: nat): (p: nat)
    ensures p >= 1
  {
    if width == 0 then 1 else 256 * Pow256(width - 1)
  }

  function BigEndian(n: nat, width: nat): (bs: seq<byte>)
    ensures |bs| == width
  {
    if width == 0 then [] else BigEndian(n / 256, width - 1) + [n % 256]
  }

  function FromBigEndian(bs: seq<byte>): nat {
    if bs == [] then 0 else 256 * FromBigEndian(bs[..|bs| - 1]) + bs[|bs| - 1]
  }

  lemma {:induction false} FromBigEndianBound(bs: seq<byte>)
    ensures FromBigEndian(bs) < Pow256(|bs|)
  {
    if bs != [] {
      FromBigEndianBound(bs[..|bs| - 1]);
    }
  }

  lemma {:induction false} BigEndianRoundTrip(n: nat, width: nat)
    requires n < Pow256(width)
    ensures FromBigEndian(BigEndian(n, width)) == n
  {
    if width > 0 {
      BigEndianRoundTrip(n / 256, width - 1);
      assert BigEndian(n, width)[..width - 1] == BigEndian(n / 256, width - 1);
    }
  }

  lemma {:induction false} FromBigEndianRoundTrip(bs: seq<byte>)
    ensures BigEndian(FromBigEndian(bs), |bs|) == bs
  {
    if bs != [] {
      var front, last := bs[..|bs| - 1], bs[|bs| - 1];
      FromBigEndianRoundTrip(front);
      assert bs == front + [last];
      assert FromBigEndian(bs) / 256 == FromBigEndian(front);
    }
  }

  lemma {:induction false} BigEndianOrder(n: nat, m: nat, width: nat)
    requires n < Pow256(width) && m < Pow256(width)
    ensures LexLess(BigEndian(n, width), BigEndian(m, width)) <==> n < m
    ensures BigEndian(n, width) == BigEndian(m, width) <==> n == m
  {
    BigEndianRoundTrip(n, width);
    BigEndianRoundTrip(m, width);
    if width > 0 {
      BigEndianOrder(n / 256, m / 256, width - 1);
      LexConcat(BigEndian(n / 256, width - 1), [n % 256], BigEndian(m / 256, width - 1), [m % 256]);
    }
  }

  lemma WordWidths()
    ensures Pow256(2) == 0x1_0000
    ensures Pow256(8) == TWO_64
  {
    assert Pow256(4) == 256 * (256 * (256 * (256 * Pow256(0))));
    assert Pow256(8) == 256 * (256 * (256 * (256 * Pow256(4))));
  }

  // Scores: the binary64 value nearest to an unsigned integer

  /** The spacing of binary64 numbers around `n`: 53 significant bits. */
  function Ulp(n: nat): (u: nat)
    ensures u >= 1
    ensures n <= TWO_53 ==> u <= 2
    ensures n < TWO_53 <==> u == 1
  {
    if n < TWO_53 then 1 else 2 * Ulp(n / 2)
  }

  /** Conversion of an unsigned integer to binary64: to nearest, ties to even. */
  function ToFloat64(n: nat): nat {
    RoundToMultiple(n, Ulp(n))
  }

  function RoundToMultiple(n: nat, u: nat): nat
    requires u > 0
  {
    var q, r := n / u, n % u;
    if 2 * r < u || (2 * r == u && q % 2 == 0) then q * u else (q + 1) * u
  }

  lemma MulOneMore(q: nat, u: nat)
    ensures (q + 1) * u == q * u + u
  {
  }

  /** The conversion is exact precisely on multiples of the local spacing. */
  lemma Float64ExactIff(n: nat)
    ensures ToFloat64(n) == n <==> n % Ulp(n) == 0
  {
    RoundExactIff(n, Ulp(n));
  }

  lemma RoundExactIff(n: nat, u: nat)
    requires u > 0
    ensures RoundToMultiple(n, u) == n <==> n % u == 0
  {
    var q, r := n / u, n % u;
    MulOneMore(q, u);
    QuotientRemainder(n, u);
  }

  lemma QuotientRemainder(n: nat, u: nat)
    requires u > 0
    ensures n == n / u * u + n % u && n % u < u
  {
  }

  lemma Float64ExactUpTo53Bits(n: nat)
    requires n <= TWO_53
    ensures ToFloat64(n) == n
  {
    Float64ExactIff(n);
  }

  // Monotonicity of the conversion

  const TWO_52: nat := 0x10_0000_0000_0000

  /** A spacing above one means the number has 53 significant bits at that spacing. */
  lemma {:induction false} UlpBinade(n: nat)
    ensures n < TWO_53 * Ulp(n)
    ensures n >= TWO_53 ==> TWO_52 * Ulp(n) <= n
  {
    if n >= TWO_53 {
      UlpBinade(n / 2);
    }
  }

  lemma {:induction false} UlpMonotone(n: nat, m: nat)
    requires n <= m
    ensures Ulp(m) == Ulp(n) || Ulp(m) >= 2 * Ulp(n)
  {
    if n >= TWO_53 {
      UlpMonotone(n / 2, m / 2);
    }
  }

  lemma MulMonotone(a: nat, b: nat, u: nat)
    requires a <= b
    ensures a * u <= b * u
  {
    assert 0 <= (b - a) * u;
  }

  /** Rounding to a multiple moves to a neighbouring multiple and never past one. */
  lemma RoundBetweenMultiples(n: nat, u: nat, k: nat)
    requires u > 0
    ensures n <= k * u ==> RoundToMultiple(n, u) <= k * u
    ensures k * u <= n ==> k * u <= RoundToMultiple(n, u)
  {
    var q, r := n / u, n % u;
    QuotientRemainder(n, u);
    MulOneMore(q, u);
    if k <= q {
      MulMonotone(k, q, u);
      if n <= k * u {
        assert r == 0;
      }
    } else {
      MulMonotone(q + 1, k, u);
    }
  }

  lemma RoundMonotone(n: nat, m: nat, u: nat)
    requires u > 0 && n <= m
    ensures RoundToMultiple(n, u) <= RoundToMultiple(m, u)
  {
    var q := n / u;
    QuotientRemainder(n, u);
    QuotientRemainder(m, u);
    MulOneMore(q, u);
    if m / u != q {
      if m / u < q {
        MulMonotone(m / u + 1, q, u);
        MulOneMore(m / u, u);
      } else {
        MulMonotone(q + 1, m / u, u);
        RoundBetweenMultiples(n, u, q + 1);
        RoundBetweenMultiples(m, u, q + 1);
      }
    }
  }

  lemma Float64Monotone(n: nat, m: nat)
    requires n <= m
    ensures ToFloat64(n) <= ToFloat64(m)
  {
    UlpMonotone(n, m);
    UlpBinade(n);
    UlpBinade(m);
    if Ulp(n) == Ulp(m) {
      RoundMonotone(n, m, Ulp(n));
    } else {
      RoundBetweenMultiples(n, Ulp(n), TWO_53);
      RoundBetweenMultiples(m, Ulp(m), TWO_52);
    }
  }
}
