/**
 * The decimal text of an index, as Rust's `usize::to_string` writes it, viewed
 * as the bytes of the resulting `str`: ASCII digits, most significant first,
 * no sign, no leading zeros. This text is the seed of every derived address.
 */
module Decimal {
  import opened Ints

  /** ASCII code of the digit `0`. */
  const ZERO: uint8 := 48

  predicate IsDigit(b: uint8) {
    ZERO <= b <= ZERO + 9
  }

  predicate AllDigits(s: seq<uint8>) {
    forall k :: 0 <= k < |s| ==> IsDigit(s[k])
  }

  /** The form `to_string` produces: non-empty digits, and a leading `0` only in "0" itself. */
  predicate IsCanonical(s: seq<uint8>) {
    |s| > 0 && AllDigits(s) && (s[0] == ZERO ==> |s| == 1)
  }

  function DigitByte(d: nat): (b: uint8)
    requires d < 10
    ensures IsDigit(b) && b - ZERO == d
  {
    ZERO + d
  }

  /** `n.to_string()` as bytes. */
  function ToDecimal(n: nat): (s: seq<uint8>)
    ensures IsCanonical(s)
    ensures s == [ZERO] <==> n == 0
    decreases n
  {
    if n < 10 then [DigitByte(n)] else ToDecimal(n / 10) + [DigitByte(n % 10)]
  }

  /** The value a string of decimal digits denotes; the partner of `ToDecimal`. */
  function ParseDecimal(s: seq<uint8>): nat
    requires AllDigits(s)
  {
    if |s| == 0 then 0 else ParseDecimal(s[..|s| - 1]) * 10 + (s[|s| - 1] - ZERO)
  }

  function Pow10(k: nat): (p: nat)
    ensures p >= 1
  {
    if k == 0 then 1 else 10 * Pow10(k - 1)
  }

  /** Reading back what `ToDecimal` wrote gives the index again. */
  lemma {:induction false} ParseToDecimal(n: nat)
    ensures ParseDecimal(ToDecimal(n)) == n
    decreases n
  {
    var s := ToDecimal(n);
    if n >= 10 {
      ParseToDecimal(n / 10);
      assert s[..|s| - 1] == ToDecimal(n / 10);
    }
  }

  /** Distinct indices have distinct seeds: "1" and "01" cannot both occur. */
  lemma ToDecimalInjective(m: nat, n: nat)
    ensures ToDecimal(m) == ToDecimal(n) <==> m == n
  {
    ParseToDecimal(m);
    ParseToDecimal(n);
  }

  lemma {:induction false} ParsePositive(s: seq<uint8>)
    requires IsCanonical(s) && s[0] != ZERO
    ensures ParseDecimal(s) >= 1
    decreases |s|
  {
    if |s| > 1 {
      ParsePositive(s[..|s| - 1]);
    }
  }

  /** Every canonical digit string is the text of exactly one index: `ToDecimal` is onto them. */
  lemma {:induction false} ToDecimalParse(s: seq<uint8>)
    requires IsCanonical(s)
    ensures ToDecimal(ParseDecimal(s)) == s
    decreases |s|
  {
    if |s| > 1 {
      var p := s[..|s| - 1];
      var d := s[|s| - 1] - ZERO;
      ParsePositive(p);
      ToDecimalParse(p);
      var n := ParseDecimal(s);
      assert n == ParseDecimal(p) * 10 + d;
      assert n / 10 == ParseDecimal(p) && n % 10 == d;
      assert s == p + [s[|s| - 1]];
    }
  }

  /** A text of at most `k` digits is exactly an index below `10^k`. */
  lemma {:induction false} ToDecimalLength(n: nat, k: nat)
    requires k >= 1
    ensures |ToDecimal(n)| <= k <==> n < Pow10(k)
    decreases n
  {
    if k == 1 {
      assert Pow10(1) == 10;
    } else if n >= 10 {
      ToDecimalLength(n / 10, k - 1);
      assert n / 10 < Pow10(k - 1) <==> n < 10 * Pow10(k - 1);
    } else {
      assert Pow10(k) == 10 * Pow10(k - 1);
    }
  }

  lemma {:induction false} Pow10Add(a: nat, b: nat)
    ensures Pow10(a + b) == Pow10(a) * Pow10(b)
    decreases a
  {
    if a > 0 {
      Pow10Add(a - 1, b);
    }
  }

  /** Every `usize` is written in at most 20 digits. */
  lemma UsizeDecimalLength(n: nat)
    requires n < USIZE_LIMIT
    ensures |ToDecimal(n)| <= 20
  {
    assert Pow10(5) == 100_000;
    Pow10Add(5, 5);
    Pow10Add(10, 10);
    ToDecimalLength(n, 20);
  }
}
