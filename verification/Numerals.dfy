/** Numerals in bases up to sixteen, as the logging code writes them and the request parser reads them. */
module Numerals {
  import Date   // for lemmas on division

  // ---------------------------------------------------------------- numerals

  const HEX_DIGITS := "0123456789ABCDEF"

  /** The digit for `d` in either base. */
  function DigitOf(d: nat): (c: char)
    requires d < 16
  {
    HEX_DIGITS[d]
  }

  /** The numeral of `n`, most significant digit first. */
  function Numeral(n: nat, base: nat): (s: string)
    requires 2 <= base <= 16
    ensures s != ""
    decreases n
  {
    if n < base then [DigitOf(n)] else Numeral(n / base, base) + [DigitOf(n % base)]
  }

  function Abs(x: int): (n: nat) {
    if x < 0 then -x else x
  }

  function Decimal(x: int): (s: string) {
    if x < 0 then "-" + Numeral(Abs(x), 10) else Numeral(x, 10)
  }

  // ---------------------------------------------------------------- reading numerals

  function ValueOfDigit(c: char): (d: nat) {
    if '0' <= c <= '9' then c as nat - '0' as nat
    else if 'A' <= c <= 'F' then c as nat - 'A' as nat + 10
    else 0
  }

  function ValueOf(s: string, base: nat): (n: nat) {
    if s == "" then 0 else ValueOf(s[..|s| - 1], base) * base + ValueOfDigit(s[|s| - 1])
  }

  function ReadDecimal(s: string): (x: int) {
    if s != "" && s[0] == '-' then 0 - ValueOf(s[1..], 10) else ValueOf(s, 10)
  }

  predicate IsDigit(c: char, base: nat)
    requires 2 <= base <= 16
  {
    ValueOfDigit(c) < base && c == DigitOf(ValueOfDigit(c))
  }

  predicate IsNumeral(s: string, base: nat)
    requires 2 <= base <= 16
  {
    forall i :: 0 <= i < |s| ==> IsDigit(s[i], base)
  }

  /** No zero in front, unless the numeral is zero. */
  predicate NoLeadingZero(s: string) {
    s != "" && (s[0] == '0' ==> |s| == 1)
  }

  lemma DigitRoundTrip(d: nat)
    requires d < 16
    ensures ValueOfDigit(DigitOf(d)) == d && DigitOf(d) != '-' && (DigitOf(d) == '0' <==> d == 0)
  {
    assert HEX_DIGITS[0] == '0' && HEX_DIGITS[1] == '1' && HEX_DIGITS[2] == '2' && HEX_DIGITS[3] == '3';
    assert HEX_DIGITS[4] == '4' && HEX_DIGITS[5] == '5' && HEX_DIGITS[6] == '6' && HEX_DIGITS[7] == '7';
    assert HEX_DIGITS[8] == '8' && HEX_DIGITS[9] == '9' && HEX_DIGITS[10] == 'A' && HEX_DIGITS[11] == 'B';
    assert HEX_DIGITS[12] == 'C' && HEX_DIGITS[13] == 'D' && HEX_DIGITS[14] == 'E' && HEX_DIGITS[15] == 'F';
  }

  lemma ValueOfSnoc(s: string, c: char, base: nat)
    ensures ValueOf(s + [c], base) == ValueOf(s, base) * base + ValueOfDigit(c)
  {
    assert (s + [c])[..|s|] == s;
  }

  lemma Divided(n: nat, base: nat)
    requires 2 <= base <= n
    ensures 1 <= n / base < n && n == n / base * base + n % base && n % base < base
  {
    var q, r := n / base, n % base;
    assert n == base * q + r;
    assert q >= 1 && base * q >= 2 * q;
  }

  lemma NumeralUnfolds(n: nat, base: nat)
    requires 2 <= base <= 16 && n >= base
    ensures Numeral(n, base) == Numeral(n / base, base) + [DigitOf(n % base)]
  {
  }

  /** The last digit of a longer numeral, and what is before it. */
  lemma Split(n: nat, base: nat) returns (q: nat, r: nat)
    requires 2 <= base <= 16 && n >= base
    ensures 1 <= q < n && r < base && n == q * base + r && Numeral(n, base) == Numeral(q, base) + [DigitOf(r)]
  {
    q, r := n / base, n % base;
    Divided(n, base);
    NumeralUnfolds(n, base);
  }

  lemma Shorter(s: string, base: nat)
    requires 2 <= base <= 16 && s != "" && IsNumeral(s, base)
    ensures IsDigit(s[|s| - 1], base) && IsNumeral(s[..|s| - 1], base)
  {
    hide IsDigit;
  }

  /** A digit behind a numeral without a zero in front. */
  lemma OneMoreDigit(s: string, q: nat, r: nat, base: nat)
    requires 2 <= base <= 16 && r < base
    requires ValueOf(s, base) == q && IsNumeral(s, base) && s != "" && s[0] != '0'
    ensures var t := s + [DigitOf(r)];
            ValueOf(t, base) == q * base + r && IsNumeral(t, base) && NoLeadingZero(t) && t[0] != '0'
  {
    DigitRoundTrip(r);
    assert IsDigit(DigitOf(r), base);
    hide DigitOf, ValueOfDigit, IsDigit;
    ValueOfSnoc(s, DigitOf(r), base);
    hide ValueOf;
    var t := s + [DigitOf(r)];
    assert forall i :: 0 <= i < |s| ==> t[i] == s[i];
  }

  /** Numerals read back to what they were made from, and have no zeros in front. */
  lemma {:induction false} NumeralRoundTrip(n: nat, base: nat)
    requires 2 <= base <= 16
    ensures ValueOf(Numeral(n, base), base) == n
    ensures IsNumeral(Numeral(n, base), base) && NoLeadingZero(Numeral(n, base))
    ensures n > 0 ==> Numeral(n, base)[0] != '0'
    decreases n
  {
    if n < base {
      DigitRoundTrip(n);
      ValueOfSnoc("", DigitOf(n), base);
      assert "" + [DigitOf(n)] == [DigitOf(n)];
    } else {
      hide Numeral, ValueOf, IsNumeral;
      var q, r := Split(n, base);
      NumeralRoundTrip(q, base);
      OneMoreDigit(Numeral(q, base), q, r, base);
    }
  }

  lemma ZeroIsWritten(base: nat)
    requires 2 <= base <= 16
    ensures Numeral(0, base) == "0"
  {
    DigitRoundTrip(0);
  }

  lemma DivideBack(q: nat, r: nat, base: nat)
    requires r < base && q >= 1
    ensures (q * base + r) / base == q && (q * base + r) % base == r && q * base + r >= base
  {
    Date.DivUnique(q * base + r, base, q, r);
    Date.MulAtLeast(base, q);
  }

  lemma NumeralGrows(q: nat, c: char, base: nat)
    requires 2 <= base <= 16 && IsDigit(c, base) && q >= 1
    ensures Numeral(q * base + ValueOfDigit(c), base) == Numeral(q, base) + [c]
  {
    var d := ValueOfDigit(c);
    hide ValueOfDigit;
    DivideBack(q, d, base);
    NumeralUnfolds(q * base + d, base);
  }

  lemma OneDigit(c: char, base: nat)
    requires 2 <= base <= 16 && IsDigit(c, base)
    ensures ValueOf([c], base) == ValueOfDigit(c) && Numeral(ValueOfDigit(c), base) == [c]
  {
    hide ValueOfDigit;
    ValueOfSnoc("", c, base);
    assert "" + [c] == [c];
  }

  /** There is one numeral without zeros in front for every number. */
  lemma {:induction false} NumeralIsOnly(s: string, base: nat)
    requires 2 <= base <= 16 && IsNumeral(s, base) && NoLeadingZero(s)
    ensures Numeral(ValueOf(s, base), base) == s
    decreases |s|
  {
    hide Numeral, ValueOf, ValueOfDigit, IsDigit, IsNumeral;
    var pre, c := s[..|s| - 1], s[|s| - 1];
    Shorter(s, base);
    assert s == pre + [c];
    if pre == "" {
      assert s == [c];
      OneDigit(c, base);
    } else {
      assert pre[0] != '0';
      NumeralIsOnly(pre, base);
      LongerIsOnly(pre, c, base);
    }
  }

  lemma LongerIsOnly(pre: string, c: char, base: nat)
    requires 2 <= base <= 16 && IsDigit(c, base) && pre != "" && pre[0] != '0'
    requires Numeral(ValueOf(pre, base), base) == pre
    ensures Numeral(ValueOf(pre + [c], base), base) == pre + [c]
  {
    hide Numeral, ValueOf, ValueOfDigit, IsDigit;
    ZeroIsWritten(base);
    NumeralGrows(ValueOf(pre, base), c, base);
    ValueOfSnoc(pre, c, base);
  }

  /** What `Convert` writes reads back to the value it was given. */
  lemma DecimalRoundTrip(x: int)
    ensures ReadDecimal(Decimal(x)) == x
  {
    var n := Abs(x);
    NumeralRoundTrip(n, 10);
    var s := Numeral(n, 10);
    assert IsDigit(s[0], 10);
    DigitRoundTrip(ValueOfDigit(s[0]));
    hide Numeral, ValueOf, ValueOfDigit, DigitOf, IsDigit;
    if x < 0 {
      assert ("-" + s)[1..] == s;
    }
  }

  /** A decimal without zeros in front, with a sign only before a number that is not zero. */
  predicate Canonical(s: string) {
    if s != "" && s[0] == '-' then IsNumeral(s[1..], 10) && NoLeadingZero(s[1..]) && s[1] != '0'
    else IsNumeral(s, 10) && NoLeadingZero(s)
  }

  lemma DecimalIsCanonical(x: int)
    ensures Canonical(Decimal(x))
  {
    var n := Abs(x);
    NumeralRoundTrip(n, 10);
    var s := Numeral(n, 10);
    assert IsDigit(s[0], 10);
    DigitRoundTrip(ValueOfDigit(s[0]));
    hide Numeral, ValueOf, ValueOfDigit, DigitOf, IsDigit;
    if x < 0 {
      assert ("-" + s)[1..] == s;
    }
  }

  /** No other string of the form reads to the value. */
  lemma DecimalIsOnly(s: string)
    requires Canonical(s)
    ensures Decimal(ReadDecimal(s)) == s
  {
    hide Numeral, ValueOf, ValueOfDigit, DigitOf, IsDigit;
    if s[0] == '-' {
      var t := s[1..];
      NumeralIsOnly(t, 10);
      ZeroIsWritten(10);
      assert t[0] == s[1];
      assert s == "-" + t;
    } else {
      NumeralIsOnly(s, 10);
    }
  }

  function Pow(base: nat, k: nat): (p: nat) {
    if k == 0 then 1 else base * Pow(base, k - 1)
  }

  lemma SmallerQuotient(n: nat, base: nat, p: nat)
    requires base >= 1 && n < base * p
    ensures n / base < p
  {
    var q, r := n / base, n % base;
    var k := q - p;
    assert base * q == base * p + base * k;
    assert k >= 0 ==> base * k >= 0;
  }

  lemma {:induction false} NumeralLength(n: nat, base: nat, k: nat)
    requires 2 <= base <= 16 && k >= 1 && n < Pow(base, k)
    ensures |Numeral(n, base)| <= k
    decreases k
  {
    if n >= base {
      assert k >= 2 by { assert Pow(base, 1) == base * Pow(base, 0); }
      SmallerQuotient(n, base, Pow(base, k - 1));
      NumeralLength(n / base, base, k - 1);
      NumeralUnfolds(n, base);
    }
  }

  const INT64_MIN: int := -0x8000_0000_0000_0000
  const UINT64_MAX: nat := 0xffff_ffff_ffff_ffff

  /** Everything `Convert` is instantiated for. */
  predicate Fits64(x: int) {
    INT64_MIN <= x <= UINT64_MAX
  }

  lemma PowersOfTen()
    ensures Pow(10, 19) == 10_000_000_000_000_000_000 && Pow(10, 20) == 100_000_000_000_000_000_000
  {
    assert Pow(10, 4) == 10_000;
    assert Pow(10, 8) == 10_000 * Pow(10, 4);
    assert Pow(10, 12) == 10_000 * Pow(10, 8);
    assert Pow(10, 16) == 10_000 * Pow(10, 12);
  }

  lemma PowersOfSixteen()
    ensures Pow(16, 16) == 0x1_0000_0000_0000_0000
  {
    assert Pow(16, 4) == 0x1_0000;
    assert Pow(16, 8) == 0x1_0000 * Pow(16, 4);
    assert Pow(16, 12) == 0x1_0000 * Pow(16, 8);
  }

  /** Twenty characters are enough for 64 bits, signed or not, and sixteen in base sixteen. */
  lemma DecimalLength(x: int)
    requires Fits64(x)
    ensures |Decimal(x)| <= 20
  {
    PowersOfTen();
    hide Numeral, Pow;
    NumeralLength(Abs(x), 10, if x < 0 then 19 else 20);
  }

  lemma HexLength(n: nat)
    requires n <= UINT64_MAX
    ensures |Numeral(n, 16)| <= 16
  {
    PowersOfSixteen();
    hide Numeral, Pow;
    NumeralLength(n, 16, 16);
  }
}
