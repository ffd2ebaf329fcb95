/** Decimal numerals as the C library prints and reads them. */
module Numerals {

  predicate IsDigit(c: char)
  {
    '0' <= c <= '9'
  }

  predicate Digits(s: string)
  {
    forall i :: 0 <= i < |s| ==> IsDigit(s[i])
  }

  function Digit(d: nat): (c: char)
    requires d < 10
    ensures IsDigit(c)
  {
    '0' + d as char
  }

  // "%u"
  function Decimal(n: nat): (s: string)
    ensures s != "" && Digits(s)
  {
    if n < 10 then [Digit(n)] else Decimal(n / 10) + [Digit(n % 10)]
  }

  function DigitValue(c: char): nat
  {
    if IsDigit(c) then c as nat - '0' as nat else 0
  }

  // atoi on a run of digits
  function Value(s: string): nat
  {
    if s == "" then 0 else 10 * Value(s[..|s| - 1]) + DigitValue(s[|s| - 1])
  }

  /** atoi reads back what %u prints; leading zeros are lost the other way round. */
  lemma {:induction false} ValueOfDecimal(n: nat)
    ensures Value(Decimal(n)) == n
  {
    if n < 10 {
      assert Decimal(n)[..0] == "";
    } else {
      var s := Decimal(n);
      assert s[..|s| - 1] == Decimal(n / 10);
      ValueOfDecimal(n / 10);
    }
  }

  // 10 to the power k
  function Pow10(k: nat): nat
  {
    if k == 0 then 1 else 10 * Pow10(k - 1)
  }

  lemma {:induction false} DecimalLength(n: nat, k: nat)
    requires k > 0 && n < Pow10(k)
    ensures |Decimal(n)| <= k
  {
    if n >= 10 {
      DecimalLength(n / 10, k - 1);
    }
  }

  // ------------------------------------------------------------------ written width

  function Zeros(k: nat): (s: string)
    ensures |s| == k
  {
    seq(k, _ => '0')
  }

  // A numeral with zeros in front, up to a width.
  function Padded(s: string, width: nat): (t: string)
    ensures |t| >= |s| && |t| >= width && (|s| >= width ==> t == s)
  {
    if |s| >= width then s else Zeros(width - |s|) + s
  }

  /** A run of digits is the numeral of its value with zeros in front. */
  lemma {:induction false} DigitsArePadded(d: string)
    requires d != "" && Digits(d)
    ensures |Decimal(Value(d))| <= |d| && Padded(Decimal(Value(d)), |d|) == d
  {
    var d', c := d[..|d| - 1], d[|d| - 1];
    assert d == d' + [c] && IsDigit(c) && Digit(DigitValue(c)) == c;
    if d' == "" {
      assert Value(d') == 0;
    } else {
      assert Digits(d');
      DigitsArePadded(d');
      PaddedOneMore(d', c);
    }
  }

  lemma PaddedOneMore(d: string, c: char)
    requires d != "" && IsDigit(c) && |Decimal(Value(d))| <= |d| && Padded(Decimal(Value(d)), |d|) == d
    ensures |Decimal(Value(d + [c]))| <= |d| + 1 && Padded(Decimal(Value(d + [c])), |d| + 1) == d + [c]
  {
    var v := Value(d);
    ValueOneMore(d, c);
    DecimalOneMore(v, c);
    if v == 0 {
      ZerosEnd(|d| - 1);
    } else {
      PaddedEnd(Decimal(v), |d|, c);
    }
  }

  lemma ValueOneMore(d: string, c: char)
    ensures Value(d + [c]) == 10 * Value(d) + DigitValue(c)
  {
    assert (d + [c])[..|d|] == d;
  }

  lemma DecimalOneMore(v: nat, c: char)
    requires IsDigit(c)
    ensures Decimal(10 * v + DigitValue(c)) == if v == 0 then [c] else Decimal(v) + [c]
  {
    assert Digit(DigitValue(c)) == c;
    assert v > 0 ==> (10 * v + DigitValue(c)) / 10 == v && (10 * v + DigitValue(c)) % 10 == DigitValue(c);
  }

  lemma ZerosEnd(k: nat)
    ensures Zeros(k) + "0" == Zeros(k + 1)
  {
  }

  lemma PaddedEnd(s: string, width: nat, c: char)
    ensures Padded(s + [c], width + 1) == Padded(s, width) + [c]
  {
  }

  lemma {:induction false} LongerNumeral(m: nat, n: nat)
    requires m <= n
    ensures |Decimal(m)| <= |Decimal(n)|
    decreases n
  {
    if m >= 10 {
      LongerNumeral(m / 10, n / 10);
    }
  }
}
