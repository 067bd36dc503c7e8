/** Decimal text and trimming. */
module Texts {

  function Trim(s: string, space: char -> bool): (t: string)
    ensures t != "" ==> !space(t[0]) && !space(t[|t| - 1])
    ensures |t| <= |s|
  {
    if s == "" then ""
    else if space(s[0]) then Trim(s[1..], space)
    else if space(s[|s| - 1]) then Trim(s[..|s| - 1], space)
    else s
  }

  predicate IsDigit(c: char) {
    '0' <= c <= '9'
  }

  predicate AllDigits(s: string) {
    forall i | 0 <= i < |s| :: IsDigit(s[i])
  }

  function DigitValue(c: char): nat
    requires IsDigit(c)
  {
    c as nat - '0' as nat
  }

  function DigitChar(d: nat): (c: char)
    requires d < 10
    ensures IsDigit(c) && DigitValue(c) == d
  {
    ('0' as int + d) as char
  }

  function Value(s: string): nat
    requires AllDigits(s)
  {
    if s == "" then 0 else 10 * Value(s[..|s| - 1]) + DigitValue(s[|s| - 1])
  }

  function Power10(n: nat): (p: nat)
    ensures p > 0
  {
    if n == 0 then 1 else 10 * Power10(n - 1)
  }

  /** Plain decimal text without leading zeros. */
  function Decimal(n: nat): (s: string)
    ensures s != "" && AllDigits(s) && Value(s) == n
    ensures |s| > 1 ==> s[0] != '0'
  {
    if n < 10 then [DigitChar(n)]
    else
      var s := Decimal(n / 10) + [DigitChar(n % 10)];
      assert s[..|s| - 1] == Decimal(n / 10);
      assert n < 100 ==> Decimal(n / 10) == [DigitChar(n / 10)];
      s
  }

  /** Exactly `width` digits. */
  function Fixed(n: nat, width: nat): (s: string)
    requires n < Power10(width)
    ensures |s| == width && AllDigits(s) && Value(s) == n
  {
    if width == 0 then ""
    else
      var s := Fixed(n / 10, width - 1) + [DigitChar(n % 10)];
      assert s[..|s| - 1] == Fixed(n / 10, width - 1);
      s
  }

  function TrimZeros(s: string): (t: string)
    requires AllDigits(s)
    ensures |t| <= |s| && AllDigits(t) && (t != "" ==> t[|t| - 1] != '0')
  {
    if s != "" && s[|s| - 1] == '0' then TrimZeros(s[..|s| - 1]) else s
  }

  lemma {:induction false} TrimZerosValue(s: string)
    requires AllDigits(s)
    ensures Value(TrimZeros(s)) * Power10(|s| - |TrimZeros(s)|) == Value(s)
  {
    if s != "" && s[|s| - 1] == '0' {
      var n := |s| - 1;
      TrimZerosValue(s[..n]);
      var t := TrimZeros(s[..n]);
      assert Power10(|s| - |t|) == 10 * Power10(n - |t|);
    }
  }

  lemma DecimalInjective(a: nat, b: nat)
    requires Decimal(a) == Decimal(b)
    ensures a == b
  {
  }

  lemma {:induction false} ValueBound(s: string)
    requires AllDigits(s)
    ensures Value(s) < Power10(|s|)
  {
    if s != "" {
      ValueBound(s[..|s| - 1]);
    }
  }

  lemma {:induction false} DecimalLength(n: nat, width: nat)
    requires n < Power10(width) && width > 0
    ensures |Decimal(n)| <= width
  {
    if n >= 10 {
      DecimalLength(n / 10, width - 1);
    }
  }
}
