/** Exact amounts: decimal bitcoin text and fee rates in whole satoshis per thousand weight units. */
module Amount {
  import opened Wrappers
  import opened Texts
  import opened Tables
  import Psbts

  const COIN: nat := 100_000_000
  const RATE_UNIT: nat := 400_000
  const MAX_U64: nat := 0xffff_ffff_ffff_ffff
  const MAX_TEXT: nat := 32

  predicate IsSpace(c: char) {
    || '\t' <= c <= '\r' || c == ' ' || c == '\U{85}' || c == '\U{a0}' || c == '\U{1680}' || '\U{2000}' <= c <= '\U{200a}'
    || c == '\U{2028}' || c == '\U{2029}' || c == '\U{202f}' || c == '\U{205f}' || c == '\U{3000}'
  }

  /** The text before the first point and, if there is one, the text after it. */
  function SplitPoint(s: string): (r: (string, Option<string>))
    ensures '.' !in r.0
    ensures s == r.0 + if r.1.Some? then ['.'] + r.1.value else ""
  {
    if s == "" then ("", None)
    else if s[0] == '.' then ("", Some(s[1..]))
    else
      var (whole, rest) := SplitPoint(s[1..]);
      ([s[0]] + whole, rest)
  }

  function Failed<T>(): Result<T, Psbts.Error> {
    Err(Psbts.InvalidInput)
  }

  function ParseU64(s: string): Result<nat, Psbts.Error>
    requires AllDigits(s)
  {
    if Value(s) <= MAX_U64 then Ok(Value(s)) else Failed()
  }

  /** A multiplication or addition that leaves 64 bits is an error, never a wrapped value. */
  function Checked(n: nat): Result<nat, Psbts.Error> {
    if n <= MAX_U64 then Ok(n) else Failed()
  }

  function ParseBtc(input: string): Result<nat, Psbts.Error> {
    var s := Trim(input, IsSpace);
    if s == "" || |s| > MAX_TEXT then Failed()
    else
      var (whole, rest) := SplitPoint(s);
      ParseParts(whole, rest)
  }

  function ParseParts(whole: string, rest: Option<string>): Result<nat, Psbts.Error> {
    var fraction := if rest.Some? then rest.value else "";
    if || whole == "" || !AllDigits(whole) || |fraction| > 8 || !AllDigits(fraction)
       || (rest.Some? && fraction == "") then Failed()
    else
      var n :- ParseU64(whole);
      var f :- ParseU64(fraction);
      var scaled :- Checked(n * COIN);
      var result :- Checked(scaled + f * Power10(8 - |fraction|));
      if result <= MAX_SATS then Ok(result) else Failed()
  }

  function FormatBtc(sats: nat): string {
    var whole, fraction := sats / COIN, sats % COIN;
    if fraction == 0 then Decimal(whole)
    else
      assert Power10(8) == COIN;
      Decimal(whole) + "." + TrimZeros(Fixed(fraction, 8))
  }

  // ---- What a text denotes ----

  /** Digits, and optionally a point with one to eight more digits: the value in units of 10^-8. */
  ghost predicate Denotes(s: string, whole: string, fraction: string, sats: nat) {
    && whole != "" && AllDigits(whole) && AllDigits(fraction) && |fraction| <= 8
    && s == whole + (if fraction == "" then "" else ['.'] + fraction)
    && sats * Power10(|fraction|) == (Value(whole) * Power10(|fraction|) + Value(fraction)) * COIN
  }

  lemma {:induction false} SplitIsUnique(whole: string, fraction: string)
    requires AllDigits(whole)
    ensures SplitPoint(whole + (['.'] + fraction)) == (whole, Some(fraction))
    ensures SplitPoint(whole) == (whole, None)
  {
    if whole != "" {
      SplitIsUnique(whole[1..], fraction);
      assert (whole + (['.'] + fraction))[1..] == whole[1..] + (['.'] + fraction);
      assert whole == [whole[0]] + whole[1..];
    } else {
      assert whole + (['.'] + fraction) == ['.'] + fraction;
      assert (['.'] + fraction)[1..] == fraction;
    }
  }

  lemma PowersOfTen()
    ensures Power10(0) == 1 && Power10(1) == 10 && Power10(2) == 100 && Power10(3) == 1000 && Power10(4) == 10_000
    ensures Power10(5) == 100_000 && Power10(6) == 1_000_000 && Power10(7) == 10_000_000 && Power10(8) == COIN
  {
  }

  lemma Scaling(n: nat)
    requires n <= 8
    ensures Power10(n) * Power10(8 - n) == COIN
  {
    PowersOfTen();
  }

  lemma ScaledFraction(f: nat, n: nat, sats: nat, w: nat)
    requires n <= 8
    ensures sats * Power10(n) == (w * Power10(n) + f) * COIN <==> sats == w * COIN + f * Power10(8 - n)
  {
    Scaling(n);
    var p, q := Power10(n), Power10(8 - n);
    hide Power10;
    Distributes(w, f, p, q, COIN);
    if sats * p == (w * COIN + f * q) * p {
      Cancel(sats, w * COIN + f * q, p);
    }
  }

  lemma Distributes(w: nat, f: nat, p: nat, q: nat, coin: nat)
    requires p * q == coin
    ensures (w * p + f) * coin == (w * coin + f * q) * p
  {
    assert (w * p + f) * coin == (w * coin) * p + f * (p * q);
    assert f * (p * q) == (f * q) * p;
    assert (w * coin) * p + (f * q) * p == (w * coin + f * q) * p;
  }

  lemma Cancel(a: nat, b: nat, p: nat)
    requires p > 0 && a * p == b * p
    ensures a == b
  {
    assert a < b ==> a * p < b * p;
    assert b < a ==> b * p < a * p;
  }

  /** Parsing accepts exactly the texts that denote an amount within supply: a checked step fails only beyond it. */
  lemma ParseIsExact(input: string, sats: nat)
    ensures ParseBtc(input) == Ok(sats) <==>
      |Trim(input, IsSpace)| <= MAX_TEXT && sats <= MAX_SATS
      && exists whole, fraction :: Denotes(Trim(input, IsSpace), whole, fraction, sats)
  {
    var s := Trim(input, IsSpace);
    if ParseBtc(input) == Ok(sats) {
      ParsedDenotes(input, sats);
    }
    if |s| <= MAX_TEXT && sats <= MAX_SATS {
      forall whole, fraction | Denotes(s, whole, fraction, sats) ensures ParseBtc(input) == Ok(sats) {
        DenotedParses(input, whole, fraction, sats);
      }
    }
  }

  lemma ParsedDenotes(input: string, sats: nat)
    requires ParseBtc(input) == Ok(sats)
    ensures sats <= MAX_SATS && |Trim(input, IsSpace)| <= MAX_TEXT
    ensures exists whole, fraction :: Denotes(Trim(input, IsSpace), whole, fraction, sats)
  {
    hide Value, Trim, SplitPoint;
    var s := Trim(input, IsSpace);
    var (whole, rest) := SplitPoint(s);
    var fraction := if rest.Some? then rest.value else "";
    ScaledFraction(Value(fraction), |fraction|, sats, Value(whole));
    assert Denotes(s, whole, fraction, sats);
  }

  lemma DenotedParses(input: string, whole: string, fraction: string, sats: nat)
    requires Denotes(Trim(input, IsSpace), whole, fraction, sats)
    requires |Trim(input, IsSpace)| <= MAX_TEXT && sats <= MAX_SATS
    ensures ParseBtc(input) == Ok(sats)
  {
    SplitIsUnique(whole, fraction);
    PartsParse(whole, fraction, sats);
    hide Value, Trim, SplitPoint, Power10, ParseParts;
    assert whole + "" == whole;
  }

  lemma PartsParse(whole: string, fraction: string, sats: nat)
    requires whole != "" && AllDigits(whole) && AllDigits(fraction) && |fraction| <= 8 && sats <= MAX_SATS
    requires sats * Power10(|fraction|) == (Value(whole) * Power10(|fraction|) + Value(fraction)) * COIN
    ensures ParseParts(whole, if fraction == "" then None else Some(fraction)) == Ok(sats)
  {
    ScaledFraction(Value(fraction), |fraction|, sats, Value(whole));
    FractionFits(fraction);
    CheckedParts(Value(whole), Value(fraction), Power10(8 - |fraction|), sats);
    hide Value, Power10, AllDigits, Checked, COIN;
  }

  lemma CheckedParts(w: nat, f: nat, p: nat, sats: nat)
    requires sats == w * COIN + f * p && sats <= MAX_SATS
    ensures w <= MAX_U64 && Checked(w * COIN) == Ok(w * COIN) && Checked(w * COIN + f * p) == Ok(sats)
  {
    assert f * p >= 0;
  }

  /** The one product that is not checked stays below one coin, so it cannot leave 64 bits. */
  lemma UncheckedProductFits(fraction: string)
    requires AllDigits(fraction) && |fraction| <= 8
    ensures Value(fraction) * Power10(8 - |fraction|) < COIN <= MAX_U64
  {
    ValueBound(fraction);
    Scaling(|fraction|);
    hide Value, Power10;
    ProductBelow(Value(fraction), Power10(|fraction|), Power10(8 - |fraction|));
  }

  lemma ProductBelow(a: nat, b: nat, q: nat)
    requires a < b && q > 0
    ensures a * q < b * q
  {
    assert (b - a) * q > 0;
  }

  lemma FractionFits(fraction: string)
    requires AllDigits(fraction) && |fraction| <= 8
    ensures Value(fraction) < COIN
  {
    ValueBound(fraction);
    PowersOfTen();
  }

  // ---- Round trips ----

  lemma FormatDenotes(sats: nat)
    ensures exists whole, fraction :: Denotes(FormatBtc(sats), whole, fraction, sats)
  {
    var whole, fraction := sats / COIN, sats % COIN;
    PowersOfTen();
    if fraction == 0 {
      ScaledFraction(0, 0, sats, whole);
      assert Denotes(FormatBtc(sats), Decimal(whole), "", sats);
    } else {
      var fixed := Fixed(fraction, 8);
      var digits := TrimZeros(fixed);
      TrimZerosValue(fixed);
      assert digits == "" ==> Value(digits) == 0;
      ScaledFraction(Value(digits), |digits|, sats, whole);
      hide Value, Power10;
      assert Denotes(FormatBtc(sats), Decimal(whole), digits, sats);
    }
  }

  lemma FormatIsTrimmed(sats: nat)
    requires sats <= MAX_SATS
    ensures Trim(FormatBtc(sats), IsSpace) == FormatBtc(sats) && |FormatBtc(sats)| <= MAX_TEXT
  {
    PowersOfTen();
    DecimalLength(sats / COIN, 8);
    hide Value;
    var s := FormatBtc(sats);
    assert IsDigit(s[0]) && IsDigit(s[|s| - 1]) by { FormatEnds(sats); }
  }

  lemma FormatEnds(sats: nat)
    ensures var s := FormatBtc(sats); s != "" && IsDigit(s[0]) && IsDigit(s[|s| - 1])
  {
    PowersOfTen();
    if sats % COIN != 0 {
      var digits := TrimZeros(Fixed(sats % COIN, 8));
      TrimZerosValue(Fixed(sats % COIN, 8));
      assert digits == "" ==> Value(digits) == 0;
      assert FormatBtc(sats)[|FormatBtc(sats)| - 1] == digits[|digits| - 1];
    }
  }

  /** Every amount within supply survives formatting and parsing. */
  lemma ParseInvertsFormat(sats: nat)
    requires sats <= MAX_SATS
    ensures ParseBtc(FormatBtc(sats)) == Ok(sats)
  {
    FormatDenotes(sats);
    FormatIsTrimmed(sats);
    ParseIsExact(FormatBtc(sats), sats);
  }

  /** Whatever was typed, its formatted value is one canonical text for the amount. */
  lemma FormatIsCanonical(a: string, b: string, sats: nat)
    requires ParseBtc(a) == Ok(sats)
    ensures ParseBtc(FormatBtc(sats)) == Ok(sats)
    ensures ParseBtc(b) == Ok(sats) ==> FormatBtc(ParseBtc(a).value) == FormatBtc(ParseBtc(b).value)
    ensures ParseBtc(b).Ok? && FormatBtc(ParseBtc(b).value) == FormatBtc(sats) ==> ParseBtc(b) == Ok(sats)
  {
    ParseIsExact(a, sats);
    ParseInvertsFormat(sats);
    if ParseBtc(b).Ok? {
      ParseIsExact(b, ParseBtc(b).value);
      ParseInvertsFormat(ParseBtc(b).value);
    }
  }

  // ---- Fee rates ----

  function ParseFeeRate(input: string): Result<nat, Psbts.Error> {
    var sats :- ParseBtc(input);
    if sats == 0 || sats > 1000 * COIN then Failed() else Ok((sats + RATE_UNIT - 1) / RATE_UNIT)
  }

  function FormatFeeRate(rate: nat): string {
    FormatBtc(if rate * RATE_UNIT <= MAX_U64 then rate * RATE_UNIT else MAX_U64)
  }

  /** The accepted rate is the least one that does not pay less than was typed. */
  lemma FeeRateNeverRoundsDown(input: string, rate: nat)
    requires ParseFeeRate(input) == Ok(rate)
    ensures 1 <= rate <= 250_000
    ensures var typed := ParseBtc(input).value;
      rate * RATE_UNIT >= typed && forall less: nat :: less < rate ==> less * RATE_UNIT < typed
  {
  }

  /** A rate is accepted exactly from a readable amount above zero and up to 1000 sat/vB, which is 250 sat/kwu each. */
  lemma FeeRateIsExact(input: string)
    ensures ParseFeeRate(input).Ok? <==> ParseBtc(input).Ok? && 1 <= ParseBtc(input).value <= 100_000_000_000
    ensures ParseFeeRate(input).Ok? ==>
      400_000 * (ParseFeeRate(input).value - 1) < ParseBtc(input).value <= 400_000 * ParseFeeRate(input).value
  {
    hide ParseBtc;
  }

  lemma FeeRateRoundTrips(rate: nat)
    requires 1 <= rate <= 250_000
    ensures ParseFeeRate(FormatFeeRate(rate)) == Ok(rate)
  {
    ParseInvertsFormat(rate * RATE_UNIT);
    hide ParseBtc, FormatBtc;
  }

  /** Formatting and parsing again is stable: a displayed rate is the rate in use. */
  lemma FeeRateDisplayIsStable(input: string, rate: nat)
    requires ParseFeeRate(input) == Ok(rate)
    ensures ParseFeeRate(FormatFeeRate(rate)) == Ok(rate)
  {
    FeeRateNeverRoundsDown(input, rate);
    FeeRateRoundTrips(rate);
  }
}
