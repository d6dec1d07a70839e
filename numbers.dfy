/**
 * Reading the numerals of a strategy text: `strconv.Atoi` for a bet's value
 * (main.go:68) and `strconv.ParseFloat` for bankrolls and amounts
 * (main.go:56, 72), both restricted to plain decimal notation and read
 * into exact integers and reals.  What the formatters write reads back as
 * the value written.
 */
module Numbers {
  import opened Wrappers
  import Text

  predicate IsDigit(c: char) {
    '0' <= c <= '9'
  }

  predicate AllDigits(s: string) {
    forall k :: 0 <= k < |s| ==> IsDigit(s[k])
  }

  function DigitValue(c: char): (d: nat)
    requires IsDigit(c)
  {
    c as int - '0' as int
  }

  function DigitChar(d: nat): (c: char)
    requires d < 10
    ensures IsDigit(c) && DigitValue(c) == d
  {
    ('0' as int + d) as char
  }

  /** The number a string of decimal digits denotes, most significant digit first. */
  function DigitsValue(s: string): nat
    requires AllDigits(s)
  {
    if |s| == 0 then 0 else 10 * DigitsValue(s[..|s| - 1]) + DigitValue(s[|s| - 1])
  }

  /** The text after one optional leading sign. */
  function Unsigned(s: string): (m: string)
    ensures |m| <= |s|
  {
    if |s| > 0 && (s[0] == '+' || s[0] == '-') then s[1..] else s
  }

  predicate IsNegative(s: string) {
    |s| > 0 && s[0] == '-'
  }

  /** `strconv.Atoi` on decimal numerals: an optional sign followed by one or more digits. */
  function ParseInt(s: string): (r: Option<int>)
    ensures r.Some? <==> |Unsigned(s)| > 0 && AllDigits(Unsigned(s))
    ensures r.Some? && r.value < 0 ==> IsNegative(s)
    ensures r.Some? && !IsNegative(s) ==> r.value >= 0
  {
    var m := Unsigned(s);
    if |m| > 0 && AllDigits(m) then
      var magnitude: int := DigitsValue(m);
      Some(if IsNegative(s) then -magnitude else magnitude)
    else
      None
  }

  /**
   * Decimal notation as `strconv.ParseFloat` accepts it without exponent:
   * an optional sign, then digits with at most one decimal point and at
   * least one digit.
   */
  ghost predicate IsDecimalText(s: string) {
    var m := Unsigned(s);
    || (|m| > 0 && AllDigits(m))
    || (exists k :: 0 <= k < |m| && m[k] == '.' && AllDigits(m[..k]) && AllDigits(m[k + 1..]) && |m| > 1)
  }

  /** `strconv.ParseFloat` on decimal notation, read exactly. */
  function ParseDecimal(s: string): (r: Option<real>)
    ensures ParseInt(s).Some? ==> r == Some(ParseInt(s).value as real)
    ensures r.Some? && r.value < 0.0 ==> IsNegative(s)
    ensures r.Some? && !IsNegative(s) ==> r.value >= 0.0
  {
    var m := Unsigned(s);
    assert AllDigits(m) ==> '.' !in m by {
      if AllDigits(m) {
        forall k | 0 <= k < |m| ensures m[k] != '.' { assert IsDigit(m[k]); }
      }
    }
    match UnsignedDecimal(Unsigned(s))
    case None => None
    case Some(magnitude) => Some(if IsNegative(s) then -magnitude else magnitude)
  }

  /** The value of digits with at most one decimal point, at least one digit. */
  function UnsignedDecimal(m: string): Option<real> {
    var parts := Text.Split(m, '.');
    var whole := parts[0];
    var fraction := if |parts| == 2 then parts[1] else "";
    if |parts| <= 2 && AllDigits(whole) && AllDigits(fraction) && |whole| + |fraction| > 0 then
      Some(Magnitude(whole, fraction))
    else
      None
  }

  /** The number the digits before and after a decimal point denote. */
  function Magnitude(whole: string, fraction: string): (r: real)
    requires AllDigits(whole) && AllDigits(fraction)
    ensures DigitsValue(whole) as real <= r < DigitsValue(whole) as real + 1.0
  {
    DigitsValue(whole) as real + FractionValue(fraction)
  }

  /** The value of the digits after a decimal point: the first counts tenths, the next hundredths, and so on. */
  function FractionValue(fraction: string): (r: real)
    requires AllDigits(fraction)
    ensures 0.0 <= r < 1.0
  {
    if |fraction| == 0 then 0.0 else (DigitValue(fraction[0]) as real + FractionValue(fraction[1..])) / 10.0
  }

  /** `ParseDecimal` accepts exactly the decimal notation `IsDecimalText` describes. */
  lemma ParseDecimalAccepts(s: string)
    ensures ParseDecimal(s).Some? <==> IsDecimalText(s)
  {
    var m := Unsigned(s);
    var parts := Text.Split(m, '.');
    if |parts| == 1 {
      NoPointAccepted(m);
    } else if |parts| == 2 {
      OnePointAccepted(m);
    } else {
      ManyPointsRejected(m);
    }
  }

  lemma NoPointAccepted(m: string)
    requires |Text.Split(m, '.')| == 1
    ensures UnsignedDecimal(m).Some? <==> |m| > 0 && AllDigits(m)
    ensures forall k :: 0 <= k < |m| ==> m[k] != '.'
  {
    var parts := Text.Split(m, '.');
    Text.SplitPieces(m, '.');
    assert parts[0] == m;
    forall k | 0 <= k < |m|
      ensures m[k] != '.'
    {
      assert m[k] in parts[0];
    }
  }

  lemma OnePointAccepted(m: string)
    requires |Text.Split(m, '.')| == 2
    ensures UnsignedDecimal(m).Some? <==>
      exists k :: 0 <= k < |m| && m[k] == '.' && AllDigits(m[..k]) && AllDigits(m[k + 1..]) && |m| > 1
    ensures !AllDigits(m)
  {
    var parts := Text.Split(m, '.');
    Text.SplitPieces(m, '.');
    var k := |parts[0]|;
    assert Text.Join(parts[1..], '.') == parts[1];
    assert m == parts[0] + ['.'] + parts[1];
    assert m[k] == '.' && m[..k] == parts[0] && m[k + 1..] == parts[1];
  }

  lemma ManyPointsRejected(m: string)
    requires |Text.Split(m, '.')| > 2
    ensures UnsignedDecimal(m).None?
    ensures !AllDigits(m)
    ensures forall k :: 0 <= k < |m| && m[k] == '.' ==> !AllDigits(m[..k]) || !AllDigits(m[k + 1..])
  {
    forall k | 0 <= k < |m| && m[k] == '.' && AllDigits(m[..k]) && AllDigits(m[k + 1..])
      ensures false
    {
      PointBetweenDigits(m, k);
    }
    if AllDigits(m) {
      DigitsHaveNoPoint(m);
      Text.SplitWithoutSeparator(m, '.');
    }
  }

  lemma DigitsHaveNoPoint(d: string)
    requires AllDigits(d)
    ensures '.' !in d
  {
  }

  lemma PointBetweenDigits(m: string, k: nat)
    requires k < |m| && m[k] == '.' && AllDigits(m[..k]) && AllDigits(m[k + 1..])
    ensures Text.Split(m, '.') == [m[..k], m[k + 1..]]
  {
    DigitsHaveNoPoint(m[..k]);
    DigitsHaveNoPoint(m[k + 1..]);
    assert Text.Join([m[..k], m[k + 1..]], '.') == m[..k] + ['.'] + m[k + 1..];
    assert m == m[..k] + ['.'] + m[k + 1..];
    Text.SplitJoin([m[..k], m[k + 1..]], '.');
  }

  /** `x` times ten to the power `places`: the decimal point moved `places` digits to the right. */
  function Shifted(x: real, places: nat): real {
    if places == 0 then x else 10.0 * Shifted(x, places - 1)
  }

  lemma {:induction false} ShiftedAdd(a: real, b: real, places: nat)
    ensures Shifted(a + b, places) == Shifted(a, places) + Shifted(b, places)
  {
    if places > 0 {
      ShiftedAdd(a, b, places - 1);
    }
  }

  lemma {:induction false} ShiftedNegate(x: real, places: nat)
    ensures Shifted(-x, places) == -Shifted(x, places)
  {
    if places > 0 {
      ShiftedNegate(x, places - 1);
    }
  }

  lemma {:induction false} ShiftedTenth(x: real, places: nat)
    ensures Shifted(x / 10.0, places + 1) == Shifted(x, places)
  {
    if places > 0 {
      ShiftedTenth(x, places - 1);
    }
  }

  lemma AllDigitsAppend(high: string, low: string)
    requires AllDigits(high) && AllDigits(low)
    ensures AllDigits(high + low)
  {
    var s := high + low;
    forall k | 0 <= k < |s|
      ensures IsDigit(s[k])
    {
      if k < |high| { assert s[k] == high[k]; } else { assert s[k] == low[k - |high|]; }
    }
  }

  /** Digits written after others shift those others up by one decimal place each. */
  lemma {:induction false} DigitsValueAppend(high: string, low: string)
    requires AllDigits(high) && AllDigits(low)
    ensures AllDigits(high + low)
    ensures DigitsValue(high + low) as real == Shifted(DigitsValue(high) as real, |low|) + DigitsValue(low) as real
    decreases |low|
  {
    AllDigitsAppend(high, low);
    if |low| == 0 {
      assert high + low == high;
    } else {
      var front, last := low[..|low| - 1], low[|low| - 1];
      var s := high + low;
      assert s[..|s| - 1] == high + front && s[|s| - 1] == last;
      DigitsValueAppend(high, front);
    }
  }

  /**
   * The digits after a decimal point, with the point moved past all of them,
   * are the number those digits spell: `Shifted(FractionValue("125"), 3) == 125`.
   */
  lemma {:induction false} FractionScaled(fraction: string)
    requires AllDigits(fraction)
    ensures Shifted(FractionValue(fraction), |fraction|) == DigitsValue(fraction) as real
    decreases |fraction|
  {
    if |fraction| > 0 {
      var first, rest := fraction[0], fraction[1..];
      var d := DigitValue(first) as real;
      FractionScaled(rest);
      assert fraction == [first] + rest && [first][..0] == [];
      DigitsValueAppend([first], rest);
      ShiftedTenth(d + FractionValue(rest), |rest|);
      ShiftedAdd(d, FractionValue(rest), |rest|);
    }
  }

  /** Moving the point past the fraction digits turns a magnitude into the number all its digits spell. */
  lemma MagnitudeScaled(whole: string, fraction: string)
    requires AllDigits(whole) && AllDigits(fraction)
    ensures AllDigits(whole + fraction)
    ensures Shifted(Magnitude(whole, fraction), |fraction|) == DigitsValue(whole + fraction) as real
  {
    DigitsValueAppend(whole, fraction);
    FractionScaled(fraction);
    ShiftedAdd(DigitsValue(whole) as real, FractionValue(fraction), |fraction|);
  }

  /**
   * The value of a numeral with a decimal point: moving the point past the
   * fraction digits gives all its digits read as one whole number, negated
   * under a minus sign.  So `"2.5"` reads as 2.5 because 25 is 2.5 moved one
   * place, `"-0.125"` as -0.125, `".5"` as 0.5 and `"7."` as 7.
   */
  lemma {:induction false} ParseDecimalPointed(sign: string, whole: string, fraction: string)
    requires sign == "" || sign == "+" || sign == "-"
    requires AllDigits(whole) && AllDigits(fraction) && |whole| + |fraction| > 0
    ensures AllDigits(whole + fraction)
    ensures ParseDecimal(sign + whole + "." + fraction).Some?
    ensures var digits := DigitsValue(whole + fraction) as real;
      Shifted(ParseDecimal(sign + whole + "." + fraction).value, |fraction|) == if sign == "-" then -digits else digits
  {
    var magnitude := Magnitude(whole, fraction);
    ParseDecimalOfPieces(sign, whole, fraction);
    MagnitudeScaled(whole, fraction);
    if sign == "-" {
      ShiftedNegate(magnitude, |fraction|);
    }
  }

  /** A numeral with a point reads as the magnitude of its digits around the point, negated under a minus sign. */
  lemma ParseDecimalOfPieces(sign: string, whole: string, fraction: string)
    requires sign == "" || sign == "+" || sign == "-"
    requires AllDigits(whole) && AllDigits(fraction) && |whole| + |fraction| > 0
    ensures var magnitude := Magnitude(whole, fraction);
      ParseDecimal(sign + whole + "." + fraction) == Some(if sign == "-" then -magnitude else magnitude)
  {
    var s := sign + whole + "." + fraction;
    assert Unsigned(s) == whole + "." + fraction;
    assert IsNegative(s) <==> sign == "-";
    UnsignedDecimalOfPieces(whole, fraction);
  }

  /** The canonical digits of a natural number, without leading zeros. */
  function FormatNatural(n: nat): (s: string)
    ensures |s| > 0 && AllDigits(s)
    ensures DigitsValue(s) == n
    ensures |s| > 1 ==> s[0] != '0'
  {
    if n < 10 then
      [DigitChar(n)]
    else
      var s := FormatNatural(n / 10) + [DigitChar(n % 10)];
      assert s[..|s| - 1] == FormatNatural(n / 10);
      s
  }

  /** An integer as `strconv.Itoa` writes it: a minus sign for negatives, then its digits. */
  function FormatInt(n: int): (s: string)
    ensures |s| > 0 && IsDigit(s[|s| - 1])
    ensures forall k :: 0 <= k < |s| ==> IsDigit(s[k]) || s[k] == '-'
  {
    if n < 0 then "-" + FormatNatural(-n) else FormatNatural(n)
  }

  /**
   * A number of hundredths written with two decimals, as a strategy
   * author would type a dollar amount: `-12.05`, `100.00`.
   */
  function FormatCents(c: int): (s: string)
    ensures |s| > 0 && IsDigit(s[|s| - 1])
    ensures forall k :: 0 <= k < |s| ==> IsDigit(s[k]) || s[k] == '-' || s[k] == '.'
  {
    var digits := CentsDigits(if c < 0 then -c else c);
    if c < 0 then "-" + digits else digits
  }

  /** Reading back a formatted integer gives the integer. */
  lemma ParseIntFormatInt(n: int)
    ensures ParseInt(FormatInt(n)) == Some(n)
  {
    var s := FormatInt(n);
    if n < 0 {
      assert Unsigned(s) == FormatNatural(-n);
    } else {
      assert Unsigned(s) == FormatNatural(n);
    }
  }

  /** An integer numeral, read as a decimal, denotes the same number. */
  lemma ParseDecimalOfInteger(s: string, n: int)
    requires ParseInt(s) == Some(n)
    ensures ParseDecimal(s) == Some(n as real)
  {
    var m := Unsigned(s);
    assert '.' !in m by {
      forall k | 0 <= k < |m| ensures m[k] != '.' { assert IsDigit(m[k]); }
    }
    Text.SplitWithoutSeparator(m, '.');
  }

  /** Two digits after the point denote their number of hundredths. */
  lemma TwoDigits(r: nat)
    requires r < 100
    ensures var fraction := [DigitChar(r / 10), DigitChar(r % 10)];
            AllDigits(fraction) && FractionValue(fraction) == r as real / 100.0
  {
    var fraction := [DigitChar(r / 10), DigitChar(r % 10)];
    assert fraction[1..] == [DigitChar(r % 10)] && fraction[1..][1..] == [];
    assert FractionValue(fraction[1..]) == (r % 10) as real / 10.0;
    assert r == 10 * (r / 10) + r % 10;
  }

  lemma CentsMagnitude(n: nat)
    ensures AllDigits(CentsFraction(n))
    ensures Magnitude(FormatNatural(n / 100), CentsFraction(n)) == n as real / 100.0
  {
    TwoDigits(n % 100);
    assert n == 100 * (n / 100) + n % 100;
  }

  /** The two digits after the point of an amount of `n` hundredths. */
  function CentsFraction(n: nat): string {
    var cents := n % 100;
    [DigitChar(cents / 10), DigitChar(cents % 10)]
  }

  lemma UnsignedDecimalOfPieces(whole: string, fraction: string)
    requires AllDigits(whole) && AllDigits(fraction) && |whole| + |fraction| > 0
    ensures UnsignedDecimal(whole + "." + fraction) == Some(Magnitude(whole, fraction))
  {
    var m := whole + "." + fraction;
    assert m[..|whole|] == whole && m[|whole| + 1..] == fraction;
    PointBetweenDigits(m, |whole|);
    var parts := Text.Split(m, '.');
    assert |parts| == 2 && parts[0] == whole && parts[1] == fraction;
  }

  /** The unsigned digits `FormatCents` writes for `n` hundredths. */
  function CentsDigits(n: nat): string {
    FormatNatural(n / 100) + "." + CentsFraction(n)
  }

  lemma CentsDigitsValue(n: nat)
    ensures UnsignedDecimal(CentsDigits(n)) == Some(n as real / 100.0)
  {
    CentsMagnitude(n);
    UnsignedDecimalOfPieces(FormatNatural(n / 100), CentsFraction(n));
  }

  lemma FormatCentsSign(c: int)
    ensures Unsigned(FormatCents(c)) == CentsDigits(if c < 0 then -c else c)
    ensures IsNegative(FormatCents(c)) <==> c < 0
  {
    var digits := CentsDigits(if c < 0 then -c else c);
    assert IsDigit(digits[0]);
  }

  /** Reading back an amount written in hundredths gives the amount. */
  lemma ParseDecimalFormatCents(c: int)
    ensures ParseDecimal(FormatCents(c)) == Some(c as real / 100.0)
  {
    var n := if c < 0 then -c else c;
    FormatCentsSign(c);
    CentsDigitsValue(n);
  }
}
