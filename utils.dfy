/** The conversions that feed a buy (a fixed USD to EUR rate, shares as
    amount over NAV) and the signed percentage label. Numbers are exact
    reals. */
module Utils {
  import opened Wrappers
  import opened Text

  /** The fixed exchange rate: one US dollar buys 0.85 euro. */
  const EurPerUsd: real := 0.85

  /** `convertUsdToEur`: a euro amount that is 85% of the dollar amount,
      so never larger in size and of the same sign. */
  function ConvertUsdToEur(usdAmount: real): (eur: real)
    ensures eur / EurPerUsd == usdAmount
    ensures usdAmount >= 0.0 ==> 0.0 <= eur <= usdAmount
    ensures usdAmount < 0.0 ==> usdAmount < eur < 0.0
  {
    usdAmount * EurPerUsd
  }

  /** Converting a sum is summing the conversions. */
  lemma ConvertAdditive(a: real, b: real)
    ensures ConvertUsdToEur(a + b) == ConvertUsdToEur(a) + ConvertUsdToEur(b)
  {
  }

  /** Nothing converts to nothing, and more dollars give more euros. */
  lemma ConvertMonotone(a: real, b: real)
    ensures ConvertUsdToEur(0.0) == 0.0
    ensures a < b ==> ConvertUsdToEur(a) < ConvertUsdToEur(b)
  {
  }

  /** `calculateShares`: the number of shares `amount` buys at price
      `nav`; the shares at that price are worth the amount again. */
  function CalculateShares(amount: real, nav: real): (shares: real)
    requires nav != 0.0
    ensures shares * nav == amount
  {
    amount / nav
  }

  /** At a positive price, more money buys strictly more shares, and a
      positive amount buys a positive number of them. */
  lemma {:induction false} SharesMonotone(a: real, b: real, nav: real)
    requires nav > 0.0
    ensures a < b ==> CalculateShares(a, nav) < CalculateShares(b, nav)
    ensures a > 0.0 ==> CalculateShares(a, nav) > 0.0
  {
    var sa, sb := CalculateShares(a, nav), CalculateShares(b, nav);
    if a < b {
      assert sb * nav - sa * nav == (sb - sa) * nav;
    }
    if a > 0.0 {
      assert sa * nav > 0.0;
    }
  }

  function Abs(x: real): real { if x < 0.0 then -x else x }

  /** The integer nearest to `m`, halves rounded up: the `n` that
      `toFixed` picks ("if there are two such n, pick the larger n"). */
  function RoundHalfUp(m: real): (n: int)
    ensures n as real - 0.5 <= m < n as real + 0.5
  {
    (m + 0.5).Floor
  }

  /** `x.toFixed(1)`: a minus sign for a negative number, then the
      magnitude rounded to tenths as whole digits, a point and one digit. */
  function ToFixed1(x: real): (s: string)
    requires Abs(x) < 1000000000000000000000.0
    ensures |s| >= 3 && s[|s| - 2] == '.' && IsDigit(s[|s| - 1])
    ensures (s[0] == '-') <==> x < 0.0
    ensures x >= 0.0 ==> IsDigit(s[0])
  {
    var tenths := RoundHalfUp(Abs(x) * 10.0);
    assert tenths >= 0;
    var digits := NatToString(tenths / 10) + "." + [DigitChar(tenths % 10)];
    if x < 0.0 then "-" + digits else digits
  }

  /** `value.toFixed(1)` with `+` in front of a non-negative value and `%`
      behind. */
  function FormatPercentage(value: real): (r: string)
    requires Abs(value) < 1000000000000000000000.0
    ensures |r| >= 4 && r[|r| - 1] == '%' && r[|r| - 3] == '.' && IsDigit(r[|r| - 2])
    ensures (r[0] == '+') <==> value >= 0.0
    ensures (r[0] == '-') <==> value < 0.0
    ensures forall i :: 1 <= i < |r| ==> r[i] != '+' && r[i] != '-'
  {
    (if value >= 0.0 then "+" else "") + ToFixed1(value) + "%"
  }

  /** Reads a label `[+|-]digits.digit%` back as the number it shows. */
  function ReadPercentage(r: string): (v: Option<real>)
  {
    if |r| < 4 || r[|r| - 1] != '%' || r[|r| - 3] != '.' then None
    else
      var signed := r[..|r| - 3];
      var whole := if signed != [] && (signed[0] == '+' || signed[0] == '-') then signed[1..] else signed;
      var tenths := whole + [r[|r| - 2]];
      if whole == [] || !AllDigits(tenths) then None
      else
        var size := DecimalValue(tenths) as real / 10.0;
        Some(if signed[0] == '-' then -size else size)
  }

  /** `x` lies in the half-open tenth around `w` that rounds to `w`: halves
      go away from zero, as `toFixed` rounds the magnitude. */
  ghost predicate RoundsTo(x: real, w: real)
  {
    && (x >= 0.0 ==> w - 0.05 <= x < w + 0.05)
    && (x < 0.0 ==> w - 0.05 < x <= w + 0.05)
  }

  /** A label built from a sign, whole digits and one decimal digit reads
      back as the signed number of tenths they spell. */
  lemma ReadLabel(sign: char, whole: string, d: char)
    requires sign == '+' || sign == '-'
    requires whole != [] && AllDigits(whole) && IsDigit(d)
    ensures AllDigits(whole + [d])
    ensures var size := DecimalValue(whole + [d]) as real / 10.0;
      ReadPercentage([sign] + whole + "." + [d] + "%") == Some(if sign == '-' then -size else size)
  {
    var r := [sign] + whole + "." + [d] + "%";
    assert r[..|r| - 3] == [sign] + whole;
    assert ([sign] + whole)[1..] == whole;
    assert r[|r| - 2] == d && r[|r| - 3] == '.' && r[|r| - 1] == '%';
  }

  /** The label reads back as the value rounded to one decimal. */
  lemma FormatPercentageReadsBack(value: real)
    requires Abs(value) < 1000000000000000000000.0
    ensures ReadPercentage(FormatPercentage(value)).Some?
    ensures RoundsTo(value, ReadPercentage(FormatPercentage(value)).value)
  {
    var tenths := RoundHalfUp(Abs(value) * 10.0);
    var whole := NatToString(tenths / 10);
    var d := DigitChar(tenths % 10);
    var sign := if value >= 0.0 then '+' else '-';
    assert FormatPercentage(value) == [sign] + whole + "." + [d] + "%";
    ReadLabel(sign, whole, d);
    assert DecimalValue(whole + [d]) == tenths by {
      assert (whole + [d])[..|whole + [d]| - 1] == whole;
    }
  }
}
