/** `calculatePercentageChange`: the change from `previous` to `current` as
    a signed whole percentage such as "+12%" or "-3%". */
module Percentage {
  import opened Wrappers
  import opened Numbers
  import opened Text

  /** `Math.round((current - previous) / previous * 100)`. */
  function RoundedChange(current: real, previous: real): int
    requires previous != 0.0
  {
    RoundHalfUp((current - previous) / previous * 100.0)
  }

  /** A whole percentage with an explicit "+" on every non-negative value. */
  function FormatChange(rounded: int): string {
    (if rounded >= 0 then "+" else "") + IntToString(rounded) + "%"
  }

  /** "+0%" when `previous` is 0. Otherwise a sign, a whole number and "%",
      where the number `parseInt` reads back is within half a percent of the
      exact change and the sign is "+" exactly when the change is at least -0.5%. */
  function PercentageChange(current: real, previous: real): (s: string)
    ensures previous == 0.0 ==> s == "+0%"
    ensures |s| >= 3 && s[|s| - 1] == '%' && ParseInt(s).Some?
    ensures previous != 0.0 ==>
      var change := (current - previous) / previous * 100.0;
      && change - 0.5 < ParseInt(s).value as real <= change + 0.5
      && (s[0] == '+' <==> change >= -0.5)
      && (s[0] == '-' <==> change < -0.5)
  {
    if previous == 0.0 then
      FormatChangeFacts(0);
      "+0%"
    else
      var rounded := RoundedChange(current, previous);
      FormatChangeFacts(rounded);
      FormatChange(rounded)
  }

  /** The text starts with "+" exactly for a non-negative change and with "-" otherwise, ends with "%",
      and reading its number back gives the rounded change. */
  lemma FormatChangeFacts(rounded: int)
    ensures var s := FormatChange(rounded);
      && |s| >= 3 && s[|s| - 1] == '%'
      && (s[0] == '+' <==> rounded >= 0)
      && (s[0] == '-' <==> rounded < 0)
      && ParseInt(s) == Some(rounded)
  {
    var sign := if rounded >= 0 then '+' else '-';
    var n: nat := if rounded < 0 then -rounded else rounded;
    assert FormatChange(rounded) == [sign] + NatToString(n) + "%";
    ParseSigned(sign, n);
  }

  /** `parseInt` reads a signed rendering followed by "%" up to the "%". */
  lemma ParseSigned(sign: char, n: nat)
    requires sign == '+' || sign == '-'
    ensures ParseInt([sign] + NatToString(n) + "%") == Some(if sign == '-' then -(n as int) else n as int)
  {
    var s := [sign] + NatToString(n) + "%";
    assert s[0] == sign && s[1..] == NatToString(n) + "%";
    MagnitudeBeforePercent(n);
    ParseSignedMagnitude(s, n);
  }

  /** A sign followed by a magnitude `parseInt` reads as `n`. */
  lemma ParseSignedMagnitude(s: string, n: nat)
    requires |s| >= 1 && (s[0] == '+' || s[0] == '-')
    requires ParseMagnitude(s[1..]) == Some(n)
    ensures ParseInt(s) == Some(if s[0] == '-' then -(n as int) else n as int)
  {
    TrimStartOfNonSpace(s);
  }

  lemma MagnitudeBeforePercent(n: nat)
    ensures ParseMagnitude(NatToString(n) + "%") == Some(n)
  {
    var digits := NatToString(n);
    var u := digits + "%";
    assert !(|u| >= 2 && u[0] == '0' && (u[1] == 'x' || u[1] == 'X')) by {
      if |u| >= 2 && u[0] == '0' {
        assert digits == "0";
        assert u[1] == '%';
      }
    }
    LeadingDigitsPrefix(digits, "%");
    NatToStringValue(n);
  }

  lemma {:induction false} LeadingDigitsPrefix(digits: string, rest: string)
    requires forall i :: 0 <= i < |digits| ==> IsDigit(digits[i])
    requires rest != [] && DigitValue(rest[0]) >= 10
    ensures LeadingDigits(digits + rest, 10) == digits
    decreases |digits|
  {
    if digits != [] {
      assert (digits + rest)[1..] == digits[1..] + rest;
      LeadingDigitsPrefix(digits[1..], rest);
      assert [digits[0]] + digits[1..] == digits;
    } else {
      assert digits + rest == rest;
    }
  }

  /** A value equal to the previous one, and no previous value at all, both give "+0%". */
  lemma NoChangeIsPlusZero(v: real, previous: real)
    ensures PercentageChange(v, 0.0) == "+0%"
    ensures previous != 0.0 ==> PercentageChange(previous, previous) == "+0%"
  {
    assert FormatChange(0) == "+0%";
    if previous != 0.0 {
      assert (previous - previous) / previous * 100.0 == 0.0;
      assert RoundedChange(previous, previous) == 0;
    }
  }

  /** The number shown is within half a percent of the exact change, and its
      sign is "+" exactly when the change is at least -0.5%. */
  lemma ChangeWithinHalfPercent(current: real, previous: real)
    requires previous != 0.0
    ensures var change := (current - previous) / previous * 100.0;
      var rounded := RoundedChange(current, previous);
      && change - 0.5 < rounded as real <= change + 0.5
      && (PercentageChange(current, previous)[0] == '+' <==> change >= -0.5)
  {
    FormatChangeFacts(RoundedChange(current, previous));
  }
}
