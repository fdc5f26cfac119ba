/** Decimal numerals, as JavaScript prints non-negative integers and reads them back. */
module Numerals {
  predicate IsDigit(c: char) {
    '0' <= c <= '9'
  }

  function DigitChar(d: nat): (c: char)
    requires d < 10
    ensures IsDigit(c)
  {
    '0' + d as char
  }

  function DigitValue(c: char): (d: nat)
    requires IsDigit(c)
    ensures d < 10 && DigitChar(d) == c
  {
    (c - '0') as nat
  }

  predicate AllDigits(s: string) {
    forall i | 0 <= i < |s| :: IsDigit(s[i])
  }

  /** The shortest numeral of `n`. */
  function Decimal(n: nat): (s: string)
    ensures s != "" && AllDigits(s)
  {
    (if n < 10 then "" else Decimal(n / 10)) + [DigitChar(n % 10)]
  }

  function DecimalValue(s: string): nat
    requires AllDigits(s)
  {
    if s == "" then 0 else 10 * DecimalValue(s[..|s| - 1]) + DigitValue(s[|s| - 1])
  }

  lemma {:induction false} DecimalRoundTrip(n: nat)
    ensures DecimalValue(Decimal(n)) == n
  {
    var s := Decimal(n);
    assert s[|s| - 1] == DigitChar(n % 10);
    if n < 10 {
      assert s[..|s| - 1] == "";
    } else {
      assert s[..|s| - 1] == Decimal(n / 10);
      DecimalRoundTrip(n / 10);
    }
  }
}

/** `timePeriodToInteger`: the day count in front of the first "D" of a time period. */
module TimePeriods {
  import opened Numerals

  datatype Parsed =
    | Days(days: nat)
    | BadFormat                // no "D", or nothing in front of it
    | NotPositive              // the number in front of it is 0
    | NotANumeral(text: string) // handed to `Number()`, which is not part of this model

  function IndexOf(s: string, c: char): (i: int)
    ensures -1 <= i < |s|
    ensures i == -1 ==> c !in s
    ensures i >= 0 ==> s[i] == c && forall k | 0 <= k < i :: s[k] != c
  {
    if s == "" then -1
    else if s[0] == c then 0
    else
      var rest := IndexOf(s[1..], c);
      if rest == -1 then -1 else
        assert forall k | 0 < k <= rest :: s[k] == s[1..][k - 1];
        rest + 1
  }

  function TimePeriodToInteger(timePeriod: string): Parsed {
    var end := IndexOf(timePeriod, 'D');
    if end == -1 || end == 0 then BadFormat
    else
      var text := timePeriod[..end];
      if !AllDigits(text) then NotANumeral(text)
      else if DecimalValue(text) == 0 then NotPositive
      else Days(DecimalValue(text))
  }

  lemma IndexOfFirst(a: string, c: char, b: string)
    requires c !in a
    ensures IndexOf(a + [c] + b, c) == |a|
    ensures (a + [c] + b)[..|a|] == a
  {
    var s := a + [c] + b;
    var i := IndexOf(s, c);
    assert s[|a|] == c;
    assert forall k | 0 <= k < |a| :: s[k] == a[k];
  }

  /** Whatever follows the first "D" is ignored; a positive numeral in front of it is read back exactly. */
  lemma TimePeriodRoundTrip(n: nat, suffix: string)
    ensures TimePeriodToInteger(Decimal(n) + "D" + suffix) == if n == 0 then NotPositive else Days(n)
  {
    DecimalRoundTrip(n);
    IndexOfFirst(Decimal(n), 'D', suffix);
  }

  /** Which period strings are refused, and for which reason. */
  lemma TimePeriodRejects(s: string)
    ensures TimePeriodToInteger(s) == BadFormat <==> 'D' !in s || s[0] == 'D'
    ensures TimePeriodToInteger(s) == NotPositive <==>
            exists z: string, rest: string :: s == z + "D" + rest && z != "" && forall i | 0 <= i < |z| :: z[i] == '0'
  {
    var end := IndexOf(s, 'D');
    if end > 0 {
      var text := s[..end];
      assert s == text + "D" + s[end + 1..];
      if AllDigits(text) {
        ZeroNumeral(text);
      }
      forall z: string, rest: string | s == z + "D" + rest && z != "" && forall i | 0 <= i < |z| :: z[i] == '0'
        ensures text == z
      {
        IndexOfFirst(z, 'D', rest);
      }
    }
  }

  lemma {:induction false} ZeroNumeral(s: string)
    requires AllDigits(s)
    ensures DecimalValue(s) == 0 <==> forall i | 0 <= i < |s| :: s[i] == '0'
  {
    if s != "" {
      ZeroNumeral(s[..|s| - 1]);
      assert forall i | 0 <= i < |s| - 1 :: s[..|s| - 1][i] == s[i];
      assert DigitChar(0) == '0';
    }
  }
}
