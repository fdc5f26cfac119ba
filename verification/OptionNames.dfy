/** Option symbols such as "ETH-1APR22-1500-P", and the substring test by which V1 picks the entries
    of one expiry out of a book that is never cleared. */
module OptionNames {
  import opened Instants
  import opened MarketData
  import opened Numerals
  import opened CivilDates

  type Strike = k: nat | k > 0 witness 1

  /** The four parts `split("-")` finds in a symbol. */
  datatype Symbol = Symbol(asset: string, expiry: Date, strike: Strike, kind: OptionType)

  predicate IsUpper(c: char) {
    'A' <= c <= 'Z'
  }

  predicate AllUpper(s: string) {
    forall i | 0 <= i < |s| :: IsUpper(s[i])
  }

  function MonthName(month: nat): (s: string)
    ensures |s| == 3 && AllUpper(s)
  {
    match month
    case 1 => "JAN" case 2 => "FEB" case 3 => "MAR" case 4 => "APR"
    case 5 => "MAY" case 6 => "JUN" case 7 => "JUL" case 8 => "AUG"
    case 9 => "SEP" case 10 => "OCT" case 11 => "NOV" case _ => "DEC"
  }

  function TwoDigits(n: nat): (s: string)
    ensures |s| == 2 && AllDigits(s)
  {
    [DigitChar(n / 10 % 10), DigitChar(n % 10)]
  }

  /** `format("DMMMYY").toUpperCase()`: the day without padding. */
  function DayText(d: Date): string {
    Decimal(d.day) + MonthName(d.month) + TwoDigits(d.year)
  }

  function KindText(kind: OptionType): string {
    if kind == Call then "C" else "P"
  }

  function Text(s: Symbol): string {
    s.asset + "-" + DayText(s.expiry) + "-" + Decimal(s.strike) + "-" + KindText(s.kind)
  }

  predicate IncludesAt(key: string, pattern: string, i: int) {
    0 <= i <= |key| - |pattern| && key[i..i + |pattern|] == pattern
  }

  /** `key.includes(pattern)`. */
  predicate Includes(key: string, pattern: string) {
    exists i | 0 <= i <= |key| :: IncludesAt(key, pattern, i)
  }

  /** A date the two-digit year determines. */
  predicate InCentury(d: Date) {
    IsDate(d) && 2000 <= d.year < 2100
  }

  /** The calendar date of an instant; instants before year 0 count as its first day. */
  function DateAt(t: int): (d: Date)
    ensures IsDate(d)
  {
    var index := t / MS_PER_DAY + EPOCH_DAY;
    DateOf(if index < 0 then 0 else index)
  }

  predicate IsFriday(d: Date) {
    (DayIndex(d) - EPOCH_DAY + 4) % 7 == 5
  }

  lemma FridayDate(t: int)
    requires 0 <= t / MS_PER_DAY + EPOCH_DAY
    ensures IsFriday(DateAt(t)) <==> DayOfWeek(t) == 5
  {
    assert DayIndex(DateAt(t)) == t / MS_PER_DAY + EPOCH_DAY;
  }

  lemma MonthNamesDiffer(m: nat, n: nat)
    requires 1 <= m <= 12 && 1 <= n <= 12 && MonthName(m) == MonthName(n)
    ensures m == n
  {
    var s, t := MonthName(m), MonthName(n);
    assert s[0] == t[0] && s[1] == t[1] && s[2] == t[2];
  }

  lemma TwoDigitsDiffer(y: nat, z: nat)
    requires 2000 <= y < 2100 && 2000 <= z < 2100 && TwoDigits(y) == TwoDigits(z)
    ensures y == z
  {
    assert TwoDigits(y)[0] == TwoDigits(z)[0] && TwoDigits(y)[1] == TwoDigits(z)[1];
    assert DigitValue(DigitChar(y / 10 % 10)) == y / 10 % 10;
  }

  /** The digits of a day number: one below ten, else the tens and the ones. */
  lemma DayDigits(day: nat)
    requires 1 <= day <= 31
    ensures Decimal(day) == if day < 10 then [DigitChar(day)] else [DigitChar(day / 10), DigitChar(day % 10)]
  {
    assert day >= 10 ==> Decimal(day / 10) == [DigitChar(day / 10)];
  }

  lemma DigitsDiffer(a: nat, b: nat)
    requires a < 10 && b < 10
    ensures DigitChar(a) == DigitChar(b) <==> a == b
  {
  }

  /** In a symbol, a letter follows a digit only where the month starts. */
  lemma MonthIsTheOnlySwitch(s: Symbol)
    requires AllUpper(s.asset)
    ensures forall j | 0 < j < |Text(s)| && IsDigit(Text(s)[j - 1]) && IsUpper(Text(s)[j]) ::
              j == |s.asset| + 1 + |Decimal(s.expiry.day)|
  {
    var day, strike := Decimal(s.expiry.day), Decimal(s.strike);
    var head := s.asset + "-" + day;
    var month := MonthName(s.expiry.month);
    var tail := TwoDigits(s.expiry.year) + "-" + strike + "-" + KindText(s.kind);
    assert Text(s) == head + month + tail;
    assert forall j | |s.asset| <= j < |head| :: !IsUpper(head[j]);
    assert forall j | 0 <= j <= |s.asset| :: !IsDigit(head[j]);
    assert forall j | 0 <= j < |tail| - 1 :: !IsUpper(tail[j]);
    assert tail[|tail| - 2] == '-';
  }

  /** Where the parts of the date lie in a symbol. */
  lemma MonthPosition(s: Symbol)
    ensures var q := |s.asset| + 1 + |Decimal(s.expiry.day)|;
      && q + 5 < |Text(s)|
      && Text(s)[q..q + 3] == MonthName(s.expiry.month)
      && Text(s)[q + 3..q + 5] == TwoDigits(s.expiry.year)
      && Text(s)[|s.asset|] == '-'
      && Text(s)[|s.asset| + 1..q] == Decimal(s.expiry.day)
  {
    var head, rest := s.asset + "-", "-" + Decimal(s.strike) + "-" + KindText(s.kind);
    assert Text(s) == head + Decimal(s.expiry.day) + MonthName(s.expiry.month) + TwoDigits(s.expiry.year) + rest;
  }

  /** Exactly which symbols the substring test accepts: same month and year, and a day that is the
      wanted one or, for a one-digit day, merely ends in it. */
  lemma IncludesIff(s: Symbol, d: Date)
    requires AllUpper(s.asset) && InCentury(s.expiry) && InCentury(d)
    ensures Includes(Text(s), DayText(d)) <==>
            && s.expiry.month == d.month && s.expiry.year == d.year
            && (s.expiry.day == d.day || (d.day < 10 && s.expiry.day % 10 == d.day))
  {
    DayDigits(d.day);
    DayDigits(s.expiry.day);
    MonthPosition(s);
    if Includes(Text(s), DayText(d)) {
      IncludedMeansEnds(s, d);
    } else if s.expiry.month == d.month && s.expiry.year == d.year
              && (s.expiry.day == d.day || (d.day < 10 && s.expiry.day % 10 == d.day)) {
      EndsMeansIncluded(s, d);
    }
  }

  lemma EndsMeansIncluded(s: Symbol, d: Date)
    requires s.expiry.month == d.month && s.expiry.year == d.year
    requires |Decimal(d.day)| <= |Decimal(s.expiry.day)|
    requires Decimal(s.expiry.day)[|Decimal(s.expiry.day)| - |Decimal(d.day)|..] == Decimal(d.day)
    ensures Includes(Text(s), DayText(d))
  {
    MonthPosition(s);
    DatePartsIncluded(Text(s), |s.asset| + 1, Decimal(s.expiry.day), Decimal(d.day), MonthName(d.month), TwoDigits(d.year));
  }

  lemma DatePartsIncluded(text: string, from: nat, own: string, wanted: string, month: string, year: string)
    requires |wanted| <= |own| && own[|own| - |wanted|..] == wanted
    requires from + |own| + |month| + |year| <= |text| && text[from..from + |own|] == own
    requires var q := from + |own|; text[q..q + |month|] == month && text[q + |month|..q + |month| + |year|] == year
    ensures Includes(text, wanted + month + year)
  {
    SuffixOfSlice(text, from, own, |own| - |wanted|);
    JoinedParts(text, from + |own| - |wanted|, wanted, month, year);
  }

  lemma SuffixOfSlice(text: string, from: nat, part: string, k: nat)
    requires from + |part| <= |text| && text[from..from + |part|] == part && k <= |part|
    ensures text[from + k..from + |part|] == part[k..]
  {
  }

  lemma JoinedParts(text: string, i: nat, a: string, b: string, c: string)
    requires i + |a| + |b| + |c| <= |text|
    requires text[i..i + |a|] == a && text[i + |a|..i + |a| + |b|] == b && text[i + |a| + |b|..i + |a| + |b| + |c|] == c
    ensures Includes(text, a + b + c)
  {
    assert text[i..i + |a + b + c|] == a + b + c;
    assert IncludesAt(text, a + b + c, i);
  }

  /** The month of an included date lies on the month of the symbol. */
  lemma PatternPosition(s: Symbol, d: Date, i: int)
    requires AllUpper(s.asset) && IncludesAt(Text(s), DayText(d), i)
    ensures i + |Decimal(d.day)| == |s.asset| + 1 + |Decimal(s.expiry.day)|
  {
    var key, pattern, n := Text(s), DayText(d), |Decimal(d.day)|;
    assert forall k | 0 <= k < |pattern| :: key[i + k] == pattern[k];
    assert pattern[n - 1] == Decimal(d.day)[n - 1] && pattern[n] == MonthName(d.month)[0];
    MonthIsTheOnlySwitch(s);
    var j := i + n;
    assert IsDigit(key[j - 1]) && IsUpper(key[j]);
  }

  lemma SliceOfIncluded(key: string, pattern: string, i: int, a: nat, b: nat)
    requires IncludesAt(key, pattern, i) && a <= b <= |pattern|
    ensures key[i + a..i + b] == pattern[a..b]
  {
    var whole := key[i..i + |pattern|];
    assert whole == pattern;
    var left, right := key[i + a..i + b], whole[a..b];
    assert forall k | 0 <= k < b - a :: left[k] == right[k];
  }

  lemma DayTextParts(d: Date)
    ensures var n, text := |Decimal(d.day)|, DayText(d);
      |text| == n + 5 && text[0..n] == Decimal(d.day) && text[n..n + 3] == MonthName(d.month) && text[n + 3..n + 5] == TwoDigits(d.year)
  {
  }

  lemma IncludedMeansEnds(s: Symbol, d: Date)
    requires AllUpper(s.asset) && InCentury(s.expiry) && InCentury(d)
    requires Includes(Text(s), DayText(d))
    ensures s.expiry.month == d.month && s.expiry.year == d.year
    ensures s.expiry.day == d.day || (d.day < 10 && s.expiry.day % 10 == d.day)
  {
    var i :| 0 <= i <= |Text(s)| && IncludesAt(Text(s), DayText(d), i);
    IncludedParts(s, d, i);
    MonthNamesDiffer(s.expiry.month, d.month);
    TwoDigitsDiffer(s.expiry.year, d.year);
    DayDigits(d.day);
    DayStart(s, d, i);
    EndsLike(s.expiry.day, d.day);
  }

  /** The included text lines up with month, year and the end of the day of the symbol. */
  lemma IncludedParts(s: Symbol, d: Date, i: int)
    requires AllUpper(s.asset) && IncludesAt(Text(s), DayText(d), i)
    ensures MonthName(s.expiry.month) == MonthName(d.month) && TwoDigits(s.expiry.year) == TwoDigits(d.year)
    ensures i + |Decimal(d.day)| == |s.asset| + 1 + |Decimal(s.expiry.day)| <= |Text(s)|
    ensures Text(s)[i..i + |Decimal(d.day)|] == Decimal(d.day)
  {
    var key, pattern, n := Text(s), DayText(d), |Decimal(d.day)|;
    PatternPosition(s, d, i);
    MonthPosition(s);
    DayTextParts(d);
    SliceOfIncluded(key, pattern, i, 0, n);
    SliceOfIncluded(key, pattern, i, n, n + 3);
    SliceOfIncluded(key, pattern, i, n + 3, n + 5);
  }

  /** The matched digits lie within the day of the symbol, since a dash comes before it. */
  lemma DayStart(s: Symbol, d: Date, i: nat)
    requires i + |Decimal(d.day)| == |s.asset| + 1 + |Decimal(s.expiry.day)| <= |Text(s)|
    requires Text(s)[i..i + |Decimal(d.day)|] == Decimal(d.day)
    requires |Decimal(d.day)| <= 2
    ensures var own, n := Decimal(s.expiry.day), |Decimal(d.day)|; n <= |own| && own[|own| - n..] == Decimal(d.day)
  {
    MonthPosition(s);
    DigitsAfterDash(Text(s), |s.asset|, Decimal(s.expiry.day), i, Decimal(d.day));
  }

  lemma DigitsAfterDash(key: string, dash: nat, own: string, i: nat, digits: string)
    requires dash + 1 + |own| <= |key| && key[dash] == '-' && key[dash + 1..dash + 1 + |own|] == own && own != ""
    requires i + |digits| == dash + 1 + |own| && key[i..i + |digits|] == digits
    requires AllDigits(digits) && 1 <= |digits| <= 2
    ensures |digits| <= |own| && own[|own| - |digits|..] == digits
  {
    assert key[i] == digits[0];
    assert dash < i;
    assert forall k | 0 <= k < |digits| :: digits[k] == key[i + k] == own[i + k - dash - 1];
  }

  lemma EndsLike(day: nat, wanted: nat)
    requires 1 <= day <= 31 && 1 <= wanted <= 31
    requires |Decimal(wanted)| <= |Decimal(day)| && Decimal(day)[|Decimal(day)| - |Decimal(wanted)|..] == Decimal(wanted)
    ensures day == wanted || (wanted < 10 && day % 10 == wanted)
  {
    DayDigits(day);
    DayDigits(wanted);
    DecimalRoundTrip(day);
    DecimalRoundTrip(wanted);
    if wanted < 10 && day >= 10 {
      assert Decimal(day)[1..] == [DigitChar(day % 10)];
      DigitsDiffer(day % 10, wanted);
    } else {
      assert Decimal(day)[0..] == Decimal(day);
    }
  }

  /** Two Fridays of one month are never ten, twenty or thirty days apart. */
  lemma FridaysNeverConfused(d: Date, d': Date)
    requires IsDate(d) && IsDate(d') && IsFriday(d) && IsFriday(d')
    requires d.month == d'.month && d.year == d'.year && d'.day % 10 == d.day
    ensures d == d'
  {
    assert DayIndex(d') - DayIndex(d) == d'.day - d.day;
    assert (d'.day - d.day) % 7 == 0;
  }

  /** On Friday expiries the substring test is exact. */
  lemma FridayFilterIsExact(s: Symbol, d: Date)
    requires AllUpper(s.asset) && InCentury(s.expiry) && InCentury(d)
    requires IsFriday(s.expiry) && IsFriday(d)
    ensures Includes(Text(s), DayText(d)) <==> s.expiry == d
  {
    IncludesIff(s, d);
    if Includes(Text(s), DayText(d)) && s.expiry.day != d.day {
      FridaysNeverConfused(d, s.expiry);
    }
  }

  /** Among arbitrary dates it is not: the first of April also matches the eleventh. */
  lemma FilterConfusesOtherDays()
    ensures var s := Symbol("ETH", Date(2022, 4, 11), 1500, Put);
      s.expiry != Date(2022, 4, 1) && Includes(Text(s), DayText(Date(2022, 4, 1)))
  {
    IncludesIff(Symbol("ETH", Date(2022, 4, 11), 1500, Put), Date(2022, 4, 1));
  }

  /** Equal day texts mean equal dates. */
  lemma DayTextDiffers(d: Date, d': Date)
    requires InCentury(d) && InCentury(d')
    ensures DayText(d) == DayText(d') <==> d == d'
  {
    if DayText(d) == DayText(d') {
      DayTextParts(d);
      DayTextParts(d');
      DecimalRoundTrip(d.day);
      DecimalRoundTrip(d'.day);
      MonthNamesDiffer(d.month, d'.month);
      TwoDigitsDiffer(d.year, d'.year);
    }
  }
}
