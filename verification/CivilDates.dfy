/** Calendar dates of the proleptic Gregorian calendar from year 0 on, counted in days since
    1 January of year 0. */
module CivilDates {
  datatype Date = Date(year: nat, month: nat, day: nat)

  const YEAR_ZERO: nat := 0
  const JANUARY: nat := 1

  predicate IsLeap(year: nat) {
    year % 4 == 0 && (year % 100 != 0 || year % 400 == 0)
  }

  function YearLength(year: nat): nat {
    if IsLeap(year) then 366 else 365
  }

  function MonthLength(year: nat, month: nat): nat {
    if month == 2 then if IsLeap(year) then 29 else 28
    else if month == 4 || month == 6 || month == 9 || month == 11 then 30
    else 31
  }

  predicate IsDate(d: Date) {
    1 <= d.month <= 12 && 1 <= d.day <= MonthLength(d.year, d.month)
  }

  function DaysBeforeYear(year: nat): nat {
    if year == 0 then 0 else DaysBeforeYear(year - 1) + YearLength(year - 1)
  }

  function DaysBeforeMonth(year: nat, month: nat): nat {
    if month <= 1 then 0 else DaysBeforeMonth(year, month - 1) + MonthLength(year, month - 1)
  }

  function DayIndex(d: Date): int {
    DaysBeforeYear(d.year) + DaysBeforeMonth(d.year, d.month) + d.day - 1
  }

  lemma MonthsFillYear(year: nat)
    ensures DaysBeforeMonth(year, 13) == YearLength(year)
  {
    var leap := if IsLeap(year) then 1 else 0;
    assert DaysBeforeMonth(year, 2) == 31;
    assert DaysBeforeMonth(year, 3) == 59 + leap;
    assert DaysBeforeMonth(year, 5) == 120 + leap;
    assert DaysBeforeMonth(year, 7) == 181 + leap;
    assert DaysBeforeMonth(year, 9) == 243 + leap;
    assert DaysBeforeMonth(year, 11) == 304 + leap;
  }

  lemma {:induction false} DaysBeforeMonthGrows(year: nat, m: nat, m': nat)
    requires 1 <= m < m'
    ensures DaysBeforeMonth(year, m) + MonthLength(year, m) <= DaysBeforeMonth(year, m')
  {
    if m + 1 < m' {
      DaysBeforeMonthGrows(year, m, m' - 1);
    }
  }

  lemma {:induction false} DaysBeforeYearGrows(y: nat, y': nat)
    requires y < y'
    ensures DaysBeforeYear(y) + YearLength(y) <= DaysBeforeYear(y')
  {
    if y + 1 < y' {
      DaysBeforeYearGrows(y, y' - 1);
    }
  }

  lemma DayOfYearBound(d: Date)
    requires IsDate(d)
    ensures DaysBeforeYear(d.year) <= DayIndex(d) < DaysBeforeYear(d.year) + YearLength(d.year)
  {
    MonthsFillYear(d.year);
    DaysBeforeMonthGrows(d.year, d.month, 13);
  }

  /** Earlier in the calendar, field by field. */
  predicate Before(d: Date, d': Date) {
    d.year < d'.year || (d.year == d'.year && (d.month < d'.month || (d.month == d'.month && d.day < d'.day)))
  }

  /** Counting days keeps the calendar order, in both directions. */
  lemma DayIndexKeepsOrder(d: Date, d': Date)
    requires IsDate(d) && IsDate(d')
    ensures DayIndex(d) < DayIndex(d') <==> Before(d, d')
    ensures DayIndex(d) == DayIndex(d') ==> d == d'
  {
    if Before(d, d') {
      EarlierDateIsSmaller(d, d');
    } else if Before(d', d) {
      EarlierDateIsSmaller(d', d);
    }
  }

  lemma EarlierDateIsSmaller(d: Date, d': Date)
    requires IsDate(d) && IsDate(d') && Before(d, d')
    ensures DayIndex(d) < DayIndex(d')
  {
    if d.year < d'.year {
      DayOfYearBound(d);
      DayOfYearBound(d');
      DaysBeforeYearGrows(d.year, d'.year);
    } else if d.month < d'.month {
      DaysBeforeMonthGrows(d.year, d.month, d'.month);
    }
  }

  /** The year that holds a day, searched upwards from `year`. */
  function YearFrom(index: nat, year: nat): (y: nat)
    requires DaysBeforeYear(year) <= index
    ensures DaysBeforeYear(y) <= index < DaysBeforeYear(y) + YearLength(y)
    decreases index - DaysBeforeYear(year)
  {
    if index < DaysBeforeYear(year + 1) then year else YearFrom(index, year + 1)
  }

  function MonthFrom(offset: nat, year: nat, month: nat): (m: nat)
    requires 1 <= month <= 12 && DaysBeforeMonth(year, month) <= offset < YearLength(year)
    ensures month <= m <= 12 && DaysBeforeMonth(year, m) <= offset < DaysBeforeMonth(year, m) + MonthLength(year, m)
    decreases 12 - month
  {
    if offset < DaysBeforeMonth(year, month + 1) then month
    else
      MonthsFillYear(year);
      MonthFrom(offset, year, month + 1)
  }

  /** The date of a day, the inverse of `DayIndex`. */
  function DateOf(index: nat): (d: Date)
    ensures IsDate(d) && DayIndex(d) == index
  {
    var y := YearFrom(index, YEAR_ZERO);
    var m := MonthFrom(index - DaysBeforeYear(y), y, JANUARY);
    Date(y, m, index - DaysBeforeYear(y) - DaysBeforeMonth(y, m) + 1)
  }

  /** Day zero of the epoch, 1 January 1970, is the 719528th day after 1 January of year 0. */
  const EPOCH_DAY := 719_528

  lemma {:induction false} DaysBeforeYearClosedForm(year: nat)
    ensures DaysBeforeYear(year) == 365 * year + (year + 3) / 4 - (year + 99) / 100 + (year + 399) / 400
  {
    if year > 0 {
      var y := year - 1;
      DaysBeforeYearClosedForm(y);
      CenturyIsQuarter(y);
      QuotientsStep(y);
    }
  }

  lemma QuotientsStep(y: nat)
    ensures (y + 4) / 4 == (y + 3) / 4 + if y % 4 == 0 then 1 else 0
    ensures (y + 100) / 100 == (y + 99) / 100 + if y % 100 == 0 then 1 else 0
    ensures (y + 400) / 400 == (y + 399) / 400 + if y % 400 == 0 then 1 else 0
  {
    QuotientStep(y, 4, y / 4, y % 4);
    QuotientStep(y, 100, y / 100, y % 100);
    QuotientStep(y, 400, y / 400, y % 400);
  }

  lemma QuotientStep(y: nat, k: nat, q: nat, r: nat)
    requires k > 0 && y == q * k + r && r < k
    ensures (y + k) / k == (y + k - 1) / k + if r == 0 then 1 else 0
  {
    QuotientIs(y + k, k, q + 1, r);
    if r == 0 {
      QuotientIs(y + k - 1, k, q, k - 1);
    } else {
      QuotientIs(y + k - 1, k, q + 1, r - 1);
    }
  }

  lemma QuotientIs(y: nat, k: nat, q: nat, r: nat)
    requires k > 0 && y == q * k + r && r < k
    ensures y / k == q
  {
    var p := y / k;
    assert y == p * k + y % k;
    assert (p - q) * k == r - y % k;
    assert p - q >= 1 ==> (p - q) * k >= k;
    assert p - q <= -1 ==> (p - q) * k + k <= 0;
  }

  lemma CenturyIsQuarter(y: nat)
    ensures y % 100 == 0 ==> y % 4 == 0
    ensures y % 400 == 0 ==> y % 100 == 0
  {
    if y % 100 == 0 {
      assert y == 4 * (25 * (y / 100));
    }
    if y % 400 == 0 {
      assert y == 100 * (4 * (y / 400));
    }
  }

  lemma EpochIsNineteenSeventy()
    ensures DayIndex(Date(1970, 1, 1)) == EPOCH_DAY
  {
    DaysBeforeYearClosedForm(1970);
  }
}
