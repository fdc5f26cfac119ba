/** `src/lib/expiries.ts` and `VixCalculator.rolloverWeekly`: the near, next and rollover
    instants that belong to a reference instant, by weekday branches. */
module WeeklyExpiries {
  import opened Instants
  import opened MarketData
  import opened Numerals
  import opened TimePeriods

  datatype Dates = Dates(near: int, next: int, rollover: int)

  /** What `expiryTypeToOrdinals` reads out of "FridayT08:00:00Z", the only expiry type there is. */
  const EXPIRY_DAY := 5
  const EXPIRY_HOUR := 8

  /** `Date.setUTCHours(h, 0, 0, 0)`. */
  function SetHour(t: int, hour: nat): int {
    StartOfDay(t) + hour * MS_PER_HOUR
  }

  /** `nextExpiration`: the weekday of `t + timePeriod` picks one of three offsets from `t`. */
  function NextExpiration(t: int, timePeriod: int): int {
    var target := t + MS_PER_DAY * timePeriod;
    var offset :=
      if DayOfWeek(target) == EXPIRY_DAY && HourOfDay(target) >= EXPIRY_HOUR then 21
      else if DayOfWeek(target) == EXPIRY_DAY + 1 then 20
      else 19 - DayOfWeek(t);
    SetHour(t + offset * MS_PER_DAY, EXPIRY_HOUR)
  }

  /** `mfivDates` for a period already parsed. */
  function MfivDates(now: int, timePeriod: nat): Dates {
    var next := NextExpiration(now, timePeriod);
    Dates(next - 7 * MS_PER_DAY, next, next - 14 * MS_PER_DAY)
  }

  /** `mfivDates` with the period as text; `None` where the parser throws or has no numeral to read. */
  function MfivDatesFor(now: int, timePeriod: string): Option<Dates> {
    match TimePeriodToInteger(timePeriod)
    case Days(n) => Some(MfivDates(now, n))
    case _ => None
  }

  /** dayjs `.hour(8).startOf("hour").add(n, "days")`. */
  function EightOClockPlus(t: int, days: int): int {
    StartOfDay(t) + 8 * MS_PER_HOUR + days * MS_PER_DAY
  }

  /** `VixCalculator.rolloverWeekly`, which branches on the reference date itself. */
  function RolloverWeekly(refDate: int): Dates {
    var next :=
      if DayOfWeek(refDate) == 5 && HourOfDay(refDate) >= 8 then EightOClockPlus(refDate, 21)
      else if DayOfWeek(refDate) == 6 then EightOClockPlus(refDate, 20)
      else EightOClockPlus(refDate, 19 - DayOfWeek(refDate));
    Dates(next - 7 * MS_PER_DAY, next, next - 14 * MS_PER_DAY)
  }

  /** The three stretches of the week that the branches tell apart. */
  datatype Slot = FridayFromEight | Saturday | OtherTime

  function SlotOf(t: int): Slot {
    if DayOfWeek(t) == 5 && HourOfDay(t) >= 8 then FridayFromEight
    else if DayOfWeek(t) == 6 then Saturday
    else OtherTime
  }

  /** The expiry the documentation asks for: the first Friday 08:00 more than two weeks out. */
  function RequiredExpiry(t: int): int {
    FridayAfter(t + 2 * MS_PER_WEEK)
  }

  /** The offset of the branch that fits the slot of `t` always lands on the required Friday. */
  lemma RolloverIsClosedForm(t: int)
    ensures RolloverWeekly(t).next == RequiredExpiry(t)
  {
    var next := RolloverWeekly(t).next;
    var day, ms := t / MS_PER_DAY, t % MS_PER_DAY;
    assert t == day * MS_PER_DAY + ms;
    var week, dow := (day + 4) / 7, (day + 4) % 7;
    assert day == week * 7 + dow - 4;
    var offset := match SlotOf(t) case FridayFromEight => 21 case Saturday => 20 case OtherTime => 19 - dow;
    assert next == (day + offset) * MS_PER_DAY + 8 * MS_PER_HOUR;
    assert (day + offset + 4) % 7 == 5;
    HourBound(ms);
    OnTheHour(day + offset);
    FridayAfterIsUnique(t + 2 * MS_PER_WEEK, next);
  }

  lemma OnTheHour(day: int)
    ensures var t := day * MS_PER_DAY + 8 * MS_PER_HOUR; t / MS_PER_DAY == day && t % MS_PER_DAY == 8 * MS_PER_HOUR
  {
  }

  lemma HourBound(ms: int)
    requires 0 <= ms < MS_PER_DAY
    ensures ms / MS_PER_HOUR >= 8 <==> ms >= 8 * MS_PER_HOUR
  {
  }

  /** Adding whole days keeps the time of day and rotates the weekday. */
  lemma DaysLater(t: int, days: int)
    ensures (t + days * MS_PER_DAY) / MS_PER_DAY == t / MS_PER_DAY + days
    ensures (t + days * MS_PER_DAY) % MS_PER_DAY == t % MS_PER_DAY
  {
  }

  /** Exactly when the branches agree with the requirement: the target instant has to fall into
      the same slot of the week as the reference instant. */
  lemma NextExpirationIsRightIff(t: int, timePeriod: int)
    ensures NextExpiration(t, timePeriod) == RequiredExpiry(t) <==> SlotOf(t + timePeriod * MS_PER_DAY) == SlotOf(t)
  {
    RolloverIsClosedForm(t);
    var slot := SlotOf(t + timePeriod * MS_PER_DAY);
    var dow := DayOfWeek(t);
    var offset := match slot case FridayFromEight => 21 case Saturday => 20 case OtherTime => 19 - dow;
    var offset' := match SlotOf(t) case FridayFromEight => 21 case Saturday => 20 case OtherTime => 19 - dow;
    DaysLater(t, offset);
    assert NextExpiration(t, timePeriod) == (t / MS_PER_DAY + offset) * MS_PER_DAY + 8 * MS_PER_HOUR;
    assert RequiredExpiry(t) == (t / MS_PER_DAY + offset') * MS_PER_DAY + 8 * MS_PER_HOUR;
    DaysLater(t, timePeriod);
    assert NextExpiration(t, timePeriod) == RequiredExpiry(t) <==> offset == offset';
  }

  lemma WeekdaysAdd(a: int, b: int)
    ensures (a + b) % 7 == (a % 7 + b % 7) % 7
  {
    assert a + b == 7 * (a / 7 + b / 7) + (a % 7 + b % 7);
  }

  lemma DayOfWeekRotates(t: int, days: int)
    ensures DayOfWeek(t + days * MS_PER_DAY) == (DayOfWeek(t) + days % 7) % 7
  {
    DaysLater(t, days);
    WeekdaysAdd(t / MS_PER_DAY + 4, days);
  }

  lemma SlotOfWholeWeeks(t: int, days: int)
    requires days % 7 == 0
    ensures SlotOf(t + days * MS_PER_DAY) == SlotOf(t)
  {
    DayOfWeekRotates(t, days);
    DaysLater(t, days);
  }

  /** The period that meets the requirement at every instant is one of whole weeks, and no other. */
  lemma WholeWeeksAreRight(timePeriod: int)
    ensures timePeriod % 7 == 0 <==> forall t {:trigger NextExpiration(t, timePeriod)} :: NextExpiration(t, timePeriod) == RequiredExpiry(t)
  {
    if timePeriod % 7 == 0 {
      forall t
        ensures NextExpiration(t, timePeriod) == RequiredExpiry(t)
      {
        NextExpirationIsRightIff(t, timePeriod);
        SlotOfWholeWeeks(t, timePeriod);
      }
    } else {
      WrongOnSaturday(timePeriod);
    }
  }

  /** On Saturday 3 January 1970 every other period is wrong. */
  lemma WrongOnSaturday(timePeriod: int)
    requires timePeriod % 7 != 0
    ensures NextExpiration(2 * MS_PER_DAY, timePeriod) != RequiredExpiry(2 * MS_PER_DAY)
  {
    NextExpirationIsRightIff(2 * MS_PER_DAY, timePeriod);
    DayOfWeekRotates(2 * MS_PER_DAY, timePeriod);
  }

  /** `mfivDates` and `rolloverWeekly` are the same function, and it is the closed form. */
  lemma ThreeCalendarsAgree(now: int, timePeriod: nat)
    requires timePeriod % 7 == 0
    ensures MfivDates(now, timePeriod) == RolloverWeekly(now)
    ensures MfivDates(now, timePeriod).next == FridayAfter(now + 14 * MS_PER_DAY)
    ensures MfivDates(now, timePeriod).near == FridayAfter(now + 7 * MS_PER_DAY)
    ensures MfivDates(now, timePeriod).rollover == FridayAfter(now)
  {
    WholeWeeksAreRight(timePeriod);
    RolloverIsClosedForm(now);
    FridayAfterShifts(now, 1);
    FridayAfterShifts(now, 2);
  }

  /** A period of whole weeks written out, such as "14D", gives the closed form at every instant. */
  lemma PeriodTextAgrees(now: int, weeks: nat)
    requires weeks > 0
    ensures MfivDatesFor(now, Decimal(7 * weeks) + "D") == Some(RolloverWeekly(now))
  {
    TimePeriodRoundTrip(7 * weeks, "");
    assert Decimal(7 * weeks) + "D" + "" == Decimal(7 * weeks) + "D";
    ThreeCalendarsAgree(now, 7 * weeks);
  }

  /** The near and next expiries bracket the fourteenth day: `near <= now + 14d < next`, a week apart,
      and the rollover lies in the coming week. */
  lemma DatesBracketTwoWeeks(now: int)
    ensures var d := RolloverWeekly(now);
      && IsFridayExpiry(d.near) && IsFridayExpiry(d.next) && IsFridayExpiry(d.rollover)
      && now < d.rollover <= now + 7 * MS_PER_DAY
      && now + 7 * MS_PER_DAY < d.near <= now + 14 * MS_PER_DAY < d.next <= now + 21 * MS_PER_DAY
      && d.next - d.near == 7 * MS_PER_DAY
  {
    ThreeCalendarsAgree(now, 14);
    FridayAfterIsNext(now);
    FridayAfterIsNext(now + 7 * MS_PER_DAY);
    FridayAfterIsNext(now + 14 * MS_PER_DAY);
  }

  /** The dates stand still until the rollover instant, and there move on by exactly one week. */
  lemma DatesMoveAtRollover(now: int, later: int)
    requires now <= later <= RolloverWeekly(now).rollover
    ensures var d := RolloverWeekly(now);
      RolloverWeekly(later) ==
        if later < d.rollover then d
        else Dates(d.next, d.next + 7 * MS_PER_DAY, d.rollover + 7 * MS_PER_DAY)
  {
    ThreeCalendarsAgree(now, 14);
    ThreeCalendarsAgree(later, 14);
    FridayAfterIsMonotone(now, later);
    FridayAfterShifts(now, 1);
    FridayAfterShifts(now, 2);
    FridayAfterShifts(later, 1);
    FridayAfterShifts(later, 2);
    FridayAfterFriday(now);
  }

  lemma FridayAfterFriday(t: int)
    ensures FridayAfter(FridayAfter(t)) == FridayAfter(t) + MS_PER_WEEK
  {
    var q := (t - FRIDAY_ANCHOR) / MS_PER_WEEK + 1;
    assert FridayAfter(t) - FRIDAY_ANCHOR == q * MS_PER_WEEK;
  }
}
