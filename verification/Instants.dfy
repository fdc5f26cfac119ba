/** Instants are integer milliseconds since 1970-01-01T00:00Z, as JavaScript's
    `Date.valueOf()` and the dayjs `valueOf()` give them.  Division and remainder by a
    positive constant round down here, as `Math.floor` and the UTC getters do. */
module Instants {
  const MS_PER_SECOND := 1000
  const MS_PER_MINUTE := 60_000
  const MS_PER_HOUR := 3_600_000
  const MS_PER_DAY := 86_400_000
  const MS_PER_WEEK := 604_800_000

  /** Friday 2 January 1970, 08:00 UTC: the Friday expiry every other one is counted from. */
  const FRIDAY_ANCHOR := 115_200_000

  /** Sunday is 0, as in `getUTCDay`; day number 0 was a Thursday. */
  function DayOfWeek(t: int): int {
    (t / MS_PER_DAY + 4) % 7
  }

  function HourOfDay(t: int): int {
    t % MS_PER_DAY / MS_PER_HOUR
  }

  /** Midnight of the day that holds `t`. */
  function StartOfDay(t: int): int {
    t / MS_PER_DAY * MS_PER_DAY
  }

  /** A Friday 08:00:00.000 UTC, the only expiry kind the repository lists (`FridayT08`). */
  predicate IsFridayExpiry(t: int) {
    DayOfWeek(t) == 5 && t % MS_PER_DAY == 8 * MS_PER_HOUR
  }

  /** The first Friday expiry strictly after `t`, by one floor division. */
  function FridayAfter(t: int): int {
    FRIDAY_ANCHOR + ((t - FRIDAY_ANCHOR) / MS_PER_WEEK + 1) * MS_PER_WEEK
  }

  lemma FridayExpiryIsCongruence(t: int)
    ensures IsFridayExpiry(t) <==> (t - FRIDAY_ANCHOR) % MS_PER_WEEK == 0
  {
    var day, ms := t / MS_PER_DAY, t % MS_PER_DAY;
    var week, dow := (day + 4) / 7, (day + 4) % 7;
    assert t - FRIDAY_ANCHOR == week * MS_PER_WEEK + ((dow - 5) * MS_PER_DAY + (ms - 8 * MS_PER_HOUR));
    SmallOffset(week, (dow - 5) * MS_PER_DAY + (ms - 8 * MS_PER_HOUR));
  }

  lemma SmallOffset(week: int, rest: int)
    requires -MS_PER_WEEK < rest < MS_PER_WEEK
    ensures (week * MS_PER_WEEK + rest) % MS_PER_WEEK == 0 <==> rest == 0
  {
    if rest < 0 {
      assert week * MS_PER_WEEK + rest == (week - 1) * MS_PER_WEEK + (rest + MS_PER_WEEK);
    }
  }

  /** Two multiples of a week strictly less than a week apart are equal. */
  lemma WeeksAreSpaced(a: int, b: int)
    requires a % MS_PER_WEEK == 0 && b % MS_PER_WEEK == 0
    requires -MS_PER_WEEK < a - b < MS_PER_WEEK
    ensures a == b
  {
  }

  lemma FridayAfterIsNext(t: int)
    ensures IsFridayExpiry(FridayAfter(t))
    ensures t < FridayAfter(t) <= t + MS_PER_WEEK
  {
    var q, r := (t - FRIDAY_ANCHOR) / MS_PER_WEEK, (t - FRIDAY_ANCHOR) % MS_PER_WEEK;
    assert t == FRIDAY_ANCHOR + q * MS_PER_WEEK + r;
    FridayOfWeek(q + 1);
  }

  lemma FridayOfWeek(week: int)
    ensures IsFridayExpiry(FRIDAY_ANCHOR + week * MS_PER_WEEK)
  {
    var t := FRIDAY_ANCHOR + week * MS_PER_WEEK;
    assert t == (7 * week + 1) * MS_PER_DAY + 8 * MS_PER_HOUR;
    assert t / MS_PER_DAY == 7 * week + 1;
  }

  /** `FridayAfter` is the only Friday expiry in the week that starts just after `t`. */
  lemma FridayAfterIsUnique(t: int, u: int)
    requires t < u <= t + MS_PER_WEEK && IsFridayExpiry(u)
    ensures u == FridayAfter(t)
  {
    FridayAfterIsNext(t);
    FridayExpiryIsCongruence(FridayAfter(t));
    FridayExpiryIsCongruence(u);
    WeeksAreSpaced(u - FRIDAY_ANCHOR, FridayAfter(t) - FRIDAY_ANCHOR);
  }

  lemma FridayAfterShifts(t: int, weeks: int)
    ensures FridayAfter(t + weeks * MS_PER_WEEK) == FridayAfter(t) + weeks * MS_PER_WEEK
  {
    assert (t + weeks * MS_PER_WEEK - FRIDAY_ANCHOR) / MS_PER_WEEK == (t - FRIDAY_ANCHOR) / MS_PER_WEEK + weeks;
  }

  lemma FridayAfterIsMonotone(t: int, u: int)
    requires t <= u
    ensures FridayAfter(t) <= FridayAfter(u)
    ensures u < FridayAfter(t) ==> FridayAfter(u) == FridayAfter(t)
  {
  }
}
