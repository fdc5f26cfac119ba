/** ISO-8601 strings of instants, as `Date.toISOString()` writes them for the years 0000 to 9999,
    and why comparing the strings is comparing the instants. */
module IsoTime {
  import opened Instants
  import opened Numerals
  import opened CivilDates
  import opened ListedExpiries

  /** JavaScript's `<` on strings. */
  predicate LexLess(s: string, t: string) {
    t != "" && (s == "" || s[0] < t[0] || (s[0] == t[0] && LexLess(s[1..], t[1..])))
  }

  lemma {:induction false} LexSamePrefix(p: string, s: string, t: string)
    ensures LexLess(p + s, p + t) <==> LexLess(s, t)
  {
    if p == "" {
      assert p + s == s && p + t == t;
    } else {
      assert (p + s)[1..] == p[1..] + s && (p + t)[1..] == p[1..] + t;
      LexSamePrefix(p[1..], s, t);
    }
  }

  lemma {:induction false} LexDecided(p: string, q: string, s: string, t: string)
    requires |p| == |q| && LexLess(p, q)
    ensures LexLess(p + s, q + t)
  {
    assert (p + s)[1..] == p[1..] + s && (q + t)[1..] == q[1..] + t;
    if p[0] == q[0] {
      LexDecided(p[1..], q[1..], s, t);
    }
  }

  lemma {:induction false} LexIsAsymmetric(s: string, t: string)
    ensures !(LexLess(s, t) && LexLess(t, s))
    ensures !LexLess(s, s)
  {
    if s != "" {
      LexIsAsymmetric(s[1..], s[1..]);
      if t != "" {
        LexIsAsymmetric(s[1..], t[1..]);
      }
    }
  }

  /** `n` padded with zeros to `width` digits. */
  function Pad(n: nat, width: nat): (s: string)
    ensures |s| == width && AllDigits(s)
  {
    if width == 0 then "" else Pad(n / 10, width - 1) + [DigitChar(n % 10)]
  }

  predicate Fits(n: nat, width: nat) {
    if width == 0 then n == 0 else Fits(n / 10, width - 1)
  }

  lemma {:induction false} PadKeepsOrder(n: nat, m: nat, width: nat)
    requires Fits(n, width) && Fits(m, width) && n < m
    ensures LexLess(Pad(n, width), Pad(m, width))
  {
    if n / 10 == m / 10 {
      LexSamePrefix(Pad(n / 10, width - 1), [DigitChar(n % 10)], [DigitChar(m % 10)]);
    } else {
      PadKeepsOrder(n / 10, m / 10, width - 1);
      LexDecided(Pad(n / 10, width - 1), Pad(m / 10, width - 1), [DigitChar(n % 10)], [DigitChar(m % 10)]);
    }
  }

  /** A number, the width it is printed with, and the character that follows it. */
  datatype Field = Field(value: nat, width: nat, separator: char)

  function Print(fields: seq<Field>): string {
    if fields == [] then "" else Pad(fields[0].value, fields[0].width) + [fields[0].separator] + Print(fields[1..])
  }

  predicate SameShape(f: seq<Field>, g: seq<Field>) {
    |f| == |g| && forall i | 0 <= i < |f| ::
      f[i].width == g[i].width && f[i].separator == g[i].separator && Fits(f[i].value, f[i].width) && Fits(g[i].value, g[i].width)
  }

  predicate FieldsLess(f: seq<Field>, g: seq<Field>)
    requires |f| == |g|
  {
    f != [] && (f[0].value < g[0].value || (f[0].value == g[0].value && FieldsLess(f[1..], g[1..])))
  }

  lemma {:induction false} PrintKeepsOrder(f: seq<Field>, g: seq<Field>)
    requires SameShape(f, g) && FieldsLess(f, g)
    ensures LexLess(Print(f), Print(g))
  {
    var p, q := Pad(f[0].value, f[0].width), Pad(g[0].value, g[0].width);
    var a, b := [f[0].separator] + Print(f[1..]), [g[0].separator] + Print(g[1..]);
    assert Print(f) == p + a && Print(g) == q + b;
    if f[0].value < g[0].value {
      PadKeepsOrder(f[0].value, g[0].value, f[0].width);
      LexDecided(p, q, a, b);
    } else {
      PrintKeepsOrder(f[1..], g[1..]);
      LexSamePrefix([f[0].separator], Print(f[1..]), Print(g[1..]));
      LexSamePrefix(p, a, b);
    }
  }

  /** The instants whose ISO string has a four-digit year. */
  predicate HasFourDigitYear(t: int) {
    0 <= t / MS_PER_DAY + EPOCH_DAY < DaysBeforeYear(10_000)
  }

  function FieldsOf(t: int): seq<Field>
    requires 0 <= t / MS_PER_DAY + EPOCH_DAY
  {
    DateAndClock(DateOf(t / MS_PER_DAY + EPOCH_DAY), t % MS_PER_DAY)
  }

  function DateAndClock(date: Date, ms: nat): seq<Field> {
    [Field(date.year, 4, '-'), Field(date.month, 2, '-'), Field(date.day, 2, 'T'),
     Field(ms / MS_PER_HOUR, 2, ':'), Field(ms / MS_PER_MINUTE % 60, 2, ':'),
     Field(ms / MS_PER_SECOND % 60, 2, '.'), Field(ms % MS_PER_SECOND, 3, 'Z')]
  }

  function Iso(t: int): string
    requires HasFourDigitYear(t)
  {
    Print(FieldsOf(t))
  }

  lemma SmallFits(n: nat)
    ensures n < 100 ==> Fits(n, 2)
    ensures n < 1000 ==> Fits(n, 3)
    ensures n < 10_000 ==> Fits(n, 4)
  {
    assert Fits(n / 10 / 10, 0) <==> n / 10 / 10 == 0;
    assert Fits(n / 10 / 10, 1) <==> n / 10 / 10 / 10 == 0;
    assert Fits(n / 10 / 10, 2) <==> Fits(n / 10 / 10 / 10, 1);
    assert Fits(n / 10 / 10 / 10, 1) <==> n / 10 / 10 / 10 / 10 == 0;
  }

  lemma FieldsFit(t: int)
    requires HasFourDigitYear(t)
    ensures forall i | 0 <= i < 7 :: Fits(FieldsOf(t)[i].value, FieldsOf(t)[i].width)
  {
    var f := FieldsOf(t);
    var index := t / MS_PER_DAY + EPOCH_DAY;
    if f[0].value > 9999 {
      if f[0].value > 10_000 { DaysBeforeYearGrows(10_000, f[0].value); }
    }
    assert f[2].value <= 31;
    SmallFits(f[0].value);
    SmallFits(f[1].value);
    SmallFits(f[2].value);
    SmallFits(f[3].value);
    SmallFits(f[4].value);
    SmallFits(f[5].value);
    SmallFits(f[6].value);
  }

  /** The clock fields of two times of day compare like the times. */
  lemma ClockKeepsOrder(a: int, b: int)
    requires 0 <= a < b
    ensures
      || a / MS_PER_HOUR < b / MS_PER_HOUR
      || (a / MS_PER_HOUR == b / MS_PER_HOUR &&
          (|| a / MS_PER_MINUTE % 60 < b / MS_PER_MINUTE % 60
           || (a / MS_PER_MINUTE % 60 == b / MS_PER_MINUTE % 60 &&
               (|| a / MS_PER_SECOND % 60 < b / MS_PER_SECOND % 60
                || (a / MS_PER_SECOND % 60 == b / MS_PER_SECOND % 60 && a % MS_PER_SECOND < b % MS_PER_SECOND)))))
  {
    MixedRadix(a);
    MixedRadix(b);
  }

  lemma MixedRadix(a: int)
    requires 0 <= a
    ensures a == a / MS_PER_HOUR * MS_PER_HOUR + a / MS_PER_MINUTE % 60 * MS_PER_MINUTE + a / MS_PER_SECOND % 60 * MS_PER_SECOND + a % MS_PER_SECOND
  {
    var s := a / MS_PER_SECOND;
    assert a == s * MS_PER_SECOND + a % MS_PER_SECOND;
    assert a / MS_PER_MINUTE == s / 60;
    assert s == s / 60 * 60 + s % 60;
    var m := s / 60;
    assert a / MS_PER_HOUR == m / 60;
    assert m == m / 60 * 60 + m % 60;
  }

  lemma EarlierDateFirst(d: Date, d': Date, a: nat, b: nat)
    requires Before(d, d')
    ensures FieldsLess(DateAndClock(d, a), DateAndClock(d', b))
  {
    FirstDifference(DateAndClock(d, a), DateAndClock(d', b), if d.year < d'.year then 0 else if d.month < d'.month then 1 else 2);
  }

  lemma EarlierClockFirst(d: Date, a: nat, b: nat)
    requires a < b
    ensures FieldsLess(DateAndClock(d, a), DateAndClock(d, b))
  {
    ClockKeepsOrder(a, b);
    var f, g := DateAndClock(d, a), DateAndClock(d, b);
    FirstDifference(f, g, if f[3].value < g[3].value then 3 else if f[4].value < g[4].value then 4 else if f[5].value < g[5].value then 5 else 6);
  }

  lemma FieldsKeepOrder(t: int, u: int)
    requires HasFourDigitYear(t) && HasFourDigitYear(u) && t < u
    ensures FieldsLess(FieldsOf(t), FieldsOf(u))
  {
    var i, j := t / MS_PER_DAY + EPOCH_DAY, u / MS_PER_DAY + EPOCH_DAY;
    if i == j {
      assert t % MS_PER_DAY < u % MS_PER_DAY;
      EarlierClockFirst(DateOf(i), t % MS_PER_DAY, u % MS_PER_DAY);
    } else {
      assert i < j;
      DayIndexKeepsOrder(DateOf(i), DateOf(j));
      EarlierDateFirst(DateOf(i), DateOf(j), t % MS_PER_DAY, u % MS_PER_DAY);
    }
  }

  lemma {:induction false} FirstDifference(f: seq<Field>, g: seq<Field>, k: nat)
    requires |f| == |g| && k < |f|
    requires f[k].value < g[k].value && forall i | 0 <= i < k :: f[i].value == g[i].value
    ensures FieldsLess(f, g)
  {
    if k > 0 {
      FirstDifference(f[1..], g[1..], k - 1);
    }
  }

  /** String order on ISO instants is time order, in both directions. */
  lemma IsoOrderIsTimeOrder(t: int, u: int)
    requires HasFourDigitYear(t) && HasFourDigitYear(u)
    ensures LexLess(Iso(t), Iso(u)) <==> t < u
    ensures Iso(t) == Iso(u) <==> t == u
  {
    LexIsAsymmetric(Iso(t), Iso(u));
    if t < u {
      EarlierIsLexLess(t, u);
    } else if u < t {
      EarlierIsLexLess(u, t);
    }
  }

  lemma EarlierIsLexLess(t: int, u: int)
    requires HasFourDigitYear(t) && HasFourDigitYear(u) && t < u
    ensures LexLess(Iso(t), Iso(u))
  {
    FieldsFit(t);
    FieldsFit(u);
    FieldsKeepOrder(t, u);
    PrintKeepsOrder(FieldsOf(t), FieldsOf(u));
  }

  /** The availability filter, which compares strings, and the default sort, which orders strings,
      agree with the instants they are mixed with. */
  lemma StringsAgreeWithInstants(o: Instrument, now: int, expiries: seq<int>)
    requires HasFourDigitYear(o.listing) && HasFourDigitYear(now) && HasFourDigitYear(o.expiry)
    requires forall e | e in expiries :: HasFourDigitYear(e)
    ensures !LexLess(Iso(now), Iso(o.listing)) && LexLess(Iso(now), Iso(o.expiry)) <==> Available(o, now)
    ensures (forall i, j | 0 <= i < j < |expiries| :: LexLess(Iso(expiries[i]), Iso(expiries[j]))) <==> Ascending(expiries)
  {
    IsoOrderIsTimeOrder(now, o.listing);
    IsoOrderIsTimeOrder(now, o.expiry);
    forall i, j | 0 <= i < j < |expiries|
      ensures LexLess(Iso(expiries[i]), Iso(expiries[j])) <==> expiries[i] < expiries[j]
    {
      IsoOrderIsTimeOrder(expiries[i], expiries[j]);
    }
  }
}
