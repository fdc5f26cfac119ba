/** What holds of every run of the V1 machine: mids are positive, the books the substring test
    selects are those of one expiry, and every computed variance is sound. */
module VixV1Runs {
  import opened Instants
  import opened MarketData
  import opened OptionNames
  import opened VixStrips
  import opened VixBooks
  import opened WeeklyExpiries
  import opened CivilDates
  import opened VixV1
  import opened VixV1Formulas
  import opened VixV1Logs
  import opened ReportLogs
  import opened ReportClock

  // ----- mids

  predicate NonNegative(x: Option<real>) {
    OrZero(x) >= 0.0
  }

  predicate NonNegativePrices(q: Quote) {
    NonNegative(q.underlyingPrice) && NonNegative(q.bestBidPrice) && NonNegative(q.bestAskPrice) && NonNegative(q.markPrice)
  }

  lemma AreaIsNonNegative(a: real, b: real)
    requires a >= 0.0 && b >= 0.0
    ensures Area(a, b) >= 0.0
  {
    assert a == 0.0 || b == 0.0 || (a > 0.0 && b > 0.0);
  }

  /** A stored mid is positive and below one and a half marks. */
  lemma MidIsPositive(q: Quote)
    requires NonNegativePrices(q) && MidOf(q).Some?
    ensures 0.0 < MidOf(q).value < 1.5 * Area(OrZero(q.markPrice), OrZero(q.underlyingPrice))
  {
    AreaIsNonNegative(OrZero(q.bestBidPrice), OrZero(q.underlyingPrice));
    AreaIsNonNegative(OrZero(q.bestAskPrice), OrZero(q.underlyingPrice));
    AreaIsNonNegative(OrZero(q.markPrice), OrZero(q.underlyingPrice));
  }

  // ----- weights

  /** The two expiries enclose fourteen days, so the weights interpolate to it. */
  ghost predicate Interpolates(a: real, b: real, nearTime: int, nextTime: int) {
    && a + b == 1.0
    && 0.0 < a <= 1.0 && 0.0 <= b < 1.0
    && Area(a, nearTime as real) + Area(b, nextTime as real) == N14 as real
  }

  lemma WeightsInterpolate(nearTime: int, nextTime: int)
    requires nearTime <= N14 < nextTime
    ensures Interpolates(NearWeight(nearTime, nextTime), NextWeight(nearTime, nextTime), nearTime, nextTime)
  {
    var p, q := (nextTime - N14) as real, (N14 - nearTime) as real;
    var w := (nextTime - nearTime) as real;
    var a, b := NearWeight(nearTime, nextTime), NextWeight(nearTime, nextTime);
    assert p + q == w && p > 0.0 && q >= 0.0;
    ShareIsBetween(p, q, w);
    WeightedMean(p, q, w, nearTime as real, nextTime as real);
  }

  lemma ShareIsBetween(p: real, q: real, w: real)
    requires p > 0.0 && q >= 0.0 && p + q == w
    ensures p / w + q / w == 1.0
    ensures 0.0 < p / w <= 1.0 && 0.0 <= q / w < 1.0
  {
    QuotientBounds(p, w, w, w);
    QuotientBounds(q, w, w, w);
    assert p / w + q / w == (p + q) / w;
  }

  lemma WeightedMean(p: real, q: real, w: real, x: real, y: real)
    requires w > 0.0 && p + q == w && y - x == w && p / w + q / w == 1.0
    ensures Area(p / w, x) + Area(q / w, y) == x + q
  {
    var a, b := p / w, q / w;
    assert b * w == q;
    assert b * (x + w) == b * x + b * w;
    assert a * x + b * x == (a + b) * x;
  }

  /** A blend with such weights lies between its two inputs. */
  lemma BlendIsBetween(a: real, b: real, x: real, y: real)
    requires a + b == 1.0 && a > 0.0 && b >= 0.0
    ensures x <= y ==> x <= Area(x, a) + Area(y, b) <= y
    ensures y <= x ==> y <= Area(x, a) + Area(y, b) <= x
  {
    var blend := Area(x, a) + Area(y, b);
    assert blend == x * a + y * b;
    assert x * a + x * b == x * (a + b);
    assert y * a + y * b == y * (a + b);
    assert blend - x == (y - x) * b by {
      assert (y - x) * b == y * b - x * b;
    }
    assert y - blend == (y - x) * a by {
      assert (y - x) * a == y * a - x * a;
    }
    SignOfProduct(y - x, a);
    SignOfProduct(y - x, b);
  }

  lemma SignOfProduct(d: real, a: real)
    requires a >= 0.0
    ensures d >= 0.0 ==> d * a >= 0.0
    ensures d <= 0.0 ==> d * a <= 0.0
  {
  }

  // ----- the substring filter on the book of a run

  /** One asset in capital letters, and expiries of this century. */
  ghost predicate GoodCatalogue(cfg: Config) {
    && (forall s | s in cfg.catalogue :: AllUpper(s.asset) && InCentury(s.expiry))
    && (forall s, t | s in cfg.catalogue && t in cfg.catalogue :: s.asset == t.asset)
  }

  /** What the book of a run holds: one entry per symbol, positive mids, Friday expiries. */
  ghost predicate GoodBook(cfg: Config, book: seq<Entry>) {
    && DistinctSymbols(book)
    && forall e | e in book :: e.mid > 0.0 && e.symbol in cfg.catalogue && IsFriday(e.symbol.expiry)
  }

  /** A Friday expiry with a date of this century. */
  predicate GoodExpiry(t: int) {
    IsFridayExpiry(t) && InCentury(DateAt(t)) && 0 <= t / MS_PER_DAY + EPOCH_DAY
  }

  function OfDate(book: seq<Entry>, d: Date): seq<Entry> {
    if book == [] then []
    else
      var front, e := book[..|book| - 1], book[|book| - 1];
      OfDate(front, d) + if e.symbol.expiry == d then [e] else []
  }

  lemma {:induction false} OfDateMembers(book: seq<Entry>, d: Date)
    ensures forall e :: e in OfDate(book, d) <==> e in book && e.symbol.expiry == d
    ensures DistinctSymbols(book) ==> DistinctSymbols(OfDate(book, d))
  {
    if book != [] {
      var front, last := book[..|book| - 1], book[|book| - 1];
      OfDateMembers(front, d);
      assert forall e :: e in book <==> e in front || e == last;
      assert forall i | 0 <= i < |OfDate(front, d)| :: OfDate(front, d)[i] in OfDate(front, d);
      assert DistinctSymbols(book) ==> forall e | e in front :: e.symbol != last.symbol;
    }
  }

  /** The substring test selects exactly the entries of the expiry. */
  lemma {:induction false} FilterIsExact(book: seq<Entry>, expiry: int)
    requires GoodExpiry(expiry)
    requires forall e | e in book :: AllUpper(e.symbol.asset) && InCentury(e.symbol.expiry) && IsFriday(e.symbol.expiry)
    ensures FilterBook(book, expiry) == OfDate(book, DateAt(expiry))
  {
    if book != [] {
      var front, last := book[..|book| - 1], book[|book| - 1];
      assert forall e | e in front :: e in book;
      FilterIsExact(front, expiry);
      FridayDate(expiry);
      FridayFilterIsExact(last.symbol, DateAt(expiry));
    }
  }

  /** The entries of the current near and next expiries. */
  function Current(book: seq<Entry>, near: Date, next: Date): seq<Entry> {
    if book == [] then []
    else
      var front, e := book[..|book| - 1], book[|book| - 1];
      Current(front, near, next) + if e.symbol.expiry == near || e.symbol.expiry == next then [e] else []
  }

  lemma {:induction false} CurrentKeeps(book: seq<Entry>, near: Date, next: Date)
    ensures OfDate(Current(book, near, next), near) == OfDate(book, near)
    ensures OfDate(Current(book, near, next), next) == OfDate(book, next)
  {
    if book != [] {
      var front, last := book[..|book| - 1], book[|book| - 1];
      var kept := Current(front, near, next);
      CurrentKeeps(front, near, next);
      assert (kept + [last])[..|kept|] == kept;
      assert kept + [] == kept;
    }
  }

  lemma {:induction false} CurrentMembers(book: seq<Entry>, near: Date, next: Date)
    ensures forall e :: e in Current(book, near, next) <==> e in book && (e.symbol.expiry == near || e.symbol.expiry == next)
    ensures DistinctSymbols(book) ==> DistinctSymbols(Current(book, near, next))
  {
    if book != [] {
      var front, last := book[..|book| - 1], book[|book| - 1];
      var kept := Current(front, near, next);
      CurrentMembers(front, near, next);
      assert forall e :: e in book <==> e in front || e == last;
      assert forall i | 0 <= i < |kept| :: kept[i] in kept;
      assert DistinctSymbols(book) ==> forall e | e in front :: e.symbol != last.symbol;
    }
  }

  lemma CurrentLookup(book: seq<Entry>, near: Date, next: Date, s: Symbol)
    requires DistinctSymbols(book) && (s.expiry == near || s.expiry == next)
    ensures Lookup(Current(book, near, next), s) == Lookup(book, s)
  {
    CurrentMembers(book, near, next);
    var r, r' := Lookup(book, s), Lookup(Current(book, near, next), s);
    if r.Some? {
      LookupIsMember(Current(book, near, next), Entry(s, r.value));
    } else if r'.Some? {
      LookupIsMember(book, Entry(s, r'.value));
    }
  }

  lemma {:induction false} CurrentBestPair(book: seq<Entry>, near: Date, next: Date, series: seq<Series>)
    requires DistinctSymbols(book) && forall s | s in series :: s.expiry == near || s.expiry == next
    ensures BestPair(Current(book, near, next), series) == BestPair(book, series)
  {
    if series != [] {
      var last := series[|series| - 1];
      assert forall s | s in series[..|series| - 1] :: s in series;
      CurrentBestPair(book, near, next, series[..|series| - 1]);
      assert last in series;
      CurrentLookup(book, near, next, SymbolOf(last, Call));
      CurrentLookup(book, near, next, SymbolOf(last, OptionType.Put));
    }
  }

  lemma {:induction false} ListMembers(catalogue: seq<Symbol>, expiry: int)
    requires forall s | s in catalogue :: InCentury(s.expiry)
    requires InCentury(DateAt(expiry))
    ensures forall s :: s in ListFor(catalogue, expiry) <==> s in catalogue && s.expiry == DateAt(expiry)
  {
    if catalogue != [] {
      var front, last := catalogue[..|catalogue| - 1], catalogue[|catalogue| - 1];
      assert forall s | s in front :: s in catalogue;
      ListMembers(front, expiry);
      DayTextDiffers(last.expiry, DateAt(expiry));
      assert forall s :: s in catalogue <==> s in front || s == last;
    }
  }

  ghost predicate GoodState(cfg: Config, s: State) {
    && GoodCatalogue(cfg) && InStep(cfg, s) && GoodBook(cfg, s.midBook)
    && GoodExpiry(s.dates.near) && GoodExpiry(s.dates.next)
  }

  lemma BookIsFiltered(cfg: Config, s: State)
    requires GoodState(cfg, s)
    ensures FilterBook(s.midBook, s.dates.near) == OfDate(s.midBook, DateAt(s.dates.near))
    ensures FilterBook(s.midBook, s.dates.next) == OfDate(s.midBook, DateAt(s.dates.next))
  {
    FilterIsExact(s.midBook, s.dates.near);
    FilterIsExact(s.midBook, s.dates.next);
  }

  function Refreshed(s: State): State {
    s.(midBook := Current(s.midBook, DateAt(s.dates.near), DateAt(s.dates.next)))
  }

  lemma ForwardIgnoresExpired(cfg: Config, refDate: int, book: seq<Entry>, near: Date, next: Date, list: seq<Symbol>)
    requires DistinctSymbols(book)
    requires forall x | x in list :: x.expiry == near || x.expiry == next
    ensures ForwardOf(cfg, refDate, Current(book, near, next), list) == ForwardOf(cfg, refDate, book, list)
  {
    SeriesAreListed(list);
    forall s | s in AllSeries(list)
      ensures s.expiry == near || s.expiry == next
    {
      var x :| x in list && SeriesOf(x) == s;
    }
    CurrentBestPair(book, near, next, AllSeries(list));
  }

  lemma FilterIgnoresExpired(cfg: Config, book: seq<Entry>, near: int, next: int)
    requires GoodCatalogue(cfg) && GoodBook(cfg, book) && GoodExpiry(near) && GoodExpiry(next)
    ensures var current := Current(book, DateAt(near), DateAt(next));
      FilterBook(current, near) == FilterBook(book, near) && FilterBook(current, next) == FilterBook(book, next)
  {
    CurrentKeeps(book, DateAt(near), DateAt(next));
    CurrentMembers(book, DateAt(near), DateAt(next));
    FilterIsExact(book, near);
    FilterIsExact(book, next);
    FilterIsExact(Current(book, DateAt(near), DateAt(next)), near);
    FilterIsExact(Current(book, DateAt(near), DateAt(next)), next);
  }

  /** Entries of expired options, which nobody removes from the book, make no difference: the whole
      computation is that on a book with only the near and next entries. */
  lemma ExpiredEntriesAreIgnored(cfg: Config, s: State)
    requires GoodState(cfg, s) && s.dates.near < s.dates.next
    ensures Calculate(cfg, s) == Calculate(cfg, Refreshed(s))
  {
    InputsIgnoreExpired(cfg, s);
  }

  lemma InputsIgnoreExpired(cfg: Config, s: State)
    requires GoodState(cfg, s)
    ensures InputsOf(cfg, Refreshed(s)) == InputsOf(cfg, s)
  {
    ForwardsIgnoreExpired(cfg, s);
    FilterIgnoresExpired(cfg, s.midBook, s.dates.near, s.dates.next);
  }

  lemma ForwardsIgnoreExpired(cfg: Config, s: State)
    requires GoodState(cfg, s)
    ensures ForwardOf(cfg, s.refDate, Refreshed(s).midBook, s.nearList) == ForwardOf(cfg, s.refDate, s.midBook, s.nearList)
    ensures ForwardOf(cfg, s.refDate, Refreshed(s).midBook, s.nextList) == ForwardOf(cfg, s.refDate, s.midBook, s.nextList)
  {
    ListMembers(cfg.catalogue, s.dates.near);
    ListMembers(cfg.catalogue, s.dates.next);
    ForwardIgnoresExpired(cfg, s.refDate, s.midBook, DateAt(s.dates.near), DateAt(s.dates.next), s.nearList);
    ForwardIgnoresExpired(cfg, s.refDate, s.midBook, DateAt(s.dates.near), DateAt(s.dates.next), s.nextList);
  }

  // ----- when a computation succeeds

  /** Without a complete pair of one expiry the whole computation fails. */
  lemma NoPairNoIndex(cfg: Config, s: State)
    requires s.dates.near < s.dates.next
    requires BestPair(s.midBook, AllSeries(s.nearList)).None? || BestPair(s.midBook, AllSeries(s.nextList)).None?
    ensures Calculate(cfg, s).None?
  {
    NoPairNoBook(s.nearList, FilterBook(s.midBook, s.dates.near), 1.0);
    NoPairNoBook(s.nextList, FilterBook(s.midBook, s.dates.next), 1.0);
  }

  lemma IsStripOfBook(book: seq<Entry>, d: Date, target: nat)
    ensures IsStrip(OfDate(book, d), target) <==> HasStrip(book, d, target)
  {
    var entries := OfDate(book, d);
    OfDateMembers(book, d);
    forall call, put
      ensures HasBoth(entries, target, call, put) <==>
              HasBoth(book, target, call, put) && call.symbol.expiry == d && put.symbol.expiry == d
    {
    }
    forall e
      ensures e in entries && OutOfTheMoney(e, target) <==> e in book && e.symbol.expiry == d && OutOfTheMoney(e, target)
    {
    }
  }

  /** On the date the book has both mids at the strike, and a put below or a call above it. */
  ghost predicate HasStrip(book: seq<Entry>, d: Date, target: nat) {
    && (exists call, put :: HasBoth(book, target, call, put) && call.symbol.expiry == d && put.symbol.expiry == d)
    && (exists e :: e in book && e.symbol.expiry == d && OutOfTheMoney(e, target))
  }

  /** It succeeds exactly when both expiries have a strip around the strike next to their forward price. */
  lemma CalculateSucceedsIff(cfg: Config, s: State)
    requires GoodState(cfg, s) && s.dates.near < s.dates.next
    ensures var x := InputsOf(cfg, s);
      Calculate(cfg, s).Some? <==>
        HasStrip(s.midBook, DateAt(s.dates.near), x.k1) && HasStrip(s.midBook, DateAt(s.dates.next), x.k2)
  {
    var x := InputsOf(cfg, s);
    InputsAreGood(cfg, s);
    BookIsFiltered(cfg, s);
    ContributesIff(x.nearEntries, x.k1);
    ContributesIff(x.nextEntries, x.k2);
    IsStripOfBook(s.midBook, DateAt(s.dates.near), x.k1);
    IsStripOfBook(s.midBook, DateAt(s.dates.next), x.k2);
  }

  // ----- sound computations

  ghost predicate SoundBook(book: seq<Leg>, contribution: real) {
    && 2 <= |book| && StrictlyAscending(book)
    && (forall leg | leg in book :: leg.price > 0.0)
    && Contribution(book) == Some(contribution) && contribution > 0.0
  }

  ghost predicate Sound(c: Calculation) {
    && SoundBook(c.nearBook, c.nearContribution) && SoundBook(c.nextBook, c.nextContribution)
    && c.nearTime <= N14 < c.nextTime
    && Interpolates(c.nearWeight, c.nextWeight, c.nearTime, c.nextTime)
    && (c.nearVariance <= c.blended <= c.nextVariance || c.nextVariance <= c.blended <= c.nearVariance)
  }

  lemma {:induction false} PriceBound(book: seq<Leg>) returns (price: real)
    ensures forall i | 0 <= i < |book| :: book[i].price <= price
  {
    if book == [] {
      price := 0.0;
    } else {
      price := PriceBound(book[1..]);
      if price < book[0].price {
        price := book[0].price;
      }
      assert forall i | 0 < i < |book| :: book[i] == book[1..][i - 1];
    }
  }

  lemma BookIsSound(entries: seq<Entry>, target: nat)
    requires DistinctSymbols(entries) && OneSeries(entries) && forall e | e in entries :: e.mid > 0.0
    requires FinalBook(entries, target).Some? && Contribution(FinalBook(entries, target).value).Some?
    ensures SoundBook(FinalBook(entries, target).value, Contribution(FinalBook(entries, target).value).value)
  {
    var book := FinalBook(entries, target).value;
    FinalBookShape(entries, target);
    FinalBookIsPositive(entries, target);
    assert forall i | 0 <= i < |book| :: book[i] in book;
    var price := PriceBound(book);
    ContributionIsBounded(book, price);
  }

  ghost predicate GoodEntries(entries: seq<Entry>) {
    DistinctSymbols(entries) && OneSeries(entries) && forall e | e in entries :: e.mid > 0.0
  }

  ghost predicate GoodInputs(x: Inputs) {
    GoodEntries(x.nearEntries) && GoodEntries(x.nextEntries) && x.nearTime <= N14 < x.nextTime
  }

  lemma InputsAreGood(cfg: Config, s: State)
    requires GoodState(cfg, s)
    ensures GoodInputs(InputsOf(cfg, s))
  {
    BookIsFiltered(cfg, s);
    OfDateMembers(s.midBook, DateAt(s.dates.near));
    OfDateMembers(s.midBook, DateAt(s.dates.next));
    DatesBracketTwoWeeks(s.refDate);
  }

  lemma AssembledIsSound(cfg: Config, x: Inputs)
    requires GoodInputs(x) && Assemble(cfg, x).Some?
    ensures Sound(Assemble(cfg, x).value)
  {
    var c := Assemble(cfg, x).value;
    BookIsSound(x.nearEntries, x.k1);
    BookIsSound(x.nextEntries, x.k2);
    WeightsInterpolate(x.nearTime, x.nextTime);
    BlendIsBetween(c.nearWeight, c.nextWeight, c.nearVariance, c.nextVariance);
  }

  /** Whenever book assembly succeeds, everything computed from the books is sound. */
  lemma CalculationIsSound(cfg: Config, s: State)
    requires GoodState(cfg, s) && s.dates.near < s.dates.next && Calculate(cfg, s).Some?
    ensures Sound(Calculate(cfg, s).value)
  {
    InputsAreGood(cfg, s);
    AssembledIsSound(cfg, InputsOf(cfg, s));
  }

  // ----- right computations

  lemma ForwardExists(cfg: Config, refDate: int, book: seq<Entry>, list: seq<Symbol>)
    requires AdjacentStrike(list, ForwardOf(cfg, refDate, book, list)) > 0
    ensures IsParityForward(cfg, refDate, book, list, ForwardOf(cfg, refDate, book, list))
    ensures IsAdjacent(list, ForwardOf(cfg, refDate, book, list), AdjacentStrike(list, ForwardOf(cfg, refDate, book, list)))
  {
    if BestPair(book, AllSeries(list)).None? {
      AdjacentIsGreatest(list, 0.0);
    } else {
      ForwardIsParity(cfg, refDate, book, list);
    }
    AdjacentIsRight(list, ForwardOf(cfg, refDate, book, list));
  }

  lemma BookIsRight(cfg: Config, s: State, expiry: int, strike: nat)
    requires GoodState(cfg, s) && GoodExpiry(expiry)
    requires FinalBook(FilterBook(s.midBook, expiry), strike).Some?
    ensures IsFinalBook(s.midBook, DateAt(expiry), strike, FinalBook(FilterBook(s.midBook, expiry), strike).value)
  {
    FilterIsExact(s.midBook, expiry);
    OfDateMembers(s.midBook, DateAt(expiry));
    FinalBookIsRight(s.midBook, DateAt(expiry), strike, FilterBook(s.midBook, expiry));
  }

  lemma VarianceIsRight(cfg: Config, time: int, strike: nat, forward: real, contribution: real)
    requires strike > 0
    ensures IsVariance(cfg, time, strike, forward, contribution,
                       ModSigmaSquared(cfg.exp(Area(RISKLESS_RATE, time as real / N365 as real)), contribution, forward, strike))
  {
    assert Area(RISKLESS_RATE, time as real / N365 as real) == 0.0056 * (time as real / (365 * MS_PER_DAY) as real);
    ModSigmaIsVariance(GrowthOver(cfg, time), contribution, forward, strike);
  }

  /** The parts of a successful computation for one expiry, as the code composes them. */
  ghost predicate IsComposed(
    cfg: Config, s: State, expiry: int, list: seq<Symbol>, time: int, forward: real, strike: nat, legs: seq<Leg>,
    contribution: real, variance: real)
  {
    && time == expiry - s.refDate
    && forward == ForwardOf(cfg, s.refDate, s.midBook, list) && strike == AdjacentStrike(list, forward)
    && strike > 0 && legs != []
    && FinalBook(FilterBook(s.midBook, expiry), strike) == Some(legs) && Contribution(legs) == Some(contribution)
    && variance == ModSigmaSquared(cfg.exp(Area(RISKLESS_RATE, time as real / N365 as real)), contribution, forward, strike)
  }

  lemma HalfIsRight(
    cfg: Config, s: State, expiry: int, list: seq<Symbol>, time: int, forward: real, strike: nat, legs: seq<Leg>,
    contribution: real, variance: real)
    requires GoodState(cfg, s) && GoodExpiry(expiry)
    requires IsComposed(cfg, s, expiry, list, time, forward, strike, legs, contribution, variance)
    ensures IsHalf(cfg, s.refDate, s.midBook, expiry, list, time, forward, strike, legs, contribution, variance)
  {
    ForwardExists(cfg, s.refDate, s.midBook, list);
    BookIsRight(cfg, s, expiry, strike);
    ContributionIsRight(legs);
    VarianceIsRight(cfg, time, strike, forward, contribution);
  }

  lemma CalculationIsComposed(cfg: Config, s: State)
    requires s.dates.near < s.dates.next && Calculate(cfg, s).Some?
    requires var c := Calculate(cfg, s).value; c.nearBook != [] && c.nextBook != []
    ensures var c := Calculate(cfg, s).value;
      && IsComposed(cfg, s, s.dates.near, s.nearList,
                    c.nearTime, c.nearForward, c.nearStrike, c.nearBook, c.nearContribution, c.nearVariance)
      && IsComposed(cfg, s, s.dates.next, s.nextList,
                    c.nextTime, c.nextForward, c.nextStrike, c.nextBook, c.nextContribution, c.nextVariance)
      && c.nearTime < c.nextTime
      && c.blended == Area(c.nearVariance, NearWeight(c.nearTime, c.nextTime)) + Area(c.nextVariance, NextWeight(c.nearTime, c.nextTime))
  {
  }

  lemma BooksAreThere(cfg: Config, s: State)
    requires GoodState(cfg, s) && s.dates.near < s.dates.next && Calculate(cfg, s).Some?
    ensures Calculate(cfg, s).value.nearBook != [] && Calculate(cfg, s).value.nextBook != []
  {
    CalculationIsSound(cfg, s);
  }

  lemma BlendIsRight(c: Calculation)
    requires c.nearTime < c.nextTime
    requires c.blended == Area(c.nearVariance, NearWeight(c.nearTime, c.nextTime)) + Area(c.nextVariance, NextWeight(c.nearTime, c.nextTime))
    ensures IsBlend(c)
  {
    WeightedIsBlend(c.nearTime, c.nextTime, c.nearVariance, c.nextVariance);
  }

  lemma ComposedIsRight(cfg: Config, s: State, c: Calculation)
    requires GoodState(cfg, s)
    requires IsComposed(cfg, s, s.dates.near, s.nearList,
                        c.nearTime, c.nearForward, c.nearStrike, c.nearBook, c.nearContribution, c.nearVariance)
    requires IsComposed(cfg, s, s.dates.next, s.nextList,
                        c.nextTime, c.nextForward, c.nextStrike, c.nextBook, c.nextContribution, c.nextVariance)
    requires IsBlend(c)
    ensures IsRight(cfg, s, c)
  {
    HalfIsRight(cfg, s, s.dates.near, s.nearList,
                c.nearTime, c.nearForward, c.nearStrike, c.nearBook, c.nearContribution, c.nearVariance);
    HalfIsRight(cfg, s, s.dates.next, s.nextList,
                c.nextTime, c.nextForward, c.nextStrike, c.nextBook, c.nextContribution, c.nextVariance);
  }

  /** Every successful computation satisfies the equations of both expiries and of the blend. */
  lemma CalculationIsRight(cfg: Config, s: State)
    requires GoodState(cfg, s) && s.dates.near < s.dates.next && Calculate(cfg, s).Some?
    ensures IsRight(cfg, s, Calculate(cfg, s).value)
  {
    var c := Calculate(cfg, s).value;
    BooksAreThere(cfg, s);
    CalculationIsComposed(cfg, s);
    BlendIsRight(c);
    ComposedIsRight(cfg, s, c);
  }

  // ----- runs

  /** Quotes are of subscribed symbols, with non-negative prices. */
  ghost predicate GoodFeed(cfg: Config) {
    forall r: Request, q | q in cfg.feed(r) :: q.symbol in r.symbols && NonNegativePrices(q)
  }

  /** The run stays within the century. */
  predicate GoodPeriod(cfg: Config) {
    && 0 <= cfg.startDate / MS_PER_DAY + EPOCH_DAY
    && InCentury(DateAt(cfg.startDate)) && InCentury(DateAt(cfg.startDate + cfg.maxDuration + 21 * MS_PER_DAY))
    && InCentury(DateAt(cfg.startDate + 21 * MS_PER_DAY))
  }

  /** The state of an attempt: the dates and lists of its reference date, the book of its history. */
  function AttemptState(cfg: Config, refDate: int, h: seq<Quote>): State {
    SetUp(cfg, State(refDate, Dates(0, 0, 0), [], [], BookOf(h), None, refDate, [], [], [], [], 0), refDate)
  }

  /** After this history an attempt succeeds exactly when both expiries have a strip around a strike
      next to a parity forward; then its computation is sound and right. */
  ghost predicate AttemptIsRight(cfg: Config, h: seq<Quote>, a: Attempt) {
    ResultIsRight(cfg, AttemptState(cfg, a.refDate, h), a.result)
  }

  ghost predicate ResultIsRight(cfg: Config, s: State, result: Option<Calculation>) {
    && (result.Some? <==> IsComputable(cfg, s))
    && (result.Some? ==> Sound(result.value) && IsRight(cfg, s, result.value))
  }

  /** Only these fields of the state matter. */
  lemma RightDependsOn(cfg: Config, s: State, t: State, result: Option<Calculation>)
    requires t.refDate == s.refDate && t.dates == s.dates && t.midBook == s.midBook
    requires t.nearList == s.nearList && t.nextList == s.nextList && ResultIsRight(cfg, s, result)
    ensures ResultIsRight(cfg, t, result)
  {
  }

  ghost predicate IsComputable(cfg: Config, s: State) {
    HasIndexStrip(cfg, s, s.dates.near, s.nearList) && HasIndexStrip(cfg, s, s.dates.next, s.nextList)
  }

  ghost predicate HasIndexStrip(cfg: Config, s: State, expiry: int, list: seq<Symbol>) {
    HasStrip(s.midBook, DateAt(expiry), AdjacentStrike(list, ForwardOf(cfg, s.refDate, s.midBook, list)))
  }

  /** One attempt after each quote, each of them right. */
  ghost predicate AttemptsAreRight(cfg: Config, history: seq<Quote>, attempts: seq<Attempt>) {
    |attempts| == |history| && forall i | 0 <= i < |history| :: AttemptIsRight(cfg, history[..i + 1], attempts[i])
  }

  ghost predicate RunInv(cfg: Config, s: State) {
    GoodState(cfg, s) && s.midBook == BookOf(s.history) && AttemptsAreRight(cfg, s.history, s.attempts)
  }

  lemma CenturyIsConvex(t: int, u: int, v: int)
    requires t <= u <= v && 0 <= t / MS_PER_DAY + EPOCH_DAY
    requires InCentury(DateAt(t)) && InCentury(DateAt(v))
    ensures InCentury(DateAt(u)) && 0 <= u / MS_PER_DAY + EPOCH_DAY
  {
    assert t / MS_PER_DAY <= u / MS_PER_DAY <= v / MS_PER_DAY;
    DayIndexKeepsOrder(DateAt(u), DateAt(t));
    DayIndexKeepsOrder(DateAt(v), DateAt(u));
  }

  lemma ListedIsFriday(cfg: Config, s: State, symbol: Symbol)
    requires GoodCatalogue(cfg) && InStep(cfg, s) && GoodExpiry(s.dates.near) && GoodExpiry(s.dates.next)
    requires symbol in s.nearList + s.nextList
    ensures symbol in cfg.catalogue && IsFriday(symbol.expiry)
  {
    ListMembers(cfg.catalogue, s.dates.near);
    ListMembers(cfg.catalogue, s.dates.next);
    FridayDate(s.dates.near);
    FridayDate(s.dates.next);
  }

  lemma MidBookStaysGood(cfg: Config, book: seq<Entry>, q: Quote)
    requires GoodBook(cfg, book) && NonNegativePrices(q)
    requires q.symbol in cfg.catalogue && IsFriday(q.symbol.expiry)
    ensures GoodBook(cfg, MidBookAfter(book, q))
  {
    if MidOf(q).Some? {
      MidIsPositive(q);
      SetEntryIsUpdate(book, q.symbol, MidOf(q).value);
    }
  }

  lemma StoredIsGood(cfg: Config, s: State, q: Quote)
    requires GoodState(cfg, s) && s.midBook == BookOf(s.history)
    requires q.symbol in s.nearList + s.nextList && NonNegativePrices(q)
    ensures GoodState(cfg, Store(s, q)) && Store(s, q).midBook == BookOf(Store(s, q).history)
  {
    ListedIsFriday(cfg, s, q.symbol);
    MidBookStaysGood(cfg, s.midBook, q);
    assert (s.history + [q])[..|s.history|] == s.history;
  }

  lemma AttemptStateIs(cfg: Config, s: State)
    requires GoodState(cfg, s) && s.midBook == BookOf(s.history)
    ensures var t := AttemptState(cfg, s.refDate, s.history);
      && t.refDate == s.refDate && t.dates == s.dates && t.midBook == s.midBook
      && t.nearList == s.nearList && t.nextList == s.nextList
  {
  }

  lemma ResultOf(cfg: Config, s: State)
    requires GoodState(cfg, s) && s.dates.near < s.dates.next
    ensures ResultIsRight(cfg, s, Calculate(cfg, s))
  {
    ComputesIff(cfg, s);
    if Calculate(cfg, s).Some? {
      CalculationIsSound(cfg, s);
      CalculationIsRight(cfg, s);
    }
  }

  lemma ComputesIff(cfg: Config, s: State)
    requires GoodState(cfg, s) && s.dates.near < s.dates.next
    ensures Calculate(cfg, s).Some? <==> IsComputable(cfg, s)
  {
    CalculateSucceedsIff(cfg, s);
  }

  lemma AttemptOf(cfg: Config, s: State)
    requires GoodState(cfg, s) && s.midBook == BookOf(s.history) && s.dates.near < s.dates.next
    ensures AttemptIsRight(cfg, s.history, Attempt(s.refDate, Calculate(cfg, s)))
  {
    AttemptStateIs(cfg, s);
    ResultOf(cfg, s);
    RightDependsOn(cfg, s, AttemptState(cfg, s.refDate, s.history), Calculate(cfg, s));
  }

  lemma AttemptsExtend(cfg: Config, history: seq<Quote>, attempts: seq<Attempt>, q: Quote, a: Attempt)
    requires AttemptsAreRight(cfg, history, attempts) && AttemptIsRight(cfg, history + [q], a)
    ensures AttemptsAreRight(cfg, history + [q], attempts + [a])
  {
    var more := history + [q];
    forall i | 0 <= i < |more|
      ensures AttemptIsRight(cfg, more[..i + 1], (attempts + [a])[i])
    {
      if i < |history| {
        assert more[..i + 1] == history[..i + 1];
      } else {
        assert more[..i + 1] == more;
      }
    }
  }

  /** What a quote changes: the book and the three logs, nothing else that a computation reads. */
  lemma ConsumeFrame(cfg: Config, s: State, q: Quote)
    requires s.dates.near < s.dates.next
    ensures var s', stored := Consume(cfg, s, q), Store(s, q);
      && s'.refDate == s.refDate && s'.dates == s.dates && s'.nearList == s.nearList && s'.nextList == s.nextList
      && s'.midBook == stored.midBook && s'.history == stored.history == s.history + [q]
      && s'.attempts == s.attempts + [Attempt(s.refDate, Calculate(cfg, stored))]
  {
  }

  lemma ConsumeKeeps(cfg: Config, s: State, q: Quote)
    requires RunInv(cfg, s) && s.dates.near < s.dates.next
    requires q.symbol in s.nearList + s.nextList && NonNegativePrices(q)
    ensures RunInv(cfg, Consume(cfg, s, q))
  {
    StoredIsGood(cfg, s, q);
    AttemptOf(cfg, Store(s, q));
    AttemptsExtend(cfg, s.history, s.attempts, q, Attempt(s.refDate, Calculate(cfg, Store(s, q))));
    ConsumeFrame(cfg, s, q);
  }

  lemma {:induction false} SegmentKeepsInv(cfg: Config, s: State, quotes: seq<Quote>)
    requires RunInv(cfg, s) && s.dates.near < s.dates.next
    requires forall q | q in quotes :: q.symbol in s.nearList + s.nextList && NonNegativePrices(q)
    ensures RunInv(cfg, Segment(cfg, s, quotes).0)
    decreases |quotes|
  {
    if quotes != [] {
      ConsumeKeeps(cfg, s, quotes[0]);
      if VerdictOn(cfg, s, quotes[0]) == Continue {
        SegmentKeepsInv(cfg, Consume(cfg, s, quotes[0]), quotes[1..]);
      }
    }
  }

  lemma ExpiriesAreGood(cfg: Config, refDate: int)
    requires GoodPeriod(cfg) && cfg.startDate <= refDate
    requires refDate == cfg.startDate || refDate < cfg.startDate + cfg.maxDuration
    ensures var d := RolloverWeekly(refDate); GoodExpiry(d.near) && GoodExpiry(d.next)
  {
    var d := RolloverWeekly(refDate);
    DatesBracketTwoWeeks(refDate);
    var last := if refDate == cfg.startDate then cfg.startDate + 21 * MS_PER_DAY else cfg.startDate + cfg.maxDuration + 21 * MS_PER_DAY;
    CenturyIsConvex(cfg.startDate, d.near, last);
    CenturyIsConvex(cfg.startDate, d.next, last);
  }

  lemma FeedIsListed(cfg: Config, s: State)
    requires GoodFeed(cfg)
    ensures forall q | q in cfg.feed(RequestFor(cfg, s)) :: q.symbol in s.nearList + s.nextList && NonNegativePrices(q)
  {
    assert RequestFor(cfg, s).symbols == s.nearList + s.nextList;
  }

  lemma OpeningKeeps(cfg: Config, s: State)
    requires RunInv(cfg, s)
    ensures RunInv(cfg, OpenStream(s))
  {
  }

  lemma StreamKeepsInv(cfg: Config, s: State)
    requires GoodFeed(cfg) && RunInv(cfg, s) && s.dates.near < s.dates.next
    ensures RunInv(cfg, Streamed(cfg, s).0)
  {
    FeedIsListed(cfg, s);
    OpeningKeeps(cfg, s);
    SegmentKeepsInv(cfg, OpenStream(s), cfg.feed(RequestFor(cfg, s)));
  }

  ghost predicate SoundRun(cfg: Config, end: State) {
    (forall e | e in end.midBook :: e.mid > 0.0) && end.midBook == BookOf(end.history) && AttemptsAreRight(cfg, end.history, end.attempts)
  }

  lemma SetUpKeepsInv(cfg: Config, s: State)
    requires GoodPeriod(cfg) && RunInv(cfg, s) && cfg.startDate <= s.dates.rollover < cfg.startDate + cfg.maxDuration
    ensures RunInv(cfg, SetUp(cfg, s, s.dates.rollover))
  {
    ExpiriesAreGood(cfg, s.dates.rollover);
  }

  lemma StreamRestarts(cfg: Config, s: State)
    requires GoodPeriod(cfg) && cfg.startDate <= s.refDate && InStep(cfg, s) && s.dates.near < s.dates.next
    requires Streamed(cfg, s).1 != Done && RunInv(cfg, Streamed(cfg, s).0)
    ensures var s2 := SetUp(cfg, Streamed(cfg, s).0, s.dates.rollover);
      RunInv(cfg, s2) && cfg.startDate <= s2.refDate && 0 < Remaining(cfg, s2) < Remaining(cfg, s)
  {
    InStepIsOrdered(cfg, s);
    SegmentKeeps(cfg, OpenStream(s), cfg.feed(RequestFor(cfg, s)));
    SetUpKeepsInv(cfg, Streamed(cfg, s).0);
  }

  /** Over any run, through any number of rollovers: mids stay positive and are the last ones quoted,
      every quote makes one attempt, every attempt is right, and the run completes exactly once. */
  lemma {:induction false} RunIsSound(cfg: Config, s: State)
    requires GoodFeed(cfg) && GoodPeriod(cfg)
    requires RunInv(cfg, s) && cfg.startDate <= s.refDate
    ensures SoundRun(cfg, Run(cfg, s)) && Run(cfg, s).completions == s.completions + 1
    decreases Remaining(cfg, s)
  {
    InStepIsOrdered(cfg, s);
    StreamKeepsInv(cfg, s);
    SegmentKeeps(cfg, OpenStream(s), cfg.feed(RequestFor(cfg, s)));
    var (s1, verdict) := Streamed(cfg, s);
    if verdict != Done {
      StreamRestarts(cfg, s);
      RunIsSound(cfg, SetUp(cfg, s1, s.dates.rollover));
    }
  }

  lemma WholeRun(cfg: Config)
    requires GoodCatalogue(cfg) && GoodFeed(cfg) && GoodPeriod(cfg)
    ensures var end := Run(cfg, Start(cfg));
      && SoundRun(cfg, end) && end.completions == 1
      && Logged(cfg, end) && NextRef(cfg.startDate, End(cfg), Arrivals(end.history, end.attempts)) == end.refDate
  {
    StartIsGood(cfg);
    RunIsSound(cfg, Start(cfg));
    WholeRunIsLogged(cfg);
  }

  lemma StartIsGood(cfg: Config)
    requires GoodCatalogue(cfg) && GoodPeriod(cfg)
    ensures RunInv(cfg, Start(cfg)) && Start(cfg).refDate == cfg.startDate && Start(cfg).completions == 0
    ensures Start(cfg).midBook == []
  {
    ExpiriesAreGood(cfg, cfg.startDate);
  }

  /** At a rollover the old next expiry becomes the near one, and everything moves on by a week. */
  lemma RolloverMovesOneWeek(cfg: Config, s: State)
    requires InStep(cfg, s)
    ensures SetUp(cfg, s, s.dates.rollover).dates ==
            Dates(s.dates.next, s.dates.next + 7 * MS_PER_DAY, s.dates.rollover + 7 * MS_PER_DAY)
  {
    InStepIsOrdered(cfg, s);
    DatesMoveAtRollover(s.refDate, s.dates.rollover);
  }
}
