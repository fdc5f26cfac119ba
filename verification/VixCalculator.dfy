/** The class `VixCalculator` (V1) itself, proved to run the machine of `VixV1`. */
module VixCalculators {
  import opened Instants
  import opened MarketData
  import opened OptionNames
  import opened VixStrips
  import opened VixBooks
  import opened WeeklyExpiries
  import opened VixV1
  import opened ReportClock

  class VixCalculator {
    const cfg: Config
    var refDate: int
    var rolloverAt: int
    var nearExpiry: int
    var nextExpiry: int
    var nearOptionList: seq<Symbol>
    var nextOptionList: seq<Symbol>
    var midBook: seq<Entry>
    var index: Option<real>              // the variance under the root
    var published: seq<Publication>      // the calls of `onCompute`
    var completions: nat                 // the calls of `onComplete`

    ghost var clock: int                 // `lastReport`, a local of the stream
    ghost var history: seq<Quote>
    ghost var attempts: seq<Attempt>
    ghost var reports: seq<Report>

    ghost function Abs(): State
      reads this
    {
      State(refDate, Dates(nearExpiry, nextExpiry, rolloverAt), nearOptionList, nextOptionList,
            midBook, index, clock, published, history, attempts, reports, completions)
    }

    constructor (cfg: Config)
      ensures this.cfg == cfg && refDate == clock == cfg.startDate
      ensures Dates(nearExpiry, nextExpiry, rolloverAt) == RolloverWeekly(cfg.startDate)
      ensures midBook == [] && index == None && published == [] && completions == 0
      ensures history == [] && attempts == [] && reports == []
    {
      this.cfg := cfg;
      refDate, clock := cfg.startDate, cfg.startDate;
      midBook, index, published, completions := [], None, [], 0;
      history, attempts, reports := [], [], [];
      nearOptionList, nextOptionList := [], [];
      new;
      SetupRollover();
    }

    method FetchIndex()
      requires refDate == clock == cfg.startDate && Dates(nearExpiry, nextExpiry, rolloverAt) == RolloverWeekly(refDate)
      requires midBook == [] && index == None && published == [] && completions == 0
      requires history == [] && attempts == [] && reports == []
      modifies this
      ensures Abs() == Run(cfg, Start(cfg))
    {
      BuildOptionLists();
      assert Abs() == Start(cfg);
      SummaryStream();
    }

    /** `rolloverWeekly`, by the weekday of the reference date. */
    method SetupRollover()
      modifies this`nextExpiry, this`nearExpiry, this`rolloverAt
      ensures Dates(nearExpiry, nextExpiry, rolloverAt) == RolloverWeekly(refDate)
    {
      if DayOfWeek(refDate) == 5 && HourOfDay(refDate) >= 8 {
        nextExpiry := EightOClockPlus(refDate, 21);
      } else if DayOfWeek(refDate) == 6 {
        nextExpiry := EightOClockPlus(refDate, 20);
      } else {
        nextExpiry := EightOClockPlus(refDate, 19 - DayOfWeek(refDate));
      }
      nearExpiry := nextExpiry - 7 * MS_PER_DAY;
      rolloverAt := nextExpiry - 14 * MS_PER_DAY;
    }

    method BuildOptionLists()
      modifies this`nearOptionList, this`nextOptionList
      ensures nearOptionList == ListFor(cfg.catalogue, nearExpiry)
      ensures nextOptionList == ListFor(cfg.catalogue, nextExpiry)
    {
      nearOptionList, nextOptionList := ListBoth(cfg.catalogue, nearExpiry, nextExpiry);
    }

    static method ListBoth(instruments: seq<Symbol>, near: int, next: int) returns (nearList: seq<Symbol>, nextList: seq<Symbol>)
      ensures nearList == ListFor(instruments, near) && nextList == ListFor(instruments, next)
    {
      nearList, nextList := [], [];
      for i := 0 to |instruments|
        invariant nearList == ListFor(instruments[..i], near) && nextList == ListFor(instruments[..i], next)
      {
        assert instruments[..i + 1][..i] == instruments[..i];
        if ExpiresOn(instruments[i], near) {
          nearList := nearList + [instruments[i]];
        }
        if ExpiresOn(instruments[i], next) {
          nextList := nextList + [instruments[i]];
        }
      }
      assert instruments[..|instruments|] == instruments;
    }

    method SummaryStream()
      requires InStep(cfg, Abs())
      modifies this
      ensures Abs() == old(Run(cfg, Abs()))
      decreases Remaining(cfg, Abs())
    {
      ghost var s := Abs();
      InStepIsOrdered(cfg, s);
      var request := CreateStream();
      clock := refDate - MS_PER_MINUTE;
      var verdict := StreamQuotes(cfg.feed(request), refDate - MS_PER_MINUTE);
      assert (Abs(), verdict) == Streamed(cfg, s);
      SegmentKeeps(cfg, OpenStream(s), cfg.feed(request));
      if verdict == RollOver {
        Rollover();
        SummaryStream();
      } else {
        completions := completions + 1;
      }
    }

    method CreateStream() returns (request: Request)
      ensures request == RequestFor(cfg, Abs())
    {
      var symbols, maxRef := nearOptionList + nextOptionList, refDate + cfg.maxDuration;
      request :=
        if cfg.isPast(refDate) then Replay(symbols, refDate, if maxRef > rolloverAt then rolloverAt else maxRef)
        else Live(symbols);
    }

    method Rollover()
      modifies this`refDate, this`nextExpiry, this`nearExpiry, this`rolloverAt, this`nearOptionList, this`nextOptionList
      ensures Abs() == SetUp(cfg, old(Abs()), old(rolloverAt))
    {
      refDate := rolloverAt;
      SetupRollover();
      BuildOptionLists();
    }

    /** The `for await` loop. */
    method StreamQuotes(quotes: seq<Quote>, lastReport: int) returns (verdict: Verdict)
      requires nearExpiry < nextExpiry && lastReport == clock
      modifies this`midBook, this`index, this`history, this`attempts, this`published, this`reports, this`clock
      ensures (Abs(), verdict) == Segment(cfg, old(Abs()), quotes)
    {
      ghost var s := Abs();
      var lastReport := lastReport;
      for i := 0 to |quotes|
        invariant lastReport == clock && nearExpiry < nextExpiry
        invariant Segment(cfg, Abs(), quotes[i..]) == Segment(cfg, s, quotes)
      {
        assert quotes[i..][0] == quotes[i] && quotes[i..][1..] == quotes[i + 1..];
        verdict, lastReport := OnQuote(quotes[i], lastReport);
        if verdict != Continue {
          return;
        }
      }
      verdict := Done;
    }

    /** The body of the loop: store the mid, recompute, publish when due, decide how to go on. */
    method OnQuote(q: Quote, lastReport: int) returns (verdict: Verdict, lastReport': int)
      requires nearExpiry < nextExpiry && lastReport == clock
      modifies this`midBook, this`index, this`history, this`attempts, this`published, this`reports, this`clock
      ensures lastReport' == clock
      ensures Abs() == Consume(cfg, old(Abs()), q)
      ensures verdict == VerdictOn(cfg, old(Abs()), q)
    {
      var ts := q.timestamp / MS_PER_SECOND * MS_PER_SECOND;
      ts := ts + (5 - ts / MS_PER_SECOND % 60 % 5) * MS_PER_SECOND;
      lastReport' := TakeQuote(q, ts, lastReport);
      verdict :=
        if ts - cfg.startDate >= cfg.maxDuration then Done
        else if ts >= rolloverAt then RollOver
        else Continue;
    }

    /** Stores the mid, recomputes and publishes. */
    method TakeQuote(q: Quote, ts: int, lastReport: int) returns (lastReport': int)
      requires nearExpiry < nextExpiry && ts == Tick(q.timestamp) && lastReport == clock
      modifies this`midBook, this`index, this`history, this`attempts, this`published, this`reports, this`clock
      ensures lastReport' == clock
      ensures Abs() == Consume(cfg, old(Abs()), q)
    {
      MidBookChange(q);
      history := history + [q];
      ghost var stored := Abs();
      assert stored == Store(old(Abs()), q);
      CalculateIndex();
      ghost var recalculated := Abs();
      assert recalculated == Recalculate(cfg, stored);
      lastReport' := PublishIndex(q, ts, lastReport);
    }

    /** Publishes whatever index there is, also an old one. */
    method PublishIndex(q: Quote, ts: int, lastReport: int) returns (lastReport': int)
      requires ts == Tick(q.timestamp) && lastReport == clock
      modifies this`published, this`reports, this`clock
      ensures lastReport' == clock && Abs() == Publish(cfg, old(Abs()), q)
    {
      lastReport' := lastReport;
      if ts - lastReport >= cfg.reportFrequency {
        lastReport' := ts;
        clock := ts;
        var publication := Publication(ts, index, OrZero(q.underlyingPrice));
        published := published + [publication];
        reports := reports + [VixV1.Report(refDate, |history|, publication)];
      }
    }

    method MidBookChange(q: Quote)
      modifies this`midBook
      ensures midBook == MidBookAfter(old(midBook), q)
    {
      var underlying := OrZero(q.underlyingPrice);
      var bid := Area(OrZero(q.bestBidPrice), underlying);
      var ask := Area(OrZero(q.bestAskPrice), underlying);
      var mark := Area(OrZero(q.markPrice), underlying);
      var mid := 0.0;
      if bid != 0.0 {
        mid := (ask + bid) / 2.0;
        if mid >= 1.5 * mark {
          mid := mark;
        }
      }
      if mid != 0.0 {
        midBook := SetEntry(midBook, q.symbol, mid);
      }
    }

    /** Leaves the index alone where the source throws. */
    method CalculateIndex()
      requires nearExpiry < nextExpiry
      modifies this`index, this`attempts
      ensures Abs() == Recalculate(cfg, old(Abs()))
    {
      var x := GatherInputs();
      var c := Blend(x);
      attempts := attempts + [Attempt(refDate, c)];
      if c.Some? {
        index := Some(c.value.Annualized());
      }
    }

    method GatherInputs() returns (x: Inputs)
      ensures x == InputsOf(cfg, Abs())
    {
      var f1 := ForwardPriceGet(nearOptionList);
      var f2 := ForwardPriceGet(nextOptionList);
      var k1 := AdjacentStrikeGet(nearOptionList, f1);
      var k2 := AdjacentStrikeGet(nextOptionList, f2);
      var nearEntries := Filter(nearExpiry);
      var nextEntries := Filter(nextExpiry);
      x := Inputs(nearExpiry - refDate, nextExpiry - refDate, f1, f2, k1, k2, nearEntries, nextEntries);
    }

    method Blend(x: Inputs) returns (r: Option<Calculation>)
      requires x.nearTime < x.nextTime
      ensures r == Assemble(cfg, x)
    {
      var nearBook := FinalBookGet(x.nearEntries, x.k1);
      var nextBook := FinalBookGet(x.nextEntries, x.k2);
      if nearBook.None? || nextBook.None? {
        return None;
      }
      var c1 := ContributionGet(nearBook.value);
      var c2 := ContributionGet(nextBook.value);
      if c1.None? || c2.None? {
        return None;
      }
      r := Some(Combine(cfg, x, nearBook.value, nextBook.value, c1.value, c2.value));
    }

    method Filter(expiry: int) returns (entries: seq<Entry>)
      ensures entries == FilterBook(midBook, expiry)
    {
      entries := [];
      for i := 0 to |midBook|
        invariant entries == FilterBook(midBook[..i], expiry)
      {
        assert midBook[..i + 1][..i] == midBook[..i];
        if Mentions(midBook[i].symbol, expiry) {
          entries := entries + [midBook[i]];
        }
      }
      assert midBook[..|midBook|] == midBook;
    }

    /** One pass over the distinct series, keeping the pair with the smallest gap so far. */
    method ForwardPriceGet(optionList: seq<Symbol>) returns (forward: real)
      ensures forward == ForwardOf(cfg, refDate, midBook, optionList)
    {
      var best := BestPairGet(AllSeries(optionList));
      if best.None? {
        forward := 0.0;
      } else {
        var p := best.value;
        var growth := cfg.exp(Area(RISKLESS_RATE, cfg.yearFraction(p.series.expiry, refDate)));
        forward := p.series.strike as real + Area(growth, p.call - p.put);
      }
    }

    method BestPairGet(list: seq<Series>) returns (best: Option<Pair>)
      ensures best == BestPair(midBook, list)
    {
      var smallestDiff := 0.0;
      best := None;
      for i := 0 to |list|
        invariant best == BestPair(midBook, list[..i])
        invariant best.Some? ==> smallestDiff == Gap(best.value)
      {
        assert list[..i + 1][..i] == list[..i];
        var callMid := Lookup(midBook, SymbolOf(list[i], Call));
        var putMid := Lookup(midBook, SymbolOf(list[i], OptionType.Put));
        if callMid.Some? && putMid.Some? {
          var diff := Magnitude(callMid.value - putMid.value);
          if best.None? || diff < smallestDiff {
            smallestDiff := diff;
            best := Some(Pair(list[i], callMid.value, putMid.value));
          }
        }
      }
      assert list[..|list|] == list;
    }
  }
}
