/** The class `VixCalculatorV2` itself, proved to run the machine of `VixV2`. */
module VixCalculatorsV2 {
  import opened Instants
  import opened MarketData
  import opened History
  import opened ListedExpiries
  import opened ReportClock
  import opened VixV2

  class VixCalculatorV2 {
    const cfg: Config
    var refDate: int
    var expiries: Expiries
    var midBook: map<string, OptionSummary>
    var options: map<string, OptionSummary>
    var index: Option<Index>
    var published: seq<Index>  // the calls of `onCompute`
    var completions: nat       // the calls of `onComplete`

    ghost var clock: int       // `lastReport`, a local of the stream
    ghost var history: seq<OptionSummary>
    ghost var eras: seq<Era>
    ghost var reports: seq<Report>
    ghost var rollovers: seq<int>

    ghost function Abs(): State
      reads this
    {
      State(refDate, expiries, midBook, options, index, clock, published, completions, history, eras, reports, rollovers)
    }

    /** Both books are keyed by the symbol of the message they hold. */
    ghost predicate Valid()
      reads this
    {
      && (forall k | k in midBook :: midBook[k].symbol == k)
      && (forall k | k in options :: options[k].symbol == k)
    }

    constructor (cfg: Config)
      ensures this.cfg == cfg && refDate == cfg.startDate
      ensures midBook == map[] && options == map[] && index == None && published == [] && completions == 0
      ensures history == [] && eras == [] && reports == [] && rollovers == [] && clock == cfg.startDate
    {
      this.cfg := cfg;
      refDate, midBook, options, index := cfg.startDate, map[], map[], None;
      expiries := Expiries([], map[], 0, 0, [], [], 0);  // assigned by FetchIndex
      published, completions := [], 0;
      clock, history, eras, reports, rollovers := cfg.startDate, [], [], [], [];
    }

    /** Called on a new calculator; `false` when `buildExpiries` threw. */
    method FetchIndex() returns (ok: bool)
      requires midBook == map[] && options == map[] && index == None && published == [] && completions == 0
      requires history == [] && eras == [] && reports == [] && rollovers == [] && clock == refDate == cfg.startDate
      modifies this
      ensures match ExpiriesAt(cfg.catalogue, cfg.startDate, cfg.timePeriod)
              case Found(e) => Abs() == Run(cfg, Start(cfg, e)).state && ok == Run(cfg, Start(cfg, e)).Completed?
              case _ => !ok && Abs() == old(Abs())
    {
      var lookup := BuildExpiries(cfg.catalogue, refDate, cfg.timePeriod);
      if !lookup.Found? {
        return false;
      }
      expiries := lookup.expiries;
      assert Abs() == Start(cfg, lookup.expiries);
      ok := SummaryStream();
    }

    method CreateStream() returns (request: Request)
      ensures request == RequestFor(cfg, Abs())
    {
      var maxRef := refDate + cfg.maxDuration;
      var replayTo := if maxRef > expiries.rolloverAt then expiries.rolloverAt else maxRef;
      var symbols := (set x | x in expiries.nearSymbols) + set x | x in expiries.nextSymbols;
      if expiries.expiryList != [] && expiries.expiryList[0] in expiries.expiryMap {
        symbols := symbols + set x | x in expiries.expiryMap[expiries.expiryList[0]];
      }
      request := if cfg.isPast(refDate) then Replay(symbols, refDate, replayTo) else Live(symbols);
    }

    method SummaryStream() returns (completed: bool)
      requires Valid() && InStep(cfg, Abs())
      modifies this
      ensures Valid()
      ensures Abs() == old(Run(cfg, Abs())).state && completed == old(Run(cfg, Abs())).Completed?
      decreases Remaining(cfg, Abs())
    {
      ghost var s := Abs();
      var verdict := OpenAndStream();
      SegmentKeeps(cfg, OpenStream(s), cfg.feed(RequestFor(cfg, s)));
      if verdict == RollOver {
        completed := Rollover(s);
      } else {
        completed := Complete(s);
      }
    }

    /** Starts the report clock, opens the stream and loops over it. */
    method OpenAndStream() returns (verdict: Verdict)
      requires Valid()
      modifies this`options, this`midBook, this`history, this`eras, this`index, this`published, this`clock, this`reports
      ensures Valid()
      ensures (Abs(), verdict) == Streamed(cfg, old(Abs()))
    {
      var request := CreateStream();
      var lastReport := refDate - MS_PER_MINUTE;
      clock := lastReport;
      assert Abs() == OpenStream(old(Abs()));
      verdict := StreamMessages(cfg.feed(request), lastReport);
    }

    /** Calls `onComplete`. */
    method Complete(ghost s: State) returns (completed: bool)
      requires Valid() && InStep(cfg, s) && Streamed(cfg, s) == (Abs(), Done)
      modifies this`completions
      ensures Valid() && completed
      ensures Run(cfg, s) == Completed(Abs())
    {
      RunWhenDone(cfg, s, Abs());
      completions := completions + 1;
      completed := true;
    }

    /** The `for await` loop. */
    method StreamMessages(messages: seq<OptionSummary>, lastReport: int) returns (verdict: Verdict)
      requires Valid() && lastReport == clock
      modifies this`options, this`midBook, this`history, this`eras, this`index, this`published, this`clock, this`reports
      ensures Valid()
      ensures (Abs(), verdict) == Segment(cfg, old(Abs()), messages)
    {
      ghost var s := Abs();
      var lastReport := lastReport;
      for i := 0 to |messages|
        invariant Valid() && lastReport == clock
        invariant Segment(cfg, Abs(), messages[i..]) == Segment(cfg, s, messages)
      {
        assert messages[i..][0] == messages[i] && messages[i..][1..] == messages[i + 1..];
        verdict, lastReport := OnMessage(messages[i], lastReport);
        if verdict != Continue {
          return;
        }
      }
      verdict := Done;
    }

    /** The body of the `for await` loop: store, report when due, then decide how to go on. */
    method OnMessage(message: OptionSummary, lastReport: int) returns (verdict: Verdict, lastReport': int)
      requires Valid() && lastReport == clock
      modifies this`options, this`midBook, this`history, this`eras, this`index, this`published, this`clock, this`reports
      ensures Valid() && lastReport' == clock
      ensures Abs() == Consume(cfg, old(Abs()), message)
      ensures verdict == VerdictOn(cfg, old(Abs()), message)
    {
      lastReport' := lastReport;
      history, eras := history + [message], eras + [Era(refDate, expiries)];
      if message.expirationDate != expiries.nearExpiry && message.expirationDate != expiries.nextExpiry {
        options := options[message.symbol := message];
        return Continue, lastReport';
      }
      midBook := midBook[message.symbol := message];

      var ts := message.timestamp / MS_PER_SECOND * MS_PER_SECOND;
      ts := ts + (5 - ts / MS_PER_SECOND % 60 % 5) * MS_PER_SECOND;
      if ts - lastReport >= cfg.reportFrequency {
        Report(message, ts);
        lastReport' := ts;
      }

      verdict :=
        if ts - cfg.startDate >= cfg.maxDuration then Done
        else if ts >= expiries.rolloverAt then RollOver
        else Continue;
    }

    /** The `try` block: a failed computation clears the index, a successful one is published. */
    method Report(message: OptionSummary, ts: int)
      requires Valid() && ts == Tick(message.timestamp)
      modifies this`index, this`published, this`clock, this`reports
      ensures Abs() == ReportOn(cfg, old(Abs()), message)
    {
      ghost var params := ParamsFor(Abs(), message);
      var result := cfg.compute(ComputeParams(
                                  message.timestamp, expiries.nearExpiry, expiries.nextExpiry, midBook, OrZero(message.underlyingPrice)));
      if result.Some? {
        var e := result.value;
        index := Some(Index(
                        OrZero(e.value), OrZero(e.dVol), OrZero(e.invdVol), e.estimatedFor,
                        OrZero(message.underlyingPrice), expiries.nearExpiry, expiries.nextExpiry));
      } else {
        index := None;
      }
      clock := ts;
      reports := reports + [VixV2.Report(ts, refDate, message, params, |history|, index)];
      if index.Some? {
        published := published + [index.value];
      }
    }

    /** The rollover branch, up to and including the recursive call; `s` is the state in which the
        stream was opened. */
    method Rollover(ghost s: State) returns (completed: bool)
      requires Valid() && InStep(cfg, s) && refDate == s.refDate && expiries == s.expiries
      requires Streamed(cfg, s) == (Abs(), RollOver)
      modifies this
      ensures Valid()
      ensures Abs() == Run(cfg, s).state && completed == Run(cfg, s).Completed?
      decreases Remaining(cfg, s), 0
    {
      RunWhenRolledOver(cfg, s, Abs());
      var lookup := BuildExpiries(cfg.catalogue, expiries.rolloverAt, cfg.timePeriod);
      if !lookup.Found? {
        refDate := expiries.rolloverAt;
        return false;
      }
      AdoptExpiries(lookup.expiries);
      completed := SummaryStream();
    }

    /** The new reference date and expiries; if near has moved, so do the books. */
    method AdoptExpiries(e: Expiries)
      requires Valid()
      modifies this
      ensures Valid()
      ensures Abs() == Adopt(old(Abs()), e)
    {
      var oldNear := expiries.nearExpiry;
      refDate := expiries.rolloverAt;
      expiries := e;
      rollovers := rollovers + [refDate];
      if oldNear != expiries.nearExpiry {
        DeleteEntries(oldNear);
        CopyOptions(expiries.nextExpiry);
        options := map[];
      }
    }

    /** Deletes the entries of one expiry, by the symbol of each. */
    method DeleteEntries(target: int)
      requires Valid()
      modifies this`midBook
      ensures Valid()
      ensures midBook == map k | k in old(midBook) && old(midBook)[k].expirationDate != target :: old(midBook)[k]
    {
      var values := midBook;
      var left := values.Keys;
      while left != {}
        invariant left <= values.Keys
        invariant midBook == map k | k in values && (k in left || values[k].expirationDate != target) :: values[k]
      {
        var k :| k in left;
        if values[k].expirationDate == target {
          midBook := midBook - {values[k].symbol};
        }
        left := left - {k};
      }
    }

    /** Copies the side book's entries of one expiry into the book. */
    method CopyOptions(target: int)
      requires Valid()
      modifies this`midBook
      ensures Valid()
      ensures midBook == old(midBook) + Within(options, {target})
    {
      ghost var was, promoted := midBook, Within(options, {target});
      var left := options.Keys;
      while left != {}
        invariant left <= options.Keys
        invariant Valid()
        invariant midBook == was + (promoted - left)
      {
        var k :| k in left;
        if options[k].expirationDate == target {
          midBook := midBook[options[k].symbol := options[k]];
        }
        assert promoted - (left - {k}) == if k in promoted then (promoted - left)[k := options[k]] else promoted - left;
        left := left - {k};
      }
    }
  }
}
