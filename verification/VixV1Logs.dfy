/** The loop of the V1 calculator over whole runs: what a stream asks for and consumes, when it rolls
    over, which quotes are followed by a publication, and what is published. */
module VixV1Logs {
  import opened Instants
  import opened MarketData
  import opened OptionNames
  import opened WeeklyExpiries
  import opened ReportClock
  import opened ReportLogs
  import opened VixV1

  /** The end of the period. */
  function End(cfg: Config): int {
    cfg.startDate + cfg.maxDuration
  }

  /** Every quote counts. */
  function ArrivalOf(q: Quote, refDate: int): Arrival {
    Arrival(refDate, RolloverWeekly(refDate).rollover, Tick(q.timestamp), true)
  }

  function Arrivals(history: seq<Quote>, attempts: seq<Attempt>): seq<Arrival>
    requires |attempts| == |history|
  {
    seq(|history|, i requires 0 <= i < |history| => ArrivalOf(history[i], attempts[i].refDate))
  }

  function FiledOf(reports: seq<Report>): seq<Filed> {
    seq(|reports|, i requires 0 <= i < |reports| => Filed(reports[i].refDate, reports[i].publication.timestamp, reports[i].consumed))
  }

  lemma ArrivalsExtend(history: seq<Quote>, attempts: seq<Attempt>, q: Quote, a: Attempt)
    requires |attempts| == |history|
    ensures Arrivals(history + [q], attempts + [a]) == Arrivals(history, attempts) + [ArrivalOf(q, a.refDate)]
  {
  }

  lemma FiledExtend(reports: seq<Report>, r: Report)
    ensures FiledOf(reports + [r]) == FiledOf(reports) + [Filed(r.refDate, r.publication.timestamp, r.consumed)]
  {
  }

  // ----- requests

  /** A stream is asked for the instruments that read like near or next, from the reference date, up to
      the rollover or for the whole duration once more, whichever ends first. */
  lemma RequestIsRight(cfg: Config, s: State)
    requires InStep(cfg, s)
    ensures var r := RequestFor(cfg, s);
      && (forall x :: x in SymbolsOf(r) <==> x in cfg.catalogue && (ReadsLike(x, s.dates.near) || ReadsLike(x, s.dates.next)))
      && (r.Replay? <==> cfg.isPast(s.refDate))
      && (r.Replay? ==>
            && r.from == s.refDate && r.to <= s.dates.rollover && r.to <= s.refDate + cfg.maxDuration
            && (r.to == s.dates.rollover || r.to == s.refDate + cfg.maxDuration))
  {
    ListIsListed(cfg.catalogue, s.dates.near);
    ListIsListed(cfg.catalogue, s.dates.next);
    forall x
      ensures x in s.nearList + s.nextList <==> x in s.nearList || x in s.nextList
    {
    }
  }

  function SymbolsOf(r: Request): seq<Symbol> {
    r.symbols
  }

  predicate ReadsLike(x: Symbol, expiry: int) {
    DayText(x.expiry) == DayText(DateAt(expiry))
  }

  lemma {:induction false} ListIsListed(catalogue: seq<Symbol>, expiry: int)
    ensures forall x :: x in ListFor(catalogue, expiry) <==> x in catalogue && ReadsLike(x, expiry)
  {
    if catalogue != [] {
      var front, last := catalogue[..|catalogue| - 1], catalogue[|catalogue| - 1];
      ListIsListed(front, expiry);
      assert forall x :: x in catalogue <==> x in front || x == last;
    }
  }

  // ----- one stream

  function ArrivalsIn(quotes: seq<Quote>, refDate: int): seq<Arrival> {
    seq(|quotes|, i requires 0 <= i < |quotes| => ArrivalOf(quotes[i], refDate))
  }

  /** The state's dates are those of its reference date. */
  predicate HasDates(s: State) {
    s.dates == RolloverWeekly(s.refDate)
  }

  lemma VerdictIs(cfg: Config, s: State, q: Quote)
    requires HasDates(s)
    ensures var a := ArrivalOf(q, s.refDate);
      && (VerdictOn(cfg, s, q) == Continue <==> !Stops(End(cfg), a))
      && (VerdictOn(cfg, s, q) == RollOver <==> Turns(End(cfg), a))
      && (VerdictOn(cfg, s, q) == Done <==> Ends(End(cfg), a))
  {
  }

  /** From `s` the stream has come to `s'`, having consumed the right quotes. */
  ghost predicate Consumes(cfg: Config, s: State, quotes: seq<Quote>, s': State, verdict: Verdict) {
    var consumed := |s'.history| - |s.history|;
    && 0 <= consumed <= |quotes| && s'.history == s.history + quotes[..consumed]
    && ConsumedRight(End(cfg), ArrivalsIn(quotes, s.refDate), verdict == RollOver, consumed)
  }

  lemma ConsumesOne(cfg: Config, s: State, quotes: seq<Quote>, s': State, verdict: Verdict)
    requires HasDates(s) && quotes != [] && s'.history == s.history + [quotes[0]]
    requires verdict == VerdictOn(cfg, s, quotes[0]) != Continue
    ensures Consumes(cfg, s, quotes, s', verdict)
  {
    VerdictIs(cfg, s, quotes[0]);
    StopsAtOnce(End(cfg), ArrivalsIn(quotes, s.refDate));
    assert quotes[..1] == [quotes[0]];
  }

  lemma ConsumesMore(cfg: Config, s: State, quotes: seq<Quote>, s1: State, s': State, verdict: Verdict)
    requires HasDates(s) && quotes != [] && VerdictOn(cfg, s, quotes[0]) == Continue
    requires s1.history == s.history + [quotes[0]] && s1.refDate == s.refDate
    requires Consumes(cfg, s1, quotes[1..], s', verdict)
    ensures Consumes(cfg, s, quotes, s', verdict)
  {
    var n := |s'.history| - |s1.history|;
    VerdictIs(cfg, s, quotes[0]);
    assert ArrivalsIn(quotes, s.refDate)[1..] == ArrivalsIn(quotes[1..], s.refDate);
    StopsLater(End(cfg), ArrivalsIn(quotes, s.refDate), verdict == RollOver, n);
    Appended(s.history, quotes, n, s'.history);
  }

  /** What a quote changes besides book and index. */
  lemma ConsumeStores(cfg: Config, s: State, q: Quote)
    requires s.dates.near < s.dates.next
    ensures var s' := Consume(cfg, s, q);
      && s'.refDate == s.refDate && s'.dates == s.dates && s'.nearList == s.nearList && s'.nextList == s.nextList
      && s'.history == s.history + [q]
      && s'.attempts == s.attempts + [Attempt(s.refDate, Calculate(cfg, Store(s, q)))]
  {
  }

  lemma {:induction false} SegmentConsumes(cfg: Config, s: State, quotes: seq<Quote>)
    requires HasDates(s) && s.dates.near < s.dates.next
    ensures Consumes(cfg, s, quotes, Segment(cfg, s, quotes).0, Segment(cfg, s, quotes).1)
    decreases |quotes|
  {
    if quotes != [] {
      var s1 := Consume(cfg, s, quotes[0]);
      ConsumeStores(cfg, s, quotes[0]);
      if VerdictOn(cfg, s, quotes[0]) == Continue {
        SegmentConsumes(cfg, s1, quotes[1..]);
        ConsumesMore(cfg, s, quotes, s1, Segment(cfg, s, quotes).0, Segment(cfg, s, quotes).1);
      } else {
        ConsumesOne(cfg, s, quotes, s1, VerdictOn(cfg, s, quotes[0]));
      }
    }
  }

  /** A stream rolls over if and only if its first quote whose tick reaches the rollover or the end of
      the period comes before that end.  It has consumed the quotes up to that one; if there is none,
      all of them, and it is done. */
  lemma StreamConsumes(cfg: Config, s: State)
    requires HasDates(s) && s.dates.near < s.dates.next
    ensures var (s', verdict) := Streamed(cfg, s);
      Consumes(cfg, s, cfg.feed(RequestFor(cfg, s)), s', verdict) && (verdict == RollOver || verdict == Done)
  {
    SegmentConsumes(cfg, OpenStream(s), cfg.feed(RequestFor(cfg, s)));
    SegmentKeeps(cfg, OpenStream(s), cfg.feed(RequestFor(cfg, s)));
  }

  // ----- what is published

  /** The variance of the last successful computation, scaled to a year; none before the first. */
  ghost predicate IsLastVariance(attempts: seq<Attempt>, v: Option<real>) {
    if attempts == [] then v.None?
    else
      match attempts[|attempts| - 1].result
      case Some(c) => v.Some? && 14.0 * v.value == 365.0 * c.blended
      case None => IsLastVariance(attempts[..|attempts| - 1], v)
  }

  /** A publication has the last variance at its quote, and that quote's underlying price and tick. */
  ghost predicate IsPublication(history: seq<Quote>, attempts: seq<Attempt>, r: Report)
    requires |attempts| == |history|
  {
    && 0 < r.consumed <= |history|
    && r.publication.timestamp == Tick(history[r.consumed - 1].timestamp)
    && ReadsAs(history[r.consumed - 1].underlyingPrice, r.publication.underlyingPrice)
    && IsLastVariance(attempts[..r.consumed], r.publication.variance)
  }

  /** `onCompute` has been called with exactly the publications reported, in that order. */
  ghost predicate IsPublished(published: seq<Publication>, reports: seq<Report>) {
    |published| == |reports| && forall i | 0 <= i < |reports| :: published[i] == reports[i].publication
  }

  ghost predicate PublishesRight(s: State) {
    && |s.attempts| == |s.history| && IsLastVariance(s.attempts, s.variance)
    && IsPublished(s.published, s.reports)
    && forall r | r in s.reports :: IsPublication(s.history, s.attempts, r)
  }

  lemma VarianceExtends(attempts: seq<Attempt>, v: Option<real>, a: Attempt)
    requires IsLastVariance(attempts, v)
    ensures IsLastVariance(attempts + [a], if a.result.Some? then Some(a.result.value.Annualized()) else v)
  {
    assert (attempts + [a])[..|attempts|] == attempts;
    if a.result.Some? {
      AnnualizedIsScaled(a.result.value);
    }
  }

  lemma VarianceAfter(cfg: Config, s: State)
    requires s.dates.near < s.dates.next && IsLastVariance(s.attempts, s.variance)
    ensures IsLastVariance(Recalculate(cfg, s).attempts, Recalculate(cfg, s).variance)
  {
    VarianceExtends(s.attempts, s.variance, Attempt(s.refDate, Calculate(cfg, s)));
  }

  lemma AnnualizedIsScaled(c: Calculation)
    ensures 14.0 * c.Annualized() == 365.0 * c.blended
  {
    assert N365 as real / N14 as real == 365.0 / 14.0;
  }

  lemma PublicationsStay(history: seq<Quote>, attempts: seq<Attempt>, q: Quote, a: Attempt, r: Report)
    requires |attempts| == |history| && IsPublication(history, attempts, r)
    ensures IsPublication(history + [q], attempts + [a], r)
  {
    assert (attempts + [a])[..r.consumed] == attempts[..r.consumed];
  }

  /** The state with which `Publish` is entered. */
  lemma RecalculateStays(cfg: Config, s: State, q: Quote)
    requires s.dates.near < s.dates.next && PublishesRight(s)
    ensures PublishesRight(Recalculate(cfg, Store(s, q)))
  {
    var t := Recalculate(cfg, Store(s, q));
    VarianceAfter(cfg, Store(s, q));
    forall r | r in t.reports
      ensures IsPublication(t.history, t.attempts, r)
    {
      PublicationsStay(s.history, s.attempts, q, Attempt(s.refDate, Calculate(cfg, Store(s, q))), r);
    }
  }

  lemma PublishIsRight(cfg: Config, s: State, q: Quote)
    requires PublishesRight(s) && s.history != [] && s.history[|s.history| - 1] == q
    ensures PublishesRight(Publish(cfg, s, q))
  {
    assert s.attempts[..|s.attempts|] == s.attempts;
  }

  lemma ConsumePublishesRight(cfg: Config, s: State, q: Quote)
    requires s.dates.near < s.dates.next && PublishesRight(s)
    ensures PublishesRight(Consume(cfg, s, q))
  {
    RecalculateStays(cfg, s, q);
    PublishIsRight(cfg, Recalculate(cfg, Store(s, q)), q);
  }

  // ----- whole runs

  /** Of the run so far: each quote met the reference date that the quotes before it lead to, was
      followed by a publication if and only if one was due, and that is the right one. */
  ghost predicate Logged(cfg: Config, s: State) {
    PublishesRight(s) &&
    Fits(cfg.startDate, End(cfg), cfg.reportFrequency, Arrivals(s.history, s.attempts), FiledOf(s.reports))
  }

  /** A stream is going on. */
  ghost predicate Streaming(cfg: Config, s: State) {
    && HasDates(s) && Logged(cfg, s)
    && GoesOn(cfg.startDate, End(cfg), Arrivals(s.history, s.attempts), FiledOf(s.reports), s.refDate, s.lastReport)
  }

  /** The logs after a quote. */
  lemma ConsumeLogs(cfg: Config, s: State, q: Quote)
    requires s.dates.near < s.dates.next && |s.attempts| == |s.history|
    requires LastAt(FiledOf(s.reports), s.refDate, |s.history|) == s.lastReport
    ensures var s', a := Consume(cfg, s, q), ArrivalOf(q, s.refDate);
      var arrivals, filed := Arrivals(s.history, s.attempts), FiledOf(s.reports);
      && |s'.attempts| == |s'.history| == |s.history| + 1
      && Arrivals(s'.history, s'.attempts) == arrivals + [a]
      && FiledOf(s'.reports) == filed + FileFor(cfg.reportFrequency, arrivals, filed, a)
      && s'.lastReport == if FileFor(cfg.reportFrequency, arrivals, filed, a) != [] then a.tick else s.lastReport
  {
    var t := Recalculate(cfg, Store(s, q));
    ConsumeStores(cfg, s, q);
    ArrivalsExtend(s.history, s.attempts, q, Attempt(s.refDate, Calculate(cfg, Store(s, q))));
    assert t.reports == s.reports && t.lastReport == s.lastReport && |t.history| == |s.history| + 1;
    if Tick(q.timestamp) - s.lastReport >= cfg.reportFrequency {
      FiledExtend(s.reports, Report(s.refDate, |t.history|, Publication(Tick(q.timestamp), t.variance, OrZero(q.underlyingPrice))));
    } else {
      assert FiledOf(s.reports) + [] == FiledOf(s.reports);
    }
  }

  /** How a stream leaves the logs. */
  ghost predicate StreamLogged(cfg: Config, s: State, s': State, verdict: Verdict) {
    && Logged(cfg, s')
    && Leads(cfg.startDate, End(cfg), Arrivals(s'.history, s'.attempts), s.refDate, verdict == RollOver,
             if verdict == RollOver then s.dates.rollover else s.refDate)
  }

  lemma ConsumeIsLogged(cfg: Config, s: State, q: Quote)
    requires Streaming(cfg, s) && s.dates.near < s.dates.next
    ensures VerdictOn(cfg, s, q) == Continue ==> Streaming(cfg, Consume(cfg, s, q))
    ensures VerdictOn(cfg, s, q) != Continue ==> StreamLogged(cfg, s, Consume(cfg, s, q), VerdictOn(cfg, s, q))
  {
    VerdictIs(cfg, s, q);
    ConsumePublishesRight(cfg, s, q);
    ConsumeLogs(cfg, s, q);
    ConsumeStores(cfg, s, q);
    Arrives(cfg.startDate, End(cfg), cfg.reportFrequency, Arrivals(s.history, s.attempts), FiledOf(s.reports),
            ArrivalOf(q, s.refDate), s.lastReport);
  }

  lemma {:induction false} SegmentIsLogged(cfg: Config, s: State, quotes: seq<Quote>)
    requires Streaming(cfg, s) && s.dates.near < s.dates.next
    ensures StreamLogged(cfg, s, Segment(cfg, s, quotes).0, Segment(cfg, s, quotes).1)
    decreases |quotes|
  {
    if quotes != [] {
      ConsumeIsLogged(cfg, s, quotes[0]);
      ConsumeStores(cfg, s, quotes[0]);
      if VerdictOn(cfg, s, quotes[0]) == Continue {
        SegmentIsLogged(cfg, Consume(cfg, s, quotes[0]), quotes[1..]);
      }
    }
  }

  lemma RestartIsStreaming(cfg: Config, s: State, s': State)
    requires StreamLogged(cfg, s, s', RollOver) && s.refDate < s.dates.rollover
    ensures Streaming(cfg, OpenStream(SetUp(cfg, s', s.dates.rollover)))
  {
    var t := OpenStream(SetUp(cfg, s', s.dates.rollover));
    assert t.refDate == s.dates.rollover && t.lastReport == t.refDate - MS_PER_MINUTE;
    assert t.history == s'.history && t.attempts == s'.attempts && t.reports == s'.reports;
    assert PublishesRight(t);
    Turned(cfg.startDate, End(cfg), cfg.reportFrequency, Arrivals(s'.history, s'.attempts), FiledOf(s'.reports), s.refDate, t.refDate);
  }

  /** Over any run, through any number of rollovers: the logs are those of the loop, and the run stands
      at the reference date that its quotes lead to. */
  lemma {:induction false} RunIsLogged(cfg: Config, s: State)
    requires InStep(cfg, s) && Streaming(cfg, OpenStream(s))
    ensures var end := Run(cfg, s);
      && Logged(cfg, end) && HasDates(end)
      && NextRef(cfg.startDate, End(cfg), Arrivals(end.history, end.attempts)) == end.refDate
    decreases Remaining(cfg, s)
  {
    InStepIsOrdered(cfg, s);
    var quotes := cfg.feed(RequestFor(cfg, s));
    SegmentIsLogged(cfg, OpenStream(s), quotes);
    SegmentKeeps(cfg, OpenStream(s), quotes);
    var (s1, verdict) := Streamed(cfg, s);
    if verdict == Done {
      EndIsLogged(cfg, s, s1);
    } else {
      RestartIsStreaming(cfg, OpenStream(s), s1);
      RunIsLogged(cfg, SetUp(cfg, s1, s1.dates.rollover));
    }
  }

  lemma EndIsLogged(cfg: Config, s: State, s': State)
    requires StreamLogged(cfg, OpenStream(s), s', Done) && s'.refDate == s.refDate
    ensures var end := s'.(completions := s'.completions + 1);
      Logged(cfg, end) && NextRef(cfg.startDate, End(cfg), Arrivals(end.history, end.attempts)) == end.refDate
  {
  }

  /** From the start. */
  lemma WholeRunIsLogged(cfg: Config)
    ensures var end := Run(cfg, Start(cfg));
      && Logged(cfg, end) && HasDates(end)
      && NextRef(cfg.startDate, End(cfg), Arrivals(end.history, end.attempts)) == end.refDate
  {
    StartIsStreaming(cfg);
    RunIsLogged(cfg, Start(cfg));
  }

  lemma StartIsStreaming(cfg: Config)
    ensures Streaming(cfg, OpenStream(Start(cfg)))
  {
    var t := OpenStream(Start(cfg));
    assert t.history == [] && t.attempts == [] && t.reports == [] && t.published == [] && t.variance == None;
    assert t.refDate == cfg.startDate && t.lastReport == cfg.startDate - MS_PER_MINUTE && HasDates(t);
    assert Arrivals(t.history, t.attempts) == [] && FiledOf(t.reports) == [];
    NothingArrived(cfg.startDate, End(cfg), cfg.reportFrequency);
  }

  /** In the terms of quotes and publications: quote `n` is followed by one if and only if its tick is
      at least the report frequency after the last one of its reference date, or after a minute
      before it; so publications of one stream are that far apart. */
  lemma PublicationIsMadeIff(cfg: Config, s: State, n: nat)
    requires Logged(cfg, s) && n < |s.history|
    ensures (exists r :: r in s.reports && r.consumed == n + 1) <==>
            Tick(s.history[n].timestamp) >= LastAt(FiledOf(s.reports), s.attempts[n].refDate, n) + cfg.reportFrequency
  {
    var arrivals, filed := Arrivals(s.history, s.attempts), FiledOf(s.reports);
    assert IsFiled(filed, n) <==> IsDueAt(cfg.reportFrequency, arrivals, filed, n);
    if k :| 0 <= k < |filed| && filed[k].consumed == n + 1 {
      assert s.reports[k] in s.reports && s.reports[k].consumed == n + 1;
    }
    if r :| r in s.reports && r.consumed == n + 1 {
      var k :| 0 <= k < |s.reports| && s.reports[k] == r;
      assert filed[k].consumed == n + 1;
    }
  }

  lemma PublicationsAreSpaced(cfg: Config, s: State, k: nat)
    requires Logged(cfg, s) && cfg.reportFrequency >= 0 && 0 < k < |s.reports|
    ensures var earlier, later := s.reports[k - 1], s.reports[k];
      var distance := later.publication.timestamp - earlier.publication.timestamp;
      && (earlier.refDate == later.refDate ==> distance >= cfg.reportFrequency)
      && (Bounded(Arrivals(s.history, s.attempts)) ==> distance >= cfg.reportFrequency - MS_PER_MINUTE)
  {
    var filed := FiledOf(s.reports);
    assert filed[k] == Filed(s.reports[k].refDate, s.reports[k].publication.timestamp, s.reports[k].consumed);
    assert filed[k - 1].refDate == s.reports[k - 1].refDate && filed[k - 1].at == s.reports[k - 1].publication.timestamp;
    ReportsAreSpaced(cfg.reportFrequency, Arrivals(s.history, s.attempts), filed, k);
  }
}
