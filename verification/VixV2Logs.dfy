/** The loop of the V2 calculator over whole runs: which messages a stream consumes, when it rolls
    over, and that a report is made exactly when one is due. */
module VixV2Logs {
  import opened Instants
  import opened MarketData
  import opened ListedExpiries
  import opened ReportClock
  import opened ReportLogs
  import opened VixV2

  /** The end of the period. */
  function End(cfg: Config): int {
    cfg.startDate + cfg.maxDuration
  }

  /** Only messages of near and next count. */
  function ArrivalOf(m: OptionSummary, era: Era): Arrival {
    Arrival(era.refDate, era.expiries.rolloverAt, Tick(m.timestamp),
            m.expirationDate == era.expiries.nearExpiry || m.expirationDate == era.expiries.nextExpiry)
  }

  function Arrivals(history: seq<OptionSummary>, eras: seq<Era>): seq<Arrival>
    requires |eras| == |history|
  {
    seq(|history|, i requires 0 <= i < |history| => ArrivalOf(history[i], eras[i]))
  }

  function FiledOf(reports: seq<Report>): seq<Filed> {
    seq(|reports|, i requires 0 <= i < |reports| => Filed(reports[i].refDate, reports[i].at, reports[i].consumed))
  }

  lemma ArrivalsExtend(history: seq<OptionSummary>, eras: seq<Era>, m: OptionSummary, era: Era)
    requires |eras| == |history|
    ensures Arrivals(history + [m], eras + [era]) == Arrivals(history, eras) + [ArrivalOf(m, era)]
  {
  }

  lemma FiledExtend(reports: seq<Report>, r: Report)
    ensures FiledOf(reports + [r]) == FiledOf(reports) + [Filed(r.refDate, r.at, r.consumed)]
  {
  }

  // ----- one stream

  /** The messages of a stream, all met by one reference date. */
  function ArrivalsIn(messages: seq<OptionSummary>, era: Era): seq<Arrival> {
    seq(|messages|, i requires 0 <= i < |messages| => ArrivalOf(messages[i], era))
  }

  lemma VerdictIs(cfg: Config, s: State, m: OptionSummary)
    ensures var a := ArrivalOf(m, Era(s.refDate, s.expiries));
      && (VerdictOn(cfg, s, m) == Continue <==> !Stops(End(cfg), a))
      && (VerdictOn(cfg, s, m) == RollOver <==> Turns(End(cfg), a))
      && (VerdictOn(cfg, s, m) == Done <==> Ends(End(cfg), a))
  {
  }

  /** From `s` the stream has come to `s'`, having consumed the right messages. */
  ghost predicate Consumes(cfg: Config, s: State, messages: seq<OptionSummary>, s': State, verdict: Verdict) {
    var consumed := |s'.history| - |s.history|;
    && 0 <= consumed <= |messages| && s'.history == s.history + messages[..consumed]
    && ConsumedRight(End(cfg), ArrivalsIn(messages, Era(s.refDate, s.expiries)), verdict == RollOver, consumed)
  }

  lemma ConsumesOne(cfg: Config, s: State, messages: seq<OptionSummary>, s': State, verdict: Verdict)
    requires messages != [] && s'.history == s.history + [messages[0]]
    requires verdict == VerdictOn(cfg, s, messages[0]) != Continue
    ensures Consumes(cfg, s, messages, s', verdict)
  {
    VerdictIs(cfg, s, messages[0]);
    StopsAtOnce(End(cfg), ArrivalsIn(messages, Era(s.refDate, s.expiries)));
    assert messages[..1] == [messages[0]];
  }

  lemma ConsumesMore(cfg: Config, s: State, messages: seq<OptionSummary>, s1: State, s': State, verdict: Verdict)
    requires messages != [] && VerdictOn(cfg, s, messages[0]) == Continue
    requires s1.history == s.history + [messages[0]] && s1.refDate == s.refDate && s1.expiries == s.expiries
    requires Consumes(cfg, s1, messages[1..], s', verdict)
    ensures Consumes(cfg, s, messages, s', verdict)
  {
    var era, n := Era(s.refDate, s.expiries), |s'.history| - |s1.history|;
    VerdictIs(cfg, s, messages[0]);
    assert ArrivalsIn(messages, era)[1..] == ArrivalsIn(messages[1..], era);
    StopsLater(End(cfg), ArrivalsIn(messages, era), verdict == RollOver, n);
    Appended(s.history, messages, n, s'.history);
  }

  lemma {:induction false} SegmentConsumes(cfg: Config, s: State, messages: seq<OptionSummary>)
    ensures Consumes(cfg, s, messages, Segment(cfg, s, messages).0, Segment(cfg, s, messages).1)
    decreases |messages|
  {
    if messages != [] {
      var s1 := Consume(cfg, s, messages[0]);
      ConsumeStores(cfg, s, messages[0]);
      if VerdictOn(cfg, s, messages[0]) == Continue {
        SegmentConsumes(cfg, s1, messages[1..]);
        ConsumesMore(cfg, s, messages, s1, Segment(cfg, s, messages).0, Segment(cfg, s, messages).1);
      } else {
        ConsumesOne(cfg, s, messages, s1, VerdictOn(cfg, s, messages[0]));
      }
    }
  }

  /** A stream rolls over if and only if its first message of near or next whose tick reaches the
      rollover or the end of the period comes before that end.  It has consumed the messages up to
      that one; if there is none, all of them, and it is done. */
  lemma StreamConsumes(cfg: Config, s: State)
    ensures var (s', verdict) := Streamed(cfg, s);
      Consumes(cfg, s, cfg.feed(RequestFor(cfg, s)), s', verdict) && (verdict == RollOver || verdict == Done)
  {
    SegmentConsumes(cfg, OpenStream(s), cfg.feed(RequestFor(cfg, s)));
    SegmentKeeps(cfg, OpenStream(s), cfg.feed(RequestFor(cfg, s)));
  }

  // ----- whole runs

  ghost predicate EraIsFound(cfg: Config, era: Era) {
    ExpiriesAt(cfg.catalogue, era.refDate, cfg.timePeriod) == Found(era.expiries)
  }

  ghost predicate ErasAreFound(cfg: Config, s: State) {
    |s.eras| == |s.history| && forall era | era in s.eras :: EraIsFound(cfg, era)
  }

  /** Of the run so far: each message met the reference date that the messages before it lead to, with
      the expiries of that date, and made a report if and only if one was due. */
  ghost predicate Logged(cfg: Config, s: State) {
    ErasAreFound(cfg, s) &&
    Fits(cfg.startDate, End(cfg), cfg.reportFrequency, Arrivals(s.history, s.eras), FiledOf(s.reports))
  }

  /** A stream is going on. */
  ghost predicate Streaming(cfg: Config, s: State) {
    && InStep(cfg, s) && Logged(cfg, s)
    && GoesOn(cfg.startDate, End(cfg), Arrivals(s.history, s.eras), FiledOf(s.reports), s.refDate, s.lastReport)
  }

  /** The logs after a message. */
  lemma ConsumeLogs(cfg: Config, s: State, m: OptionSummary)
    requires |s.eras| == |s.history|
    requires LastAt(FiledOf(s.reports), s.refDate, |s.history|) == s.lastReport
    ensures var s', a := Consume(cfg, s, m), ArrivalOf(m, Era(s.refDate, s.expiries));
      var arrivals, filed := Arrivals(s.history, s.eras), FiledOf(s.reports);
      && s'.eras == s.eras + [Era(s.refDate, s.expiries)] && |s'.eras| == |s'.history| == |s.history| + 1
      && Arrivals(s'.history, s'.eras) == arrivals + [a]
      && FiledOf(s'.reports) == filed + FileFor(cfg.reportFrequency, arrivals, filed, a)
      && s'.lastReport == if FileFor(cfg.reportFrequency, arrivals, filed, a) != [] then a.tick else s.lastReport
  {
    ArrivalsExtend(s.history, s.eras, m, Era(s.refDate, s.expiries));
    if OnBook(s, m) && IsDue(cfg, s, m) {
      FiledExtend(s.reports, VixV2.Report(Tick(m.timestamp), s.refDate, m, ParamsFor(Store(s, m), m), |s.history| + 1,
                                          CalculateIndex(cfg, ParamsFor(Store(s, m), m))));
    } else {
      assert FiledOf(s.reports) + [] == FiledOf(s.reports);
    }
  }

  lemma ConsumeKeepsEras(cfg: Config, s: State, m: OptionSummary)
    requires InStep(cfg, s) && ErasAreFound(cfg, s)
    ensures ErasAreFound(cfg, Consume(cfg, s, m)) && InStep(cfg, Consume(cfg, s, m))
  {
    var era := Era(s.refDate, s.expiries);
    ConsumeStores(cfg, s, m);
    assert EraIsFound(cfg, era);
    assert Consume(cfg, s, m).eras == s.eras + [era];
  }

  lemma ConsumeIsLogged(cfg: Config, s: State, m: OptionSummary)
    requires Streaming(cfg, s)
    ensures VerdictOn(cfg, s, m) == Continue ==> Streaming(cfg, Consume(cfg, s, m))
    ensures VerdictOn(cfg, s, m) != Continue ==> StreamLogged(cfg, s, Consume(cfg, s, m), VerdictOn(cfg, s, m))
  {
    VerdictIs(cfg, s, m);
    ConsumeKeepsEras(cfg, s, m);
    ConsumeLogs(cfg, s, m);
    ConsumeStores(cfg, s, m);
    Arrives(cfg.startDate, End(cfg), cfg.reportFrequency, Arrivals(s.history, s.eras), FiledOf(s.reports),
            ArrivalOf(m, Era(s.refDate, s.expiries)), s.lastReport);
  }

  /** How a stream leaves the logs. */
  ghost predicate StreamLogged(cfg: Config, s: State, s': State, verdict: Verdict) {
    && Logged(cfg, s')
    && Leads(cfg.startDate, End(cfg), Arrivals(s'.history, s'.eras), s.refDate, verdict == RollOver,
             if verdict == RollOver then s.expiries.rolloverAt else s.refDate)
  }

  lemma {:induction false} SegmentIsLogged(cfg: Config, s: State, messages: seq<OptionSummary>)
    requires Streaming(cfg, s)
    ensures StreamLogged(cfg, s, Segment(cfg, s, messages).0, Segment(cfg, s, messages).1)
    decreases |messages|
  {
    if messages != [] {
      ConsumeIsLogged(cfg, s, messages[0]);
      ConsumeStores(cfg, s, messages[0]);
      if VerdictOn(cfg, s, messages[0]) == Continue {
        SegmentIsLogged(cfg, Consume(cfg, s, messages[0]), messages[1..]);
      }
    }
  }

  lemma AdoptIsStreaming(cfg: Config, s: State, s': State, e: Expiries)
    requires StreamLogged(cfg, s, s', RollOver) && s'.expiries == s.expiries
    requires s.refDate < s.expiries.rolloverAt && InStep(cfg, Adopt(s', e))
    ensures Streaming(cfg, OpenStream(Adopt(s', e)))
  {
    var t := OpenStream(Adopt(s', e));
    assert t.refDate == s.expiries.rolloverAt && t.expiries == e && t.lastReport == t.refDate - MS_PER_MINUTE;
    assert t.history == s'.history && t.eras == s'.eras && t.reports == s'.reports;
    Turned(cfg.startDate, End(cfg), cfg.reportFrequency, Arrivals(s'.history, s'.eras), FiledOf(s'.reports), s.refDate, t.refDate);
  }

  /** Over any run, through any number of rollovers: the logs are those of the loop, and the run stands
      at the reference date that its messages lead to. */
  lemma {:induction false} RunIsLogged(cfg: Config, s: State)
    requires InStep(cfg, s) && Streaming(cfg, OpenStream(s))
    ensures var end := Run(cfg, s).state;
      Logged(cfg, end) && NextRef(cfg.startDate, End(cfg), Arrivals(end.history, end.eras)) == end.refDate
    decreases Remaining(cfg, s)
  {
    SegmentIsLogged(cfg, OpenStream(s), cfg.feed(RequestFor(cfg, s)));
    SegmentKeeps(cfg, OpenStream(s), cfg.feed(RequestFor(cfg, s)));
    var next := AfterStream(cfg, s);
    if next.Ended? {
      EndedFacts(cfg, s);
    } else {
      RestartFacts(cfg, s);
      RolloverIsAhead(cfg, s);
      AdoptIsStreaming(cfg, OpenStream(s), next.before, next.expiries);
      RunIsLogged(cfg, Adopt(next.before, next.expiries));
    }
  }

  /** From the first lookup on. */
  lemma WholeRunIsLogged(cfg: Config, e: Expiries)
    requires ExpiriesAt(cfg.catalogue, cfg.startDate, cfg.timePeriod) == Found(e)
    ensures var end := Run(cfg, Start(cfg, e)).state;
      Logged(cfg, end) && NextRef(cfg.startDate, End(cfg), Arrivals(end.history, end.eras)) == end.refDate
  {
    StartIsStreaming(cfg, e);
    RunIsLogged(cfg, Start(cfg, e));
  }

  lemma StartIsStreaming(cfg: Config, e: Expiries)
    requires ExpiriesAt(cfg.catalogue, cfg.startDate, cfg.timePeriod) == Found(e)
    ensures Streaming(cfg, OpenStream(Start(cfg, e)))
  {
  }

  /** In the terms of messages and reports: message `n` has a report if and only if it is of the near
      or next expiry of its reference date and its tick is at least the report frequency after the
      last report of that reference date, or after a minute before it. */
  lemma ReportIsMadeIff(cfg: Config, s: State, n: nat)
    requires Logged(cfg, s) && n < |s.history|
    ensures var m, era := s.history[n], s.eras[n];
      (exists r :: r in s.reports && r.consumed == n + 1) <==>
        && (m.expirationDate == era.expiries.nearExpiry || m.expirationDate == era.expiries.nextExpiry)
        && Tick(m.timestamp) >= LastAt(FiledOf(s.reports), era.refDate, n) + cfg.reportFrequency
  {
    var arrivals, filed := Arrivals(s.history, s.eras), FiledOf(s.reports);
    assert IsFiled(filed, n) <==> IsDueAt(cfg.reportFrequency, arrivals, filed, n);
    if k :| 0 <= k < |filed| && filed[k].consumed == n + 1 {
      assert s.reports[k] in s.reports && s.reports[k].consumed == n + 1;
    }
    if r :| r in s.reports && r.consumed == n + 1 {
      var k :| 0 <= k < |s.reports| && s.reports[k] == r;
      assert filed[k].consumed == n + 1;
    }
  }
}
