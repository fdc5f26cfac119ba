/** What holds of every run of the V2 machine besides its book: what is requested, how often it rolls
    over, which indices it publishes and how its reports are spaced; and all of it together. */
module VixV2Runs {
  import opened Instants
  import opened MarketData
  import opened ListedExpiries
  import opened ReportClock
  import opened VixV2
  import opened VixV2Books
  import opened VixV2Listings
  import opened VixV2Logs
  import opened ReportLogs

  // ----- requests

  /** The earliest active expiry after next. */
  ghost predicate FollowsNext(cfg: Config, s: State, expiry: int) {
    && Active(cfg.catalogue, s.refDate, expiry) && expiry > s.expiries.nextExpiry
    && forall y | Active(cfg.catalogue, s.refDate, y) && y > s.expiries.nextExpiry :: expiry <= y
  }

  lemma FollowsNextIsAfterNext(cfg: Config, s: State, expiry: int)
    requires InStep(cfg, s)
    ensures FollowsNext(cfg, s, expiry) <==> IsAfterNext(s.expiries, expiry)
    ensures s.expiries.expiryList != [] ==> s.expiries.expiryList[0] in s.expiries.expiryMap
  {
    var e := s.expiries;
    NeighboursOfTarget(cfg.catalogue, s.refDate, cfg.timePeriod);
    ExpiryListIsTheRest(cfg.catalogue, s.refDate, Target(cfg, s.refDate), e);
    if e.expiryList != [] {
      assert e.expiryList[0] in e.expiryList;
    }
  }

  ghost predicate IsWantedDate(cfg: Config, s: State, expiry: int) {
    expiry == s.expiries.nearExpiry || expiry == s.expiries.nextExpiry || FollowsNext(cfg, s, expiry)
  }

  /** The instrument is available and of near, next or the expiry after next. */
  ghost predicate IsWanted(cfg: Config, s: State, o: Instrument) {
    o in cfg.catalogue && Available(o, s.refDate) && IsWantedDate(cfg, s, o.expiry)
  }

  lemma SubscribedIff(e: Expiries, id: string)
    ensures id in SubscribedSymbols(e) <==>
            || id in e.nearSymbols || id in e.nextSymbols
            || (e.expiryList != [] && e.expiryList[0] in e.expiryMap && id in e.expiryMap[e.expiryList[0]])
  {
  }

  lemma SymbolsOfGroups(cfg: Config, s: State, id: string)
    requires InStep(cfg, s)
    ensures id in SubscribedSymbols(s.expiries) <==>
            || id in Ids(Group(cfg.catalogue, s.refDate, s.expiries.nearExpiry))
            || id in Ids(Group(cfg.catalogue, s.refDate, s.expiries.nextExpiry))
            || (s.expiries.expiryList != [] && id in Ids(Group(cfg.catalogue, s.refDate, s.expiries.expiryList[0])))
  {
    ContentsOfTarget(cfg.catalogue, s.refDate, cfg.timePeriod);
    SubscribedIff(s.expiries, id);
  }

  lemma WantedIsSubscribed(cfg: Config, s: State, o: Instrument)
    requires InStep(cfg, s) && IsWanted(cfg, s, o)
    ensures o.id in SubscribedSymbols(s.expiries)
  {
    FollowsNextIsAfterNext(cfg, s, o.expiry);
    GroupMembers(cfg.catalogue, s.refDate, o.expiry);
    SymbolsOfGroups(cfg, s, o.id);
  }

  lemma MemberIsWanted(cfg: Config, s: State, id: string, expiry: int)
    requires IsWantedDate(cfg, s, expiry) && id in Ids(Group(cfg.catalogue, s.refDate, expiry))
    ensures exists o :: IsWanted(cfg, s, o) && o.id == id
  {
    GroupMembers(cfg.catalogue, s.refDate, expiry);
    var o :| o in cfg.catalogue && Available(o, s.refDate) && o.expiry == expiry && o.id == id;
    assert IsWanted(cfg, s, o);
  }

  lemma SubscribedIsWanted(cfg: Config, s: State, id: string)
    requires InStep(cfg, s) && id in SubscribedSymbols(s.expiries)
    ensures exists o :: IsWanted(cfg, s, o) && o.id == id
  {
    var e := s.expiries;
    SymbolsOfGroups(cfg, s, id);
    if id in Ids(Group(cfg.catalogue, s.refDate, e.nearExpiry)) {
      MemberIsWanted(cfg, s, id, e.nearExpiry);
    } else if id in Ids(Group(cfg.catalogue, s.refDate, e.nextExpiry)) {
      MemberIsWanted(cfg, s, id, e.nextExpiry);
    } else {
      FollowsNextIsAfterNext(cfg, s, e.expiryList[0]);
      MemberIsWanted(cfg, s, id, e.expiryList[0]);
    }
  }

  /** A stream is asked for exactly the available instruments of three expiries, from the reference
      date, up to the rollover or for the whole duration once more, whichever ends first. */
  lemma RequestCharacterised(cfg: Config, s: State)
    requires InStep(cfg, s)
    ensures var r := RequestFor(cfg, s);
      && (forall id :: id in SymbolsOf(r) <==> exists o :: IsWanted(cfg, s, o) && o.id == id)
      && (r.Replay? <==> cfg.isPast(s.refDate))
      && (r.Replay? ==>
            && r.from == s.refDate && r.to <= s.expiries.rolloverAt && r.to <= s.refDate + cfg.maxDuration
            && (r.to == s.expiries.rolloverAt || r.to == s.refDate + cfg.maxDuration))
  {
    forall id
      ensures id in SubscribedSymbols(s.expiries) <==> exists o :: IsWanted(cfg, s, o) && o.id == id
    {
      if id in SubscribedSymbols(s.expiries) {
        SubscribedIsWanted(cfg, s, id);
      }
      forall o | IsWanted(cfg, s, o)
        ensures o.id in SubscribedSymbols(s.expiries)
      {
        WantedIsSubscribed(cfg, s, o);
      }
    }
    assert SymbolsOf(RequestFor(cfg, s)) == SubscribedSymbols(s.expiries);
  }

  // ----- rollovers and completion

  /** Rollovers so far: distinct listed expiries inside the replay period, the last one being the
      reference date. */
  ghost predicate AreRollovers(cfg: Config, refDate: int, rollovers: seq<int>) {
    && cfg.startDate <= refDate
    && Ascending(rollovers)
    && (forall r | r in rollovers :: r in ReplayExpiries(cfg))
    && (if rollovers == [] then refDate == cfg.startDate else refDate == rollovers[|rollovers| - 1])
  }

  ghost predicate RolloverInv(cfg: Config, s: State) {
    InStep(cfg, s) && AreRollovers(cfg, s.refDate, s.rollovers)
  }

  /** The listed expiries strictly inside the replay period. */
  function ReplayExpiries(cfg: Config): set<int> {
    set e | e in ListedDates(cfg) && cfg.startDate < e < cfg.startDate + cfg.maxDuration
  }

  lemma {:induction false} AscendingFitsInto(s: seq<int>, bound: set<int>)
    requires Ascending(s) && forall x | x in s :: x in bound
    ensures |s| <= |bound|
  {
    if s != [] {
      var n := |s| - 1;
      assert forall x | x in s[..n] :: x in bound - {s[n]};
      AscendingFitsInto(s[..n], bound - {s[n]});
    }
  }

  lemma RolloverIsListed(cfg: Config, s: State)
    requires InStep(cfg, s)
    ensures Listed(cfg, s.expiries.rolloverAt)
  {
    BracketsOfTarget(cfg.catalogue, s.refDate, cfg.timePeriod);
    GroupMembers(cfg.catalogue, s.refDate, s.expiries.rolloverAt);
  }

  lemma RolloverIsInReplay(cfg: Config, s: State)
    requires InStep(cfg, s) && cfg.startDate <= s.refDate && AfterStream(cfg, s).Restart?
    ensures s.expiries.rolloverAt in ReplayExpiries(cfg) && s.refDate < s.expiries.rolloverAt
  {
    RestartFacts(cfg, s);
    RolloverIsAhead(cfg, s);
    RolloverIsListed(cfg, s);
  }

  lemma RestartKeepsRollovers(cfg: Config, s: State)
    requires RolloverInv(cfg, s) && AfterStream(cfg, s).Restart?
    ensures var a := AfterStream(cfg, s); RolloverInv(cfg, Adopt(a.before, a.expiries))
  {
    RestartFacts(cfg, s);
    RolloverIsInReplay(cfg, s);
    AppendRollover(cfg, s.refDate, s.rollovers, s.expiries.rolloverAt);
  }

  lemma AppendRollover(cfg: Config, refDate: int, rollovers: seq<int>, r: int)
    requires AreRollovers(cfg, refDate, rollovers) && refDate < r && r in ReplayExpiries(cfg)
    ensures AreRollovers(cfg, r, rollovers + [r])
  {
  }

  /** A run rolls over at most once per listed expiry of the replay period, calls `onComplete`
      exactly once if it ends normally, and not at all if `buildExpiries` throws. */
  lemma {:induction false} RunIsBounded(cfg: Config, s: State)
    requires RolloverInv(cfg, s)
    ensures var outcome := Run(cfg, s);
      && |outcome.state.rollovers| <= |ReplayExpiries(cfg)|
      && outcome.state.completions == s.completions + if outcome.Completed? then 1 else 0
    decreases Remaining(cfg, s)
  {
    AscendingFitsInto(s.rollovers, ReplayExpiries(cfg));
    var next := AfterStream(cfg, s);
    if next.Ended? {
      EndedFacts(cfg, s);
    } else {
      RestartFacts(cfg, s);
      RestartKeepsRollovers(cfg, s);
      RunIsBounded(cfg, Adopt(next.before, next.expiries));
    }
  }

  // ----- reports

  /** The indices of the reports that had one. */
  function Successes(reports: seq<Report>): seq<Index> {
    if reports == [] then []
    else
      var r := reports[|reports| - 1];
      Successes(reports[..|reports| - 1]) + if r.index.Some? then [r.index.value] else []
  }

  /** There is an index exactly if the library did not throw, and it has the estimate's own numbers. */
  predicate IsIndexOf(estimate: Option<Estimate>, p: ComputeParams, index: Option<Index>) {
    match (estimate, index)
    case (None, None) => true
    case (Some(e), Some(i)) =>
      && ReadsAs(e.value, i.value) && ReadsAs(e.dVol, i.dVol) && ReadsAs(e.invdVol, i.invdVol)
      && i.timestamp == e.estimatedFor && i.underlyingPrice == p.underlyingPrice
      && i.nearExpiry == p.nearDate && i.nextExpiry == p.nextDate
    case _ => false
  }

  /** The report's index was computed from the message that was consumed last at that moment, for the
      near and next expiries of the reference date. */
  ghost predicate IsFresh(cfg: Config, history: seq<OptionSummary>, eras: seq<Era>, r: Report)
    requires |eras| == |history|
  {
    && 0 < r.consumed <= |history| && r.message == history[r.consumed - 1]
    && r.at == Tick(r.message.timestamp)
    && r.params.at == r.message.timestamp && ReadsAs(r.message.underlyingPrice, r.params.underlyingPrice)
    && IsOfEra(r, eras[r.consumed - 1])
    && IsIndexOf(cfg.compute(r.params), r.params, r.index)
  }

  predicate IsOfEra(r: Report, era: Era) {
    r.refDate == era.refDate && r.params.nearDate == era.expiries.nearExpiry && r.params.nextDate == era.expiries.nextExpiry
  }

  /** `onCompute` has been called with exactly the indices computed at the reports, none of them stale;
      the index kept is that of the last report, if that had one. */
  ghost predicate FreshReports(cfg: Config, s: State) {
    && |s.eras| == |s.history|
    && s.published == Successes(s.reports)
    && s.index == (if s.reports == [] then None else s.reports[|s.reports| - 1].index)
    && (forall r | r in s.reports :: IsFresh(cfg, s.history, s.eras, r))
  }

  lemma SuccessesExtend(reports: seq<Report>, r: Report)
    ensures Successes(reports + [r]) == Successes(reports) + if r.index.Some? then [r.index.value] else []
  {
    assert (reports + [r])[..|reports|] == reports;
  }

  lemma StoreIsFresh(cfg: Config, s: State, m: OptionSummary)
    requires FreshReports(cfg, s)
    ensures FreshReports(cfg, Store(s, m))
  {
    var s' := Store(s, m);
    assert s'.history == s.history + [m] && s'.eras == s.eras + [Era(s.refDate, s.expiries)];
    forall r | r in s.reports
      ensures IsFresh(cfg, s'.history, s'.eras, r)
    {
      assert s'.history[r.consumed - 1] == s.history[r.consumed - 1] && s'.eras[r.consumed - 1] == s.eras[r.consumed - 1];
    }
  }

  lemma ReportOnIsFresh(cfg: Config, s: State, m: OptionSummary)
    requires FreshReports(cfg, s) && s.history != [] && s.history[|s.history| - 1] == m
    requires s.eras[|s.eras| - 1] == Era(s.refDate, s.expiries)
    ensures FreshReports(cfg, ReportOn(cfg, s, m))
  {
    var r := VixV2.Report(Tick(m.timestamp), s.refDate, m, ParamsFor(s, m), |s.history|, CalculateIndex(cfg, ParamsFor(s, m)));
    SuccessesExtend(s.reports, r);
    IndexIsOfEstimate(cfg, ParamsFor(s, m));
    assert IsFresh(cfg, s.history, s.eras, r);
  }

  lemma IndexIsOfEstimate(cfg: Config, p: ComputeParams)
    ensures IsIndexOf(cfg.compute(p), p, CalculateIndex(cfg, p))
  {
  }

  lemma ConsumeIsFresh(cfg: Config, s: State, m: OptionSummary)
    requires FreshReports(cfg, s)
    ensures FreshReports(cfg, Consume(cfg, s, m))
  {
    StoreIsFresh(cfg, s, m);
    assert Store(s, m).history == s.history + [m] && Store(s, m).eras == s.eras + [Era(s.refDate, s.expiries)];
    if OnBook(s, m) && IsDue(cfg, s, m) {
      ReportOnIsFresh(cfg, Store(s, m), m);
    }
  }

  lemma {:induction false} SegmentIsFresh(cfg: Config, s: State, messages: seq<OptionSummary>)
    requires FreshReports(cfg, s)
    ensures FreshReports(cfg, Segment(cfg, s, messages).0)
    decreases |messages|
  {
    if messages != [] {
      ConsumeIsFresh(cfg, s, messages[0]);
      SegmentIsFresh(cfg, Consume(cfg, s, messages[0]), messages[1..]);
    }
  }

  lemma FreshStays(cfg: Config, s: State, t: State)
    requires FreshReports(cfg, s)
    requires t.history == s.history && t.eras == s.eras && t.published == s.published && t.index == s.index && t.reports == s.reports
    ensures FreshReports(cfg, t)
  {
  }

  lemma {:induction false} RunIsFresh(cfg: Config, s: State)
    requires InStep(cfg, s) && FreshReports(cfg, s)
    ensures FreshReports(cfg, Run(cfg, s).state)
    decreases Remaining(cfg, s)
  {
    FreshStays(cfg, s, OpenStream(s));
    SegmentIsFresh(cfg, OpenStream(s), cfg.feed(RequestFor(cfg, s)));
    var end, next := Streamed(cfg, s).0, AfterStream(cfg, s);
    if next.Ended? {
      EndedFacts(cfg, s);
      FreshStays(cfg, end, next.outcome.state);
    } else {
      RestartFacts(cfg, s);
      FreshStays(cfg, end, Adopt(end, next.expiries));
      RunIsFresh(cfg, Adopt(end, next.expiries));
    }
  }

  // ----- the spacing of reports

  /** Expiries lie on the report clock. */
  ghost predicate OnGrid(cfg: Config) {
    forall o | o in cfg.catalogue :: o.expiry % (5 * MS_PER_SECOND) == 0
  }

  /** All messages of the stream opened in `s` are from before its rollover. */
  ghost predicate Precedes(cfg: Config, s: State) {
    forall m | m in cfg.feed(RequestFor(cfg, s)) :: m.timestamp < s.expiries.rolloverAt
  }

  /** So it is for every stream of the run, replayed or live. */
  ghost predicate StreamsPrecede(cfg: Config, s: State)
    requires InStep(cfg, s)
  {
    Precedes(cfg, s) && AllPrecede(cfg, Handovers(cfg, s))
  }

  ghost predicate AllPrecede(cfg: Config, hs: seq<Handover>) {
    forall h | h in hs :: Precedes(cfg, Adopt(h.before, h.expiries))
  }

  lemma PrecedingSplit(cfg: Config, h: Handover, hs: seq<Handover>)
    requires AllPrecede(cfg, [h] + hs)
    ensures Precedes(cfg, Adopt(h.before, h.expiries)) && AllPrecede(cfg, hs)
  {
    assert h in [h] + hs;
    assert forall x | x in hs :: x in [h] + hs;
  }

  /** The condition for a bound from one stream to the next. */
  ghost predicate MeetsClock(cfg: Config, s: State)
    requires InStep(cfg, s)
  {
    OnGrid(cfg) && StreamsPrecede(cfg, s)
  }

  /** Replays deliver messages from before their end, and nothing else delivers. */
  ghost predicate DeliversInRange(cfg: Config) {
    forall r: Request, m | m in cfg.feed(r) :: r.Replay? && m.timestamp < r.to
  }

  lemma DeliveredInRange(cfg: Config, r: Request, m: OptionSummary)
    requires DeliversInRange(cfg) && m in cfg.feed(r)
    ensures r.Replay? && m.timestamp < r.to
  {
  }

  lemma InRangePrecedes(cfg: Config, s: State)
    requires DeliversInRange(cfg)
    ensures Precedes(cfg, s)
  {
    forall m | m in cfg.feed(RequestFor(cfg, s))
      ensures m.timestamp < s.expiries.rolloverAt
    {
      DeliveredInRange(cfg, RequestFor(cfg, s), m);
    }
  }

  /** In particular whenever only replays deliver, within the range they were asked for. */
  lemma ReplaysPrecede(cfg: Config, s: State)
    requires InStep(cfg, s) && DeliversInRange(cfg)
    ensures StreamsPrecede(cfg, s)
  {
    InRangePrecedes(cfg, s);
    forall h | h in Handovers(cfg, s)
      ensures Precedes(cfg, Adopt(h.before, h.expiries))
    {
      InRangePrecedes(cfg, Adopt(h.before, h.expiries));
    }
  }

  /** Reports of one stream are at least the report frequency apart; from one stream to the next a
      minute may be missing, if messages are bounded by their rollovers. */
  predicate Apart(cfg: Config, bounded: bool, earlier: Report, later: Report) {
    if earlier.refDate == later.refDate then later.at - earlier.at >= cfg.reportFrequency
    else bounded ==> later.at - earlier.at >= cfg.reportFrequency - MS_PER_MINUTE
  }

  predicate AllApart(cfg: Config, bounded: bool, reports: seq<Report>) {
    forall i | 0 < i < |reports| :: Apart(cfg, bounded, reports[i - 1], reports[i])
  }

  predicate ClockInv(cfg: Config, bounded: bool, s: State) {
    && AllApart(cfg, bounded, s.reports)
    && s.refDate - MS_PER_MINUTE <= s.lastReport
    && (s.reports != [] ==>
          var last := s.reports[|s.reports| - 1];
          && last.refDate <= s.refDate
          && (last.refDate == s.refDate ==> last.at == s.lastReport)
          && (bounded ==> last.at <= if last.refDate == s.refDate then s.expiries.rolloverAt else s.refDate))
  }

  lemma ConsumeKeepsClock(cfg: Config, bounded: bool, s: State, m: OptionSummary)
    requires ClockInv(cfg, bounded, s) && cfg.reportFrequency > 0
    requires bounded ==> Tick(m.timestamp) <= s.expiries.rolloverAt
    ensures ClockInv(cfg, bounded, Consume(cfg, s, m))
  {
  }

  lemma {:induction false} SegmentKeepsClock(cfg: Config, bounded: bool, s: State, messages: seq<OptionSummary>)
    requires ClockInv(cfg, bounded, s) && cfg.reportFrequency > 0
    requires bounded ==> forall m | m in messages :: Tick(m.timestamp) <= s.expiries.rolloverAt
    ensures ClockInv(cfg, bounded, Segment(cfg, s, messages).0)
    decreases |messages|
  {
    if messages != [] {
      ConsumeKeepsClock(cfg, bounded, s, messages[0]);
      SegmentKeepsClock(cfg, bounded, Consume(cfg, s, messages[0]), messages[1..]);
    }
  }

  lemma RolloverIsOnTheClock(cfg: Config, s: State)
    requires InStep(cfg, s) && OnGrid(cfg)
    ensures s.expiries.rolloverAt % (5 * MS_PER_SECOND) == 0
  {
    RolloverIsListed(cfg, s);
  }

  lemma MessagesPrecedeRollover(cfg: Config, s: State, m: OptionSummary)
    requires InStep(cfg, s) && OnGrid(cfg) && m.timestamp < s.expiries.rolloverAt
    ensures Tick(m.timestamp) <= s.expiries.rolloverAt
  {
    RolloverIsOnTheClock(cfg, s);
    TickIsNextMultiple(m.timestamp, s.expiries.rolloverAt);
  }

  lemma StreamKeepsClock(cfg: Config, bounded: bool, s: State)
    requires InStep(cfg, s) && cfg.reportFrequency > 0 && ClockInv(cfg, bounded, OpenStream(s))
    requires bounded ==> OnGrid(cfg) && Precedes(cfg, s)
    ensures ClockInv(cfg, bounded, Streamed(cfg, s).0)
  {
    if bounded {
      forall m | m in cfg.feed(RequestFor(cfg, s))
        ensures Tick(m.timestamp) <= s.expiries.rolloverAt
      {
        MessagesPrecedeRollover(cfg, s, m);
      }
    }
    SegmentKeepsClock(cfg, bounded, OpenStream(s), cfg.feed(RequestFor(cfg, s)));
  }

  lemma AdoptKeepsClock(cfg: Config, bounded: bool, s: State, e: Expiries)
    requires ClockInv(cfg, bounded, s) && s.refDate < s.expiries.rolloverAt
    ensures ClockInv(cfg, bounded, OpenStream(Adopt(s, e)))
  {
  }

  lemma PrecedingHandover(cfg: Config, s: State)
    requires InStep(cfg, s) && AfterStream(cfg, s).Restart? && StreamsPrecede(cfg, s)
    ensures var next := AfterStream(cfg, s);
      InStep(cfg, Adopt(next.before, next.expiries)) && StreamsPrecede(cfg, Adopt(next.before, next.expiries))
  {
    HandoversSplit(cfg, s);
    var next := AfterStream(cfg, s);
    PrecedingSplit(cfg, Handover(next.before, next.expiries), Handovers(cfg, Adopt(next.before, next.expiries)));
  }

  /** All reports of a run are apart, whatever the order of the messages' timestamps. */
  lemma {:induction false} RunKeepsClock(cfg: Config, bounded: bool, s: State)
    requires InStep(cfg, s) && cfg.reportFrequency > 0
    requires ClockInv(cfg, bounded, OpenStream(s))
    requires bounded ==> MeetsClock(cfg, s)
    ensures AllApart(cfg, bounded, Run(cfg, s).state.reports)
    decreases Remaining(cfg, s)
  {
    StreamKeepsClock(cfg, bounded, s);
    var next := AfterStream(cfg, s);
    if next.Ended? {
      EndedFacts(cfg, s);
    } else {
      RestartFacts(cfg, s);
      RolloverIsAhead(cfg, s);
      AdoptKeepsClock(cfg, bounded, next.before, next.expiries);
      if bounded {
        PrecedingHandover(cfg, s);
      }
      RunKeepsClock(cfg, bounded, Adopt(next.before, next.expiries));
    }
  }

  // ----- all of it, from the start

  /** `fetchIndex`: the expiries are looked up once, then everything streams. */
  lemma WholeRun(cfg: Config, e: Expiries)
    requires ExpiriesAt(cfg.catalogue, cfg.startDate, cfg.timePeriod) == Found(e)
    requires cfg.reportFrequency > 0
    ensures var start := Start(cfg, e); var outcome := Run(cfg, start); var end := outcome.state;
      && FreshReports(cfg, end)
      && Logged(cfg, end) && NextRef(cfg.startDate, End(cfg), Arrivals(end.history, end.eras)) == end.refDate
      && AllApart(cfg, MeetsClock(cfg, start), end.reports)
      && |end.rollovers| <= |ReplayExpiries(cfg)|
      && end.completions == (if outcome.Completed? then 1 else 0)
      && (GenuineFeed(cfg) ==>
            && (StaysExact(cfg, start) <==> OnlyHarmless(cfg, start))
            && (OnlyHarmless(cfg, start) ==> ExactReports(end) && ExactBook(end)))
      && (FaithfulFeed(cfg) && FullyListed(cfg) ==>
            && (StaysExact(cfg, start) <==> OnlyQuiet(cfg, start))
            && (Spaced(cfg) ==> ExactReports(end) && ExactBook(end)))
  {
    var start := Start(cfg, e);
    RunIsFresh(cfg, start);
    WholeRunIsLogged(cfg, e);
    RunKeepsClock(cfg, MeetsClock(cfg, start), start);
    RunIsBounded(cfg, start);
    BooksOfRun(cfg, e);
  }

  lemma BooksOfRun(cfg: Config, e: Expiries)
    requires ExpiriesAt(cfg.catalogue, cfg.startDate, cfg.timePeriod) == Found(e)
    ensures var start := Start(cfg, e); var end := Run(cfg, start).state;
      && (GenuineFeed(cfg) ==>
            && (StaysExact(cfg, start) <==> OnlyHarmless(cfg, start))
            && (OnlyHarmless(cfg, start) ==> ExactReports(end) && ExactBook(end)))
      && (FaithfulFeed(cfg) && FullyListed(cfg) ==>
            && (StaysExact(cfg, start) <==> OnlyQuiet(cfg, start))
            && (Spaced(cfg) ==> ExactReports(end) && ExactBook(end)))
  {
    StartMissesNothing(cfg, e);
    if GenuineFeed(cfg) {
      RunIsExactIff(cfg, Start(cfg, e));
    }
    if FaithfulFeed(cfg) && FullyListed(cfg) {
      ListedRunIsExactIff(cfg, Start(cfg, e));
      if Spaced(cfg) {
        RunKeepsBooks(cfg, Start(cfg, e));
      }
    }
  }
}
