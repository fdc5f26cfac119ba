/** The step machine behind `VixCalculatorV2.summaryStream`: two books fed by a stream of option
    summaries, a report clock, and rollovers that re-derive the expiries and open a new stream.
    `VixCalculatorV2` proves that the class runs this machine; the lemmas about whole runs are in
    `VixV2Runs`. */
module VixV2 {
  import opened Instants
  import opened MarketData
  import opened History
  import opened ListedExpiries
  import opened ReportClock

  /** What `createStream` asks the data source for. */
  datatype Request =
    | Replay(symbols: set<string>, from: int, to: int)
    | Live(symbols: set<string>)

  datatype ComputeParams = ComputeParams(
    at: int, nearDate: int, nextDate: int, options: map<string, OptionSummary>, underlyingPrice: real)

  datatype Estimate = Estimate(value: Option<real>, dVol: Option<real>, invdVol: Option<real>, estimatedFor: int)

  datatype Index = Index(
    value: real, dVol: real, invdVol: real, timestamp: int, underlyingPrice: real, nearExpiry: int, nextExpiry: int)

  /** The constructor's configuration with everything outside the class as parameters: the
      instrument catalogue, the wall clock (is a reference date in the past?), the data source (a
      finite message sequence per request) and the index library, where `None` means it threw. */
  datatype Config = Config(
    catalogue: seq<Instrument>,
    timePeriod: nat,
    startDate: int,
    maxDuration: int,
    reportFrequency: int,
    isPast: int -> bool,
    feed: Request -> seq<OptionSummary>,
    compute: ComputeParams -> Option<Estimate>)

  /** One attempt to report, with the number of messages consumed by then. */
  datatype Report = Report(
    at: int, refDate: int, message: OptionSummary, params: ComputeParams, consumed: nat, index: Option<Index>)

  /** The reference date and expiries of the stream that delivered a message of the history. */
  datatype Era = Era(refDate: int, expiries: Expiries)

  datatype State = State(
    refDate: int,
    expiries: Expiries,
    midBook: map<string, OptionSummary>,
    options: map<string, OptionSummary>,
    index: Option<Index>,
    lastReport: int,
    published: seq<Index>,
    completions: nat,
    history: seq<OptionSummary>,
    eras: seq<Era>,
    reports: seq<Report>,
    rollovers: seq<int>)

  datatype Outcome = Completed(state: State) | Threw(state: State)

  function MaxRef(cfg: Config, s: State): int {
    s.refDate + cfg.maxDuration
  }

  /** Near and next symbols, and those of the expiry after next. */
  function SubscribedSymbols(e: Expiries): set<string> {
    (set x | x in e.nearSymbols) + (set x | x in e.nextSymbols) +
    if e.expiryList != [] && e.expiryList[0] in e.expiryMap then set x | x in e.expiryMap[e.expiryList[0]] else {}
  }

  function RequestFor(cfg: Config, s: State): Request {
    var symbols := SubscribedSymbols(s.expiries);
    if cfg.isPast(s.refDate) then
      Replay(symbols, s.refDate, if MaxRef(cfg, s) > s.expiries.rolloverAt then s.expiries.rolloverAt else MaxRef(cfg, s))
    else Live(symbols)
  }

  predicate OnBook(s: State, m: OptionSummary) {
    m.expirationDate == s.expiries.nearExpiry || m.expirationDate == s.expiries.nextExpiry
  }

  function Store(s: State, m: OptionSummary): State {
    var logged := s.(history := s.history + [m], eras := s.eras + [Era(s.refDate, s.expiries)]);
    if OnBook(s, m) then logged.(midBook := s.midBook[m.symbol := m])
    else logged.(options := s.options[m.symbol := m])
  }

  function ParamsFor(s: State, m: OptionSummary): ComputeParams {
    ComputeParams(m.timestamp, s.expiries.nearExpiry, s.expiries.nextExpiry, s.midBook, OrZero(m.underlyingPrice))
  }

  function CalculateIndex(cfg: Config, p: ComputeParams): Option<Index> {
    match cfg.compute(p)
    case None => None
    case Some(e) =>
      Some(Index(OrZero(e.value), OrZero(e.dVol), OrZero(e.invdVol), e.estimatedFor, p.underlyingPrice, p.nearDate, p.nextDate))
  }

  predicate IsDue(cfg: Config, s: State, m: OptionSummary) {
    Tick(m.timestamp) - s.lastReport >= cfg.reportFrequency
  }

  function ReportOn(cfg: Config, s: State, m: OptionSummary): State {
    var index := CalculateIndex(cfg, ParamsFor(s, m));
    s.(index := index,
       lastReport := Tick(m.timestamp),
       published := s.published + if index.Some? then [index.value] else [],
       reports := s.reports + [Report(Tick(m.timestamp), s.refDate, m, ParamsFor(s, m), |s.history|, index)])
  }

  function Consume(cfg: Config, s: State, m: OptionSummary): State {
    var stored := Store(s, m);
    if OnBook(s, m) && IsDue(cfg, s, m) then ReportOn(cfg, stored, m) else stored
  }

  /** What the loop does after a message; messages for the side book skip every check. */
  function VerdictOn(cfg: Config, s: State, m: OptionSummary): Verdict {
    if !OnBook(s, m) then Continue
    else if Tick(m.timestamp) - cfg.startDate >= cfg.maxDuration then Done
    else if Tick(m.timestamp) >= s.expiries.rolloverAt then RollOver
    else Continue
  }

  /** One pass of the `for await` loop; a stream that runs dry is done. */
  function Segment(cfg: Config, s: State, messages: seq<OptionSummary>): (State, Verdict)
    decreases |messages|
  {
    if messages == [] then (s, Done)
    else
      var verdict := VerdictOn(cfg, s, messages[0]);
      if verdict == Continue then Segment(cfg, Consume(cfg, s, messages[0]), messages[1..])
      else (Consume(cfg, s, messages[0]), verdict)
  }

  function OpenStream(s: State): State {
    s.(lastReport := s.refDate - MS_PER_MINUTE)
  }

  /** The book after a change of the near expiry: old near entries deleted, the side book's entries
      for the new next expiry copied over. */
  function PromotedBook(s: State, e: Expiries): map<string, OptionSummary> {
    (map k | k in s.midBook && s.midBook[k].expirationDate != s.expiries.nearExpiry :: s.midBook[k]) +
    Within(s.options, {e.nextExpiry})
  }

  function Adopt(s: State, e: Expiries): State {
    var s' := s.(refDate := s.expiries.rolloverAt, expiries := e, rollovers := s.rollovers + [s.expiries.rolloverAt]);
    if e.nearExpiry == s.expiries.nearExpiry then s'
    else s'.(midBook := PromotedBook(s, e), options := map[])
  }

  /** The state's expiries are those of its reference date. */
  predicate InStep(cfg: Config, s: State) {
    ExpiriesAt(cfg.catalogue, s.refDate, cfg.timePeriod) == Found(s.expiries)
  }

  /** What is left of the replay period; it is positive at every rollover. */
  function Remaining(cfg: Config, s: State): int {
    cfg.startDate + cfg.maxDuration - s.refDate
  }

  /** A report leaves alone what the message was stored in. */
  lemma ConsumeStores(cfg: Config, s: State, m: OptionSummary)
    ensures var s', stored := Consume(cfg, s, m), Store(s, m);
      && s'.refDate == s.refDate && s'.expiries == s.expiries
      && s'.midBook == stored.midBook && s'.options == stored.options && s'.history == stored.history == s.history + [m]
  {
  }

  lemma {:induction false} SegmentKeeps(cfg: Config, s: State, messages: seq<OptionSummary>)
    ensures var (s', v) := Segment(cfg, s, messages);
      && v != Continue
      && s'.refDate == s.refDate && s'.expiries == s.expiries
      && s'.rollovers == s.rollovers && s'.completions == s.completions
      && (v == RollOver ==> s.expiries.rolloverAt < cfg.startDate + cfg.maxDuration)
    decreases |messages|
  {
    if messages != [] && VerdictOn(cfg, s, messages[0]) == Continue {
      SegmentKeeps(cfg, Consume(cfg, s, messages[0]), messages[1..]);
    }
  }

  lemma RolloverIsAhead(cfg: Config, s: State)
    requires InStep(cfg, s)
    ensures s.refDate < s.expiries.rolloverAt <= s.expiries.nearExpiry
  {
    BracketsOfTarget(cfg.catalogue, s.refDate, cfg.timePeriod);
  }

  /** What follows a stream: the run ends, or `buildExpiries` finds new expiries and the stream is
      opened again. */
  datatype Aftermath = Ended(outcome: Outcome) | Restart(before: State, expiries: Expiries)

  function Streamed(cfg: Config, s: State): (State, Verdict) {
    Segment(cfg, OpenStream(s), cfg.feed(RequestFor(cfg, s)))
  }

  function AfterStream(cfg: Config, s: State): Aftermath {
    var (s1, verdict) := Streamed(cfg, s);
    if verdict != RollOver then Ended(Completed(s1.(completions := s1.completions + 1)))
    else
      match ExpiriesAt(cfg.catalogue, s1.expiries.rolloverAt, cfg.timePeriod)
      case Found(e) => Restart(s1, e)
      case _ => Ended(Threw(s1.(refDate := s1.expiries.rolloverAt)))
  }

  lemma RestartFacts(cfg: Config, s: State)
    requires InStep(cfg, s) && AfterStream(cfg, s).Restart?
    ensures var a := AfterStream(cfg, s);
      && a.before == Streamed(cfg, s).0
      && a.before.refDate == s.refDate && a.before.expiries == s.expiries
      && a.before.rollovers == s.rollovers && a.before.completions == s.completions
      && ExpiriesAt(cfg.catalogue, s.expiries.rolloverAt, cfg.timePeriod) == Found(a.expiries)
      && Adopt(a.before, a.expiries).refDate == s.expiries.rolloverAt
      && Adopt(a.before, a.expiries).rollovers == s.rollovers + [s.expiries.rolloverAt]
      && InStep(cfg, Adopt(a.before, a.expiries))
      && 0 < Remaining(cfg, Adopt(a.before, a.expiries)) < Remaining(cfg, s)
  {
    SegmentKeeps(cfg, OpenStream(s), cfg.feed(RequestFor(cfg, s)));
    RolloverIsAhead(cfg, s);
  }

  lemma EndedFacts(cfg: Config, s: State)
    requires AfterStream(cfg, s).Ended?
    ensures var end := Streamed(cfg, s).0;
      && end.refDate == s.refDate && end.expiries == s.expiries && end.rollovers == s.rollovers && end.completions == s.completions
      && match AfterStream(cfg, s).outcome
         case Completed(t) => t == end.(completions := s.completions + 1)
         case Threw(t) => t == end.(refDate := s.expiries.rolloverAt)
  {
    SegmentKeeps(cfg, OpenStream(s), cfg.feed(RequestFor(cfg, s)));
  }

  /** `summaryStream` with its recursive calls, until the stream is done or `buildExpiries` throws.
      The rest of the replay period is positive at every rollover and shrinks. */
  function Run(cfg: Config, s: State): Outcome
    requires InStep(cfg, s)
    decreases Remaining(cfg, s)
  {
    match AfterStream(cfg, s)
    case Ended(outcome) => outcome
    case Restart(before, e) =>
      RestartFacts(cfg, s);
      Run(cfg, Adopt(before, e))
  }

  /** A rollover that found new expiries, with the state that met it. */
  datatype Handover = Handover(before: State, expiries: Expiries)

  /** All of them, in a run from `s`. */
  function Handovers(cfg: Config, s: State): seq<Handover>
    requires InStep(cfg, s)
    decreases Remaining(cfg, s)
  {
    match AfterStream(cfg, s)
    case Ended(_) => []
    case Restart(before, e) =>
      RestartFacts(cfg, s);
      [Handover(before, e)] + Handovers(cfg, Adopt(before, e))
  }

  lemma HandoversSplit(cfg: Config, s: State)
    requires InStep(cfg, s) && AfterStream(cfg, s).Restart?
    ensures var next := AfterStream(cfg, s); var s' := Adopt(next.before, next.expiries);
      InStep(cfg, s') && Handovers(cfg, s) == [Handover(next.before, next.expiries)] + Handovers(cfg, s')
  {
    RestartFacts(cfg, s);
  }

  lemma RunWhenDone(cfg: Config, s: State, end: State)
    requires InStep(cfg, s) && Streamed(cfg, s) == (end, Done)
    ensures Run(cfg, s) == Completed(end.(completions := end.completions + 1))
  {
    assert AfterStream(cfg, s) == Ended(Completed(end.(completions := end.completions + 1)));
  }

  lemma RunWhenRolledOver(cfg: Config, s: State, end: State)
    requires InStep(cfg, s) && Streamed(cfg, s) == (end, RollOver)
    ensures match ExpiriesAt(cfg.catalogue, end.expiries.rolloverAt, cfg.timePeriod)
            case Found(e) =>
              && AfterStream(cfg, s) == Restart(end, e)
              && InStep(cfg, Adopt(end, e)) && Remaining(cfg, Adopt(end, e)) < Remaining(cfg, s) && 0 < Remaining(cfg, s)
              && Run(cfg, s) == Run(cfg, Adopt(end, e))
            case _ => Run(cfg, s) == Threw(end.(refDate := end.expiries.rolloverAt))
  {
    var lookup := ExpiriesAt(cfg.catalogue, end.expiries.rolloverAt, cfg.timePeriod);
    if lookup.Found? {
      assert AfterStream(cfg, s) == Restart(end, lookup.expiries);
      RestartFacts(cfg, s);
    } else {
      assert AfterStream(cfg, s) == Ended(Threw(end.(refDate := end.expiries.rolloverAt)));
    }
  }

  /** The state `fetchIndex` starts streaming from. */
  function Start(cfg: Config, e: Expiries): State {
    State(cfg.startDate, e, map[], map[], None, cfg.startDate, [], 0, [], [], [], [])
  }
}
