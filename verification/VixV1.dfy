/** The step machine behind `VixCalculator.summaryStream`: quotes update a book of mid prices that is
    never cleared, every quote recomputes the index, and the expiries roll over weekly. */
module VixV1 {
  import opened Instants
  import opened MarketData
  import opened OptionNames
  import opened VixStrips
  import opened VixBooks
  import opened WeeklyExpiries
  import opened ReportClock
  import opened CivilDates

  datatype Quote = Quote(
    symbol: Symbol,
    timestamp: int,
    underlyingPrice: Option<real>,
    bestBidPrice: Option<real>,
    bestAskPrice: Option<real>,
    markPrice: Option<real>)

  datatype Request =
    | Replay(symbols: seq<Symbol>, from: int, to: int)
    | Live(symbols: seq<Symbol>)

  const RISKLESS_RATE := 0.0056
  const N14 := 14 * MS_PER_DAY
  const N365 := 365 * MS_PER_DAY

  /** The configuration with the outside world as parameters: the instrument catalogue, the wall
      clock, the data source, the exponential function, and the year fraction that dayjs gets from
      an expiry in a symbol at a reference date. */
  datatype Config = Config(
    catalogue: seq<Symbol>,
    startDate: int,
    maxDuration: int,
    reportFrequency: int,
    isPast: int -> bool,
    feed: Request -> seq<Quote>,
    exp: real -> real,
    yearFraction: (Date, int) -> real)

  /** Everything one successful run of `calculateIndex` computes; the square root is left out. */
  datatype Calculation = Calculation(
    nearTime: int,
    nextTime: int,
    nearForward: real,
    nextForward: real,
    nearStrike: nat,
    nextStrike: nat,
    nearBook: seq<Leg>,
    nextBook: seq<Leg>,
    nearContribution: real,
    nextContribution: real,
    nearVariance: real,
    nextVariance: real,
    nearWeight: real,
    nextWeight: real,
    blended: real)
  {
    /** What is under the root: the blended variance scaled to a year. */
    function Annualized(): real {
      Area(blended, N365 as real / N14 as real)
    }
  }

  datatype Publication = Publication(timestamp: int, variance: Option<real>, underlyingPrice: real)

  /** One run of `calculateIndex`, after each quote; `None` where it threw. */
  datatype Attempt = Attempt(refDate: int, result: Option<Calculation>)

  /** A publication with the stream and the number of quotes it was made after. */
  datatype Report = Report(refDate: int, consumed: nat, publication: Publication)

  datatype State = State(
    refDate: int,
    dates: Dates,
    nearList: seq<Symbol>,
    nextList: seq<Symbol>,
    midBook: seq<Entry>,
    variance: Option<real>,
    lastReport: int,
    published: seq<Publication>,
    history: seq<Quote>,
    attempts: seq<Attempt>,
    reports: seq<Report>,
    completions: nat)

  /** `midBookChange`: the mid price to store, if any.  A quote without a bid leaves the last mid. */
  function MidOf(q: Quote): Option<real> {
    var underlying := OrZero(q.underlyingPrice);
    var bid, ask, mark := Area(OrZero(q.bestBidPrice), underlying), Area(OrZero(q.bestAskPrice), underlying), Area(OrZero(q.markPrice), underlying);
    if bid == 0.0 then None
    else
      var middle := (ask + bid) / 2.0;
      var mid := if middle >= 1.5 * mark then mark else middle;
      if mid == 0.0 then None else Some(mid)
  }

  function MidBookAfter(book: seq<Entry>, q: Quote): seq<Entry> {
    match MidOf(q)
    case None => book
    case Some(mid) => SetEntry(book, q.symbol, mid)
  }

  /** The symbol's expiry reads like the given instant's. */
  predicate ExpiresOn(s: Symbol, expiry: int) {
    DayText(s.expiry) == DayText(DateAt(expiry))
  }

  /** The symbol contains the expiry's text. */
  predicate Mentions(s: Symbol, expiry: int) {
    Includes(Text(s), DayText(DateAt(expiry)))
  }

  /** The listed symbols whose expiry reads like the given instant's. */
  function ListFor(catalogue: seq<Symbol>, expiry: int): seq<Symbol> {
    if catalogue == [] then []
    else
      var front, s := catalogue[..|catalogue| - 1], catalogue[|catalogue| - 1];
      ListFor(front, expiry) + if ExpiresOn(s, expiry) then [s] else []
  }

  /** `filterBook`: the entries whose key contains the expiry's text. */
  function FilterBook(book: seq<Entry>, expiry: int): seq<Entry> {
    if book == [] then []
    else
      var front, e := book[..|book| - 1], book[|book| - 1];
      FilterBook(front, expiry) + if Mentions(e.symbol, expiry) then [e] else []
  }

  function ForwardOf(cfg: Config, refDate: int, book: seq<Entry>, list: seq<Symbol>): real {
    var best := BestPair(book, AllSeries(list));
    match best
    case None => Forward(None, 1.0)
    case Some(p) => Forward(best, cfg.exp(Area(RISKLESS_RATE, cfg.yearFraction(p.series.expiry, refDate))))
  }

  /** Twice the grown contribution, less the squared relative distance of the forward price from its strike. */
  function ModSigmaSquared(growth: real, contribution: real, forward: real, strike: nat): real
    requires strike > 0
  {
    var off := forward / strike as real - 1.0;
    Area(2.0 * growth, contribution) - Area(off, off)
  }

  function NearWeight(nearTime: int, nextTime: int): real
    requires nearTime < nextTime
  {
    (nextTime - N14) as real / (nextTime - nearTime) as real
  }

  function NextWeight(nearTime: int, nextTime: int): real
    requires nearTime < nextTime
  {
    (N14 - nearTime) as real / (nextTime - nearTime) as real
  }

  /** Forward prices, adjacent strikes and filtered entries of both expiries. */
  datatype Inputs = Inputs(
    nearTime: int, nextTime: int, f1: real, f2: real, k1: nat, k2: nat, nearEntries: seq<Entry>, nextEntries: seq<Entry>)

  function InputsOf(cfg: Config, s: State): Inputs {
    var f1, f2 := ForwardOf(cfg, s.refDate, s.midBook, s.nearList), ForwardOf(cfg, s.refDate, s.midBook, s.nextList);
    Inputs(s.dates.near - s.refDate, s.dates.next - s.refDate, f1, f2,
           AdjacentStrike(s.nearList, f1), AdjacentStrike(s.nextList, f2),
           FilterBook(s.midBook, s.dates.near), FilterBook(s.midBook, s.dates.next))
  }

  /** The formula at the end: both modified variances, weighted to fourteen days. */
  function Combine(cfg: Config, x: Inputs, nearBook: seq<Leg>, nextBook: seq<Leg>, c1: real, c2: real): Calculation
    requires x.nearTime < x.nextTime && x.k1 > 0 && x.k2 > 0
  {
    var v1 := ModSigmaSquared(cfg.exp(Area(RISKLESS_RATE, x.nearTime as real / N365 as real)), c1, x.f1, x.k1);
    var v2 := ModSigmaSquared(cfg.exp(Area(RISKLESS_RATE, x.nextTime as real / N365 as real)), c2, x.f2, x.k2);
    var a, b := NearWeight(x.nearTime, x.nextTime), NextWeight(x.nearTime, x.nextTime);
    Calculation(x.nearTime, x.nextTime, x.f1, x.f2, x.k1, x.k2, nearBook, nextBook, c1, c2, v1, v2, a, b, Area(v1, a) + Area(v2, b))
  }

  /** The part of `calculateIndex` after the inputs. */
  function Assemble(cfg: Config, x: Inputs): Option<Calculation>
    requires x.nearTime < x.nextTime
  {
    var nearBook, nextBook := FinalBook(x.nearEntries, x.k1), FinalBook(x.nextEntries, x.k2);
    if nearBook.None? || nextBook.None? then None
    else
      var c1, c2 := Contribution(nearBook.value), Contribution(nextBook.value);
      if c1.None? || c2.None? then None
      else Some(Combine(cfg, x, nearBook.value, nextBook.value, c1.value, c2.value))
  }

  /** `calculateIndex`; `None` where the source throws. */
  function Calculate(cfg: Config, s: State): Option<Calculation>
    requires s.dates.near < s.dates.next
  {
    Assemble(cfg, InputsOf(cfg, s))
  }

  // ----- the machine

  function Store(s: State, q: Quote): State {
    s.(midBook := MidBookAfter(s.midBook, q), history := s.history + [q])
  }

  /** After a failed computation the last index stays, and is published again. */
  function Recalculate(cfg: Config, s: State): State
    requires s.dates.near < s.dates.next
  {
    var attempted := s.(attempts := s.attempts + [Attempt(s.refDate, Calculate(cfg, s))]);
    match Calculate(cfg, s)
    case None => attempted
    case Some(c) => attempted.(variance := Some(c.Annualized()))
  }

  function Publish(cfg: Config, s: State, q: Quote): State {
    var ts := Tick(q.timestamp);
    if ts - s.lastReport >= cfg.reportFrequency
    then
      var publication := Publication(ts, s.variance, OrZero(q.underlyingPrice));
      s.(lastReport := ts, published := s.published + [publication],
         reports := s.reports + [Report(s.refDate, |s.history|, publication)])
    else s
  }

  function Consume(cfg: Config, s: State, q: Quote): State
    requires s.dates.near < s.dates.next
  {
    Publish(cfg, Recalculate(cfg, Store(s, q)), q)
  }

  function VerdictOn(cfg: Config, s: State, q: Quote): Verdict {
    if Tick(q.timestamp) - cfg.startDate >= cfg.maxDuration then Done
    else if Tick(q.timestamp) >= s.dates.rollover then RollOver
    else Continue
  }

  function Segment(cfg: Config, s: State, quotes: seq<Quote>): (State, Verdict)
    requires s.dates.near < s.dates.next
    decreases |quotes|
  {
    if quotes == [] then (s, Done)
    else
      var verdict := VerdictOn(cfg, s, quotes[0]);
      if verdict == Continue then Segment(cfg, Consume(cfg, s, quotes[0]), quotes[1..])
      else (Consume(cfg, s, quotes[0]), verdict)
  }

  /** Dates and lists belong to the reference date: what `setupRollover` and `buildOptionLists` leave. */
  function SetUp(cfg: Config, s: State, refDate: int): State {
    var dates := RolloverWeekly(refDate);
    s.(refDate := refDate, dates := dates, nearList := ListFor(cfg.catalogue, dates.near), nextList := ListFor(cfg.catalogue, dates.next))
  }

  predicate InStep(cfg: Config, s: State) {
    s == SetUp(cfg, s, s.refDate)
  }

  lemma InStepIsOrdered(cfg: Config, s: State)
    requires InStep(cfg, s)
    ensures s.dates.near < s.dates.next && s.refDate < s.dates.rollover
  {
    DatesBracketTwoWeeks(s.refDate);
  }

  function RequestFor(cfg: Config, s: State): Request {
    var maxRef := s.refDate + cfg.maxDuration;
    if cfg.isPast(s.refDate)
    then Replay(s.nearList + s.nextList, s.refDate, if maxRef > s.dates.rollover then s.dates.rollover else maxRef)
    else Live(s.nearList + s.nextList)
  }

  function OpenStream(s: State): State {
    s.(lastReport := s.refDate - MS_PER_MINUTE)
  }

  function Streamed(cfg: Config, s: State): (State, Verdict)
    requires s.dates.near < s.dates.next
  {
    Segment(cfg, OpenStream(s), cfg.feed(RequestFor(cfg, s)))
  }

  function Remaining(cfg: Config, s: State): int {
    cfg.startDate + cfg.maxDuration - s.refDate
  }

  lemma {:induction false} SegmentKeeps(cfg: Config, s: State, quotes: seq<Quote>)
    requires s.dates.near < s.dates.next
    ensures var (s', v) := Segment(cfg, s, quotes);
      && v != Continue
      && s'.refDate == s.refDate && s'.dates == s.dates && s'.nearList == s.nearList && s'.nextList == s.nextList
      && s'.completions == s.completions
      && (v == RollOver ==> s.dates.rollover < cfg.startDate + cfg.maxDuration)
    decreases |quotes|
  {
    if quotes != [] && VerdictOn(cfg, s, quotes[0]) == Continue {
      SegmentKeeps(cfg, Consume(cfg, s, quotes[0]), quotes[1..]);
    }
  }

  /** `summaryStream` with its recursive calls; the run always completes. */
  function Run(cfg: Config, s: State): State
    requires InStep(cfg, s)
    decreases Remaining(cfg, s)
  {
    InStepIsOrdered(cfg, s);
    var (s1, verdict) := Streamed(cfg, s);
    SegmentKeeps(cfg, OpenStream(s), cfg.feed(RequestFor(cfg, s)));
    if verdict == Done then s1.(completions := s1.completions + 1)
    else Run(cfg, SetUp(cfg, s1, s1.dates.rollover))
  }

  function Start(cfg: Config): State {
    SetUp(cfg, State(cfg.startDate, Dates(0, 0, 0), [], [], [], None, cfg.startDate, [], [], [], [], 0), cfg.startDate)
  }
}
