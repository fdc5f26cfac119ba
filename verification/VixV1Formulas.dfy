/** The numbers V1 computes, each by the equation it satisfies: mids, forward prices, adjacent
    strikes, final books, contributions, variances and their blend. */
module VixV1Formulas {
  import opened Instants
  import opened MarketData
  import opened History
  import opened CivilDates
  import opened OptionNames
  import opened VixStrips
  import opened VixBooks
  import opened VixV1

  // ----- mids

  /** A quoted price times the underlying's; zero if either is missing. */
  function InCurrency(price: Option<real>, underlying: Option<real>): real {
    match (price, underlying)
    case (Some(p), Some(u)) => p * u
    case _ => 0.0
  }

  lemma InCurrencyIsArea(price: Option<real>, underlying: Option<real>)
    ensures Area(OrZero(price), OrZero(underlying)) == InCurrency(price, underlying)
  {
  }

  /** What one quote stores: nothing without a bid; the mark, unless that is zero, if bid and ask add
      up to three marks or more; else the number halfway between bid and ask, unless that is zero. */
  ghost predicate IsMid(bid: real, ask: real, mark: real, mid: Option<real>) {
    if bid == 0.0 then mid.None?
    else if bid + ask >= 3.0 * mark then mid == if mark == 0.0 then None else Some(mark)
    else if bid + ask == 0.0 then mid.None?
    else
      && mid.Some? && mid.value - bid == ask - mid.value
      && (bid <= mid.value <= ask || ask <= mid.value <= bid)
  }

  lemma MidIsRight(q: Quote)
    ensures IsMid(InCurrency(q.bestBidPrice, q.underlyingPrice), InCurrency(q.bestAskPrice, q.underlyingPrice),
                  InCurrency(q.markPrice, q.underlyingPrice), MidOf(q))
  {
    InCurrencyIsArea(q.bestBidPrice, q.underlyingPrice);
    InCurrencyIsArea(q.bestAskPrice, q.underlyingPrice);
    InCurrencyIsArea(q.markPrice, q.underlyingPrice);
  }

  /** Exchanging a bid and an ask, neither of them zero, changes nothing. */
  lemma MidIsSymmetric(q: Quote)
    requires InCurrency(q.bestBidPrice, q.underlyingPrice) != 0.0 && InCurrency(q.bestAskPrice, q.underlyingPrice) != 0.0
    ensures MidOf(q.(bestBidPrice := q.bestAskPrice, bestAskPrice := q.bestBidPrice)) == MidOf(q)
  {
    MidIsRight(q);
    MidIsRight(q.(bestBidPrice := q.bestAskPrice, bestAskPrice := q.bestBidPrice));
  }

  /** The mid of a symbol is that of its last quote that stores one. */
  ghost predicate IsLastMid(h: seq<Quote>, symbol: Symbol, mid: Option<real>) {
    if h == [] then mid.None?
    else
      var q := h[|h| - 1];
      if q.symbol == symbol && MidOf(q).Some? then mid == MidOf(q) else IsLastMid(h[..|h| - 1], symbol, mid)
  }

  /** The mid book after a history. */
  function BookOf(h: seq<Quote>): seq<Entry> {
    if h == [] then [] else MidBookAfter(BookOf(h[..|h| - 1]), h[|h| - 1])
  }

  lemma {:induction false} BookIsLastMids(h: seq<Quote>)
    ensures DistinctSymbols(BookOf(h))
    ensures forall symbol :: IsLastMid(h, symbol, Lookup(BookOf(h), symbol))
  {
    if h != [] {
      var front, q := h[..|h| - 1], h[|h| - 1];
      BookIsLastMids(front);
      if MidOf(q).Some? {
        SetEntryIsUpdate(BookOf(front), q.symbol, MidOf(q).value);
        forall symbol
          ensures IsLastMid(h, symbol, Lookup(BookOf(h), symbol))
        {
          LookupAfterSet(BookOf(front), q.symbol, MidOf(q).value, symbol);
          assert IsLastMid(front, symbol, Lookup(BookOf(front), symbol));
        }
      }
    }
  }

  lemma LookupAfterSet(book: seq<Entry>, symbol: Symbol, mid: real, other: Symbol)
    requires DistinctSymbols(book)
    ensures Lookup(SetEntry(book, symbol, mid), other) == if other == symbol then Some(mid) else Lookup(book, other)
  {
    SetEntryIsUpdate(book, symbol, mid);
    var after := SetEntry(book, symbol, mid);
    if other == symbol {
      LookupIsMember(after, Entry(symbol, mid));
    } else if Lookup(book, other).Some? {
      LookupIsMember(after, Entry(other, Lookup(book, other).value));
    }
  }

  // ----- forward price and adjacent strike

  predicate IsCompletePair(book: seq<Entry>, x: Symbol, call: real, put: real) {
    Lookup(book, x.(kind := Call)) == Some(call) && Lookup(book, x.(kind := OptionType.Put)) == Some(put)
  }

  /** Call and put mids of the listed strike at `n`: closer than those of any strike listed before, and
      no further apart than those of any listed later. */
  ghost predicate IsClosestPair(book: seq<Entry>, list: seq<Symbol>, n: nat, call: real, put: real) {
    && n < |list| && IsCompletePair(book, list[n], call, put)
    && forall m, c, p | 0 <= m < |list| && IsCompletePair(book, list[m], c, p) ::
         NoFurtherApart(call, put, c, p) && (m < n ==> !NoFurtherApart(c, p, call, put))
  }

  /** The distance of the first two is at most that of the others. */
  predicate NoFurtherApart(call: real, put: real, c: real, p: real) {
    if c >= p then -(c - p) <= call - put <= c - p else -(p - c) <= call - put <= p - c
  }

  /** Put-call parity: the forward price is as far from the strike of a closest pair as its call is
      from its put, grown at the riskless rate up to the expiry of the pair. */
  ghost predicate IsParityForward(cfg: Config, refDate: int, book: seq<Entry>, list: seq<Symbol>, forward: real) {
    exists n: nat, call, put :: IsClosestPair(book, list, n, call, put) && IsParity(cfg, refDate, list[n], call, put, forward)
  }

  ghost predicate IsParity(cfg: Config, refDate: int, x: Symbol, call: real, put: real, forward: real) {
    forward - x.strike as real == cfg.exp(0.0056 * cfg.yearFraction(x.expiry, refDate)) * (call - put)
  }

  lemma GapsCompare(a: Pair, b: Pair)
    ensures Gap(a) <= Gap(b) <==> NoFurtherApart(a.call, a.put, b.call, b.put)
  {
  }

  lemma PairIsComplete(book: seq<Entry>, x: Symbol, p: Pair)
    requires PairAt(book, SeriesOf(x)) == Some(p)
    ensures IsCompletePair(book, x, p.call, p.put) && p.series == SeriesOf(x)
  {
  }

  /** The series of the first symbols come first. */
  lemma {:induction false} SeriesInOrder(list: seq<Symbol>, n: nat)
    requires n <= |list|
    ensures AllSeries(list[..n]) <= AllSeries(list) && Distinct(AllSeries(list))
  {
    if n < |list| {
      var front := list[..|list| - 1];
      SeriesInOrder(front, n);
      assert front[..n] == list[..n];
      AddKeepsDistinct(AllSeries(front), SeriesOf(list[|list| - 1]));
    } else {
      assert list[..n] == list;
      if list != [] {
        SeriesInOrder(list[..|list| - 1], 0);
        AddKeepsDistinct(AllSeries(list[..|list| - 1]), SeriesOf(list[|list| - 1]));
      }
    }
  }

  /** The first symbol of series `i`: every symbol listed before belongs to an earlier series. */
  ghost predicate StartsSeries(list: seq<Symbol>, i: nat, n: nat) {
    && n < |list| && i < |AllSeries(list)| && SeriesOf(list[n]) == AllSeries(list)[i]
    && forall m | 0 <= m < n :: SeriesOf(list[m]) in AllSeries(list)[..i]
  }

  lemma {:induction false} SeriesStarts(list: seq<Symbol>, i: nat) returns (n: nat)
    requires i < |AllSeries(list)|
    ensures StartsSeries(list, i, n)
  {
    var front, last := list[..|list| - 1], list[|list| - 1];
    SeriesInOrder(list, |list| - 1);
    if i < |AllSeries(front)| {
      n := SeriesStarts(front, i);
      assert AllSeries(list)[..i] == AllSeries(front)[..i];
    } else {
      n := |list| - 1;
      SeriesAreListed(front);
      assert AllSeries(list)[..i] == AllSeries(front);
      assert forall m | 0 <= m < n :: front[m] in front;
    }
  }

  lemma {:induction false} OthersCompare(book: seq<Entry>, list: seq<Symbol>, p: Pair, i: nat, n: nat, m: nat, c: real, d: real)
    requires IsBest(book, AllSeries(list), i, p) && StartsSeries(list, i, n)
    requires m < |list| && IsCompletePair(book, list[m], c, d)
    ensures NoFurtherApart(p.call, p.put, c, d) && (m < n ==> !NoFurtherApart(c, d, p.call, p.put))
  {
    var q, series := Pair(SeriesOf(list[m]), c, d), AllSeries(list);
    SeriesAreListed(list);
    assert SeriesOf(list[m]) in if m < n then series[..i] else series;
    var j :| 0 <= j < |series| && series[j] == SeriesOf(list[m]) && (m < n ==> j < i);
    assert PairAt(book, series[j]) == Some(q);
    GapsCompare(p, q);
    GapsCompare(q, p);
  }

  lemma BestIsClosest(book: seq<Entry>, list: seq<Symbol>, p: Pair, i: nat, n: nat)
    requires IsBest(book, AllSeries(list), i, p) && StartsSeries(list, i, n)
    ensures IsClosestPair(book, list, n, p.call, p.put) && p.series == SeriesOf(list[n])
  {
    PairIsComplete(book, list[n], p);
    forall m, c, d | 0 <= m < |list| && IsCompletePair(book, list[m], c, d)
      ensures NoFurtherApart(p.call, p.put, c, d) && (m < n ==> !NoFurtherApart(c, d, p.call, p.put))
    {
      OthersCompare(book, list, p, i, n, m, c, d);
    }
  }

  lemma ForwardOfPair(cfg: Config, refDate: int, x: Symbol, p: Pair)
    requires p.series == SeriesOf(x)
    ensures IsParity(cfg, refDate, x, p.call, p.put,
                     Forward(Some(p), cfg.exp(Area(RISKLESS_RATE, cfg.yearFraction(p.series.expiry, refDate)))))
  {
    assert Area(RISKLESS_RATE, cfg.yearFraction(x.expiry, refDate)) == 0.0056 * cfg.yearFraction(x.expiry, refDate);
  }

  lemma ForwardIsParity(cfg: Config, refDate: int, book: seq<Entry>, list: seq<Symbol>)
    requires BestPair(book, AllSeries(list)).Some?
    ensures IsParityForward(cfg, refDate, book, list, ForwardOf(cfg, refDate, book, list))
  {
    var p := BestPair(book, AllSeries(list)).value;
    BestPairIsMinimal(book, AllSeries(list));
    var i :| IsBest(book, AllSeries(list), i, p);
    var n := SeriesStarts(list, i);
    BestIsClosest(book, list, p, i, n);
    ForwardOfPair(cfg, refDate, list[n], p);
    assert ForwardOf(cfg, refDate, book, list) ==
           Forward(Some(p), cfg.exp(Area(RISKLESS_RATE, cfg.yearFraction(p.series.expiry, refDate))));
  }

  /** The greatest listed strike up to the forward price. */
  ghost predicate IsAdjacent(list: seq<Symbol>, forward: real, strike: nat) {
    && (exists x :: x in list && x.strike == strike) && strike as real <= forward
    && forall x | x in list :: x.strike <= strike || x.strike as real > forward
  }

  lemma AdjacentIsRight(list: seq<Symbol>, forward: real)
    requires AdjacentStrike(list, forward) > 0
    ensures IsAdjacent(list, forward, AdjacentStrike(list, forward))
  {
    AdjacentIsGreatest(list, forward);
  }

  // ----- final books and contributions

  predicate IsEntry(book: seq<Entry>, d: Date, kind: OptionType, strike: nat, e: Entry) {
    e in book && e.symbol.expiry == d && e.symbol.kind == kind && e.symbol.strike == strike
  }

  /** A put below the strike, a call above it, or the average of call and put at the strike. */
  ghost predicate IsLegOf(book: seq<Entry>, d: Date, strike: nat, leg: Leg) {
    match leg.kind
    case PutLeg => leg.strike < strike && exists e :: IsEntry(book, d, OptionType.Put, leg.strike, e) && e.mid == leg.price
    case CallLeg => leg.strike > strike && exists e :: IsEntry(book, d, Call, leg.strike, e) && e.mid == leg.price
    case AverageLeg =>
      && leg.strike == strike
      && exists c, p :: IsEntry(book, d, Call, strike, c) && IsEntry(book, d, OptionType.Put, strike, p) && 2.0 * leg.price == c.mid + p.mid
  }

  /** Exactly those legs, in strictly increasing order of strikes. */
  ghost predicate IsFinalBook(book: seq<Entry>, d: Date, strike: nat, legs: seq<Leg>) {
    StrictlyAscending(legs) && forall leg :: leg in legs <==> IsLegOf(book, d, strike, leg)
  }

  /** The final book of the entries of one expiry is that of the expiry in the whole book. */
  lemma FinalBookIsRight(book: seq<Entry>, d: Date, strike: nat, entries: seq<Entry>)
    requires forall e :: e in entries <==> e in book && e.symbol.expiry == d
    requires DistinctSymbols(entries) && OneSeries(entries) && FinalBook(entries, strike).Some?
    ensures IsFinalBook(book, d, strike, FinalBook(entries, strike).value)
  {
    FinalBookShape(entries, strike);
    var call, put :| HasBoth(entries, strike, call, put);
    assert IsEntry(book, d, Call, strike, call) && IsEntry(book, d, OptionType.Put, strike, put);
    forall leg
      ensures leg in FinalBook(entries, strike).value <==> IsLegOf(book, d, strike, leg)
    {
      LegIsRight(book, d, strike, entries, call, put, leg);
    }
  }

  lemma LegIsRight(book: seq<Entry>, d: Date, strike: nat, entries: seq<Entry>, call: Entry, put: Entry, leg: Leg)
    requires forall e :: e in entries <==> e in book && e.symbol.expiry == d
    requires DistinctSymbols(entries) && OneSeries(entries) && HasBoth(entries, strike, call, put)
    ensures leg == Leg(strike, AverageLeg, (call.mid + put.mid) / 2.0)
            || (exists e :: e in entries && OutOfTheMoney(e, strike) && LegOf(e) == leg)
            <==> IsLegOf(book, d, strike, leg)
  {
    match leg.kind
    case AverageLeg =>
      AverageIsRight(book, d, strike, entries, call, put, leg);
    case PutLeg =>
      if e :| IsEntry(book, d, OptionType.Put, leg.strike, e) && e.mid == leg.price && leg.strike < strike {
        assert e in entries && OutOfTheMoney(e, strike) && LegOf(e) == leg;
      }
      if e :| e in entries && OutOfTheMoney(e, strike) && LegOf(e) == leg {
        assert IsEntry(book, d, OptionType.Put, leg.strike, e);
      }
    case CallLeg =>
      if e :| IsEntry(book, d, Call, leg.strike, e) && e.mid == leg.price && leg.strike > strike {
        assert e in entries && OutOfTheMoney(e, strike) && LegOf(e) == leg;
      }
      if e :| e in entries && OutOfTheMoney(e, strike) && LegOf(e) == leg {
        assert IsEntry(book, d, Call, leg.strike, e);
      }
  }

  lemma AverageIsRight(book: seq<Entry>, d: Date, strike: nat, entries: seq<Entry>, call: Entry, put: Entry, leg: Leg)
    requires forall e :: e in entries <==> e in book && e.symbol.expiry == d
    requires DistinctSymbols(entries) && OneSeries(entries) && HasBoth(entries, strike, call, put) && leg.kind == AverageLeg
    ensures leg == Leg(strike, AverageLeg, (call.mid + put.mid) / 2.0) <==> IsLegOf(book, d, strike, leg)
  {
    if leg == Leg(strike, AverageLeg, (call.mid + put.mid) / 2.0) {
      assert IsEntry(book, d, Call, strike, call) && IsEntry(book, d, OptionType.Put, strike, put);
    }
    if IsLegOf(book, d, strike, leg) {
      var c, p :| IsEntry(book, d, Call, strike, c) && IsEntry(book, d, OptionType.Put, strike, p) && 2.0 * leg.price == c.mid + p.mid;
      assert c in entries && p in entries && c.symbol == call.symbol && p.symbol == put.symbol;
      SameEntry(entries, c, call);
      SameEntry(entries, p, put);
    }
  }

  lemma SameEntry(entries: seq<Entry>, e: Entry, f: Entry)
    requires DistinctSymbols(entries) && e in entries && f in entries && e.symbol == f.symbol
    ensures e == f
  {
  }

  /** The distance between the strikes around a leg; at an end, twice that to the only neighbour. */
  function Around(legs: seq<Leg>, i: nat): real
    requires 2 <= |legs| && i < |legs|
  {
    if i == 0 then 2.0 * (legs[1].strike as real - legs[0].strike as real)
    else if i == |legs| - 1 then 2.0 * (legs[i].strike as real - legs[i - 1].strike as real)
    else legs[i + 1].strike as real - legs[i - 1].strike as real
  }

  /** Twice a term times the squared strike is the price times the distance around. */
  ghost predicate IsTerm(legs: seq<Leg>, i: nat, t: real)
    requires 2 <= |legs| && i < |legs|
  {
    TermFits(t, legs[i].strike as real, legs[i].price, Around(legs, i))
  }

  ghost predicate TermFits(t: real, strike: real, price: real, around: real) {
    2.0 * (t * (strike * strike)) == around * price
  }

  ghost predicate AreTerms(legs: seq<Leg>, ts: seq<real>) {
    2 <= |legs| == |ts| && forall i: nat | i < |legs| :: IsTerm(legs, i, ts[i])
  }

  ghost predicate IsContribution(legs: seq<Leg>, contribution: real) {
    exists ts :: AreTerms(legs, ts) && Sum(ts) == contribution
  }

  lemma StripTimesSquare(d: real, k: real, p: real)
    requires k > 0.0
    ensures Strip(d, k, p) * (k * k) == d * p
  {
    var s := k * k;
    assert s == Square(k) && s > 0.0;
    var q := d / s;
    assert q * s == d;
    assert Strip(d, k, p) == q * p;
    assert q * p * s == q * s * p;
  }

  lemma TermsAreRight(legs: seq<Leg>)
    requires 2 <= |legs|
    ensures AreTerms(legs, Terms(legs))
  {
    forall i: nat | i < |legs|
      ensures IsTerm(legs, i, Terms(legs)[i])
    {
      TermIsRight(legs, i);
    }
  }

  lemma TermIsRight(legs: seq<Leg>, i: nat)
    requires 2 <= |legs| && i < |legs|
    ensures IsTerm(legs, i, Terms(legs)[i])
  {
    var k, d := legs[i].strike as real, DeltaK(Strikes(legs), i);
    DeltaIsHalf(legs, i);
    TermAt(legs, i);
    TermOfWidth(Terms(legs)[i], d, k, legs[i].price, Around(legs, i));
  }

  lemma TermAt(legs: seq<Leg>, i: nat)
    requires 2 <= |legs| && i < |legs|
    ensures Terms(legs)[i] == Strip(DeltaK(Strikes(legs), i), legs[i].strike as real, legs[i].price)
  {
    assert Strikes(legs)[i] == legs[i].strike as real;
  }

  lemma DeltaIsHalf(legs: seq<Leg>, i: nat)
    requires 2 <= |legs| && i < |legs|
    ensures Around(legs, i) == 2.0 * DeltaK(Strikes(legs), i)
  {
  }

  lemma TermOfWidth(t: real, d: real, k: real, p: real, around: real)
    requires k > 0.0 && t == Strip(d, k, p) && around == 2.0 * d
    ensures TermFits(t, k, p, around)
  {
    StripTimesSquare(d, k, p);
    assert around * p == 2.0 * (d * p);
  }

  lemma ContributionIsRight(legs: seq<Leg>)
    requires legs != [] && Contribution(legs).Some?
    ensures IsContribution(legs, Contribution(legs).value)
  {
    TermsAreRight(legs);
  }

  // ----- variances

  /** The rate's growth over a time. */
  function GrowthOver(cfg: Config, time: int): real {
    cfg.exp(0.0056 * (time as real / (365 * MS_PER_DAY) as real))
  }

  /** The variance of one expiry: strike^2 variance == 2 growth strike^2 contribution - (forward - strike)^2. */
  ghost predicate IsVariance(cfg: Config, time: int, strike: nat, forward: real, contribution: real, variance: real) {
    var k, off := strike as real, forward - strike as real;
    k * k * variance == 2.0 * GrowthOver(cfg, time) * (k * k * contribution) - off * off
  }

  lemma ModSigmaIsVariance(growth: real, contribution: real, forward: real, strike: nat)
    requires strike > 0
    ensures var k, off := strike as real, forward - strike as real;
      k * k * ModSigmaSquared(growth, contribution, forward, strike) == 2.0 * growth * (k * k * contribution) - off * off
  {
    var k := strike as real;
    var r := forward / k - 1.0;
    assert r * k == forward - k by {
      assert forward / k * k == forward;
    }
    assert k * k * (r * r) == (r * k) * (r * k);
    assert ModSigmaSquared(growth, contribution, forward, strike) == 2.0 * growth * contribution - r * r;
    SquareTimes(k * k, 2.0 * growth, contribution, r * r);
  }

  lemma SquareTimes(s: real, g: real, c: real, r: real)
    ensures s * (g * c - r) == g * (s * c) - s * r
  {
    assert s * (g * c) == g * (s * c);
  }

  /** It is at most twice the grown contribution, and just that when forward price and strike agree. */
  lemma VarianceIsAtMost(cfg: Config, time: int, strike: nat, forward: real, contribution: real, variance: real)
    requires strike > 0 && IsVariance(cfg, time, strike, forward, contribution, variance)
    ensures variance <= 2.0 * GrowthOver(cfg, time) * contribution
    ensures variance == 2.0 * GrowthOver(cfg, time) * contribution <==> forward == strike as real
  {
    var k, off, bound := strike as real, forward - strike as real, 2.0 * GrowthOver(cfg, time) * contribution;
    var s := k * k;
    SquareTimes(s, 2.0 * GrowthOver(cfg, time), contribution, 0.0);
    assert s * variance == s * bound - off * off;
    assert s * (bound - variance) == off * off;
    SquareIsPositive(off);
    PositiveTimes(s, bound - variance);
  }

  lemma SquareIsPositive(x: real)
    ensures x * x >= 0.0 && (x * x == 0.0 <==> x == 0.0)
  {
    if x > 0.0 {
      PositiveTimes(x, x);
    } else if x < 0.0 {
      PositiveTimes(-x, -x);
      assert x * x == -x * -x;
    }
  }

  lemma PositiveTimes(s: real, d: real)
    requires s > 0.0
    ensures s * d > 0.0 <==> d > 0.0
    ensures s * d == 0.0 <==> d == 0.0
  {
  }

  /** The blend is the linear interpolation of the two variances at fourteen days. */
  ghost predicate IsBlend(c: Calculation) {
    c.blended * (c.nextTime - c.nearTime) as real ==
    c.nearVariance * (c.nextTime - 14 * MS_PER_DAY) as real + c.nextVariance * (14 * MS_PER_DAY - c.nearTime) as real
  }

  lemma WeightedIsBlend(nearTime: int, nextTime: int, v1: real, v2: real)
    requires nearTime < nextTime
    ensures (Area(v1, NearWeight(nearTime, nextTime)) + Area(v2, NextWeight(nearTime, nextTime))) * (nextTime - nearTime) as real ==
            v1 * (nextTime - 14 * MS_PER_DAY) as real + v2 * (14 * MS_PER_DAY - nearTime) as real
  {
    var w, p, q := (nextTime - nearTime) as real, (nextTime - N14) as real, (N14 - nearTime) as real;
    ShareTimes(v1, p, w);
    ShareTimes(v2, q, w);
    assert (v1 * (p / w) + v2 * (q / w)) * w == v1 * (p / w) * w + v2 * (q / w) * w;
  }

  lemma ShareTimes(v: real, p: real, w: real)
    requires w > 0.0
    ensures v * (p / w) * w == v * p
  {
    var share := p / w;
    assert share * w == p;
    assert v * share * w == v * (share * w);
  }

  // ----- a whole computation

  /** Everything in a computation for one expiry: its time, forward price, strike, book, contribution and variance. */
  ghost predicate IsHalf(
    cfg: Config, refDate: int, book: seq<Entry>, expiry: int, list: seq<Symbol>,
    time: int, forward: real, strike: nat, legs: seq<Leg>, contribution: real, variance: real)
  {
    && time == expiry - refDate
    && IsParityForward(cfg, refDate, book, list, forward)
    && IsAdjacent(list, forward, strike)
    && IsFinalBook(book, DateAt(expiry), strike, legs)
    && IsContribution(legs, contribution)
    && IsVariance(cfg, time, strike, forward, contribution, variance)
  }

  /** The computation is the right one for the state's book, lists and dates. */
  ghost predicate IsRight(cfg: Config, s: State, c: Calculation) {
    && IsHalf(cfg, s.refDate, s.midBook, s.dates.near, s.nearList,
              c.nearTime, c.nearForward, c.nearStrike, c.nearBook, c.nearContribution, c.nearVariance)
    && IsHalf(cfg, s.refDate, s.midBook, s.dates.next, s.nextList,
              c.nextTime, c.nextForward, c.nextStrike, c.nextBook, c.nextContribution, c.nextVariance)
    && IsBlend(c)
  }
}
