/** V1's books: the insertion-ordered mid book, the final book of an expiry, the forward price and
    the strike next to it. */
module VixBooks {
  import opened MarketData
  import opened History
  import opened OptionNames
  import opened VixStrips

  // ----- the mid book: a JavaScript Map from symbol to mid price

  predicate DistinctSymbols(book: seq<Entry>) {
    forall i, j | 0 <= i < j < |book| :: book[i].symbol != book[j].symbol
  }

  function Lookup(book: seq<Entry>, symbol: Symbol): (r: Option<real>)
    ensures r.Some? ==> Entry(symbol, r.value) in book
    ensures r.None? ==> forall e | e in book :: e.symbol != symbol
  {
    if book == [] then None
    else if book[0].symbol == symbol then Some(book[0].mid)
    else Lookup(book[1..], symbol)
  }

  /** `Map.set`: in place for a known symbol, at the end for a new one. */
  function SetEntry(book: seq<Entry>, symbol: Symbol, mid: real): seq<Entry> {
    if book == [] then [Entry(symbol, mid)]
    else if book[0].symbol == symbol then [Entry(symbol, mid)] + book[1..]
    else [book[0]] + SetEntry(book[1..], symbol, mid)
  }

  lemma {:induction false} SetEntryIsUpdate(book: seq<Entry>, symbol: Symbol, mid: real)
    requires DistinctSymbols(book)
    ensures var b := SetEntry(book, symbol, mid);
      && DistinctSymbols(b)
      && forall e :: e in b <==> e == Entry(symbol, mid) || (e in book && e.symbol != symbol)
  {
    if book != [] {
      var rest := book[1..];
      assert forall e :: e in book <==> e == book[0] || e in rest;
      assert forall e | e in rest :: e.symbol != book[0].symbol;
      if book[0].symbol != symbol {
        SetEntryIsUpdate(rest, symbol, mid);
        var b, put := SetEntry(book, symbol, mid), SetEntry(rest, symbol, mid);
        assert b == [book[0]] + put;
        assert forall i | 0 <= i < |put| :: put[i] in put;
      }
    }
  }

  lemma LookupIsMember(book: seq<Entry>, e: Entry)
    requires DistinctSymbols(book) && e in book
    ensures Lookup(book, e.symbol) == Some(e.mid)
  {
    var mid := Lookup(book, e.symbol).value;
    assert Entry(e.symbol, mid) in book;
  }

  // ----- the final book

  predicate OutOfTheMoney(e: Entry, target: nat) {
    (e.symbol.strike < target && e.symbol.kind == OptionType.Put) || (e.symbol.strike > target && e.symbol.kind == Call)
  }

  function LegOf(e: Entry): Leg {
    Leg(e.symbol.strike, if e.symbol.kind == Call then CallLeg else PutLeg, e.mid)
  }

  /** Puts below and calls above the strike. */
  function Wings(entries: seq<Entry>, target: nat): seq<Leg> {
    if entries == [] then []
    else
      var front, e := entries[..|entries| - 1], entries[|entries| - 1];
      Wings(front, target) + if OutOfTheMoney(e, target) then [LegOf(e)] else []
  }

  function AtStrike(entries: seq<Entry>, target: nat): seq<Entry> {
    if entries == [] then []
    else
      var front, e := entries[..|entries| - 1], entries[|entries| - 1];
      AtStrike(front, target) + if e.symbol.strike == target then [e] else []
  }

  /** Inserts after everything that is not above it. */
  function InsertByStrike(legs: seq<Leg>, leg: Leg): seq<Leg> {
    if legs == [] || leg.strike < legs[0].strike then [leg] + legs
    else [legs[0]] + InsertByStrike(legs[1..], leg)
  }

  /** `Array.sort` with the strike comparison, which is stable. */
  function SortByStrike(legs: seq<Leg>): seq<Leg> {
    if legs == [] then [] else InsertByStrike(SortByStrike(legs[..|legs| - 1]), legs[|legs| - 1])
  }

  /** The average of the first two entries at the strike; the source throws when there are fewer. */
  function AverageAt(entries: seq<Entry>, target: nat): (leg: Option<Leg>)
    ensures leg.Some? ==> target > 0
  {
    var avg := AtStrike(entries, target);
    if |avg| < 2 then None
    else
      AtStrikeMembers(entries, target);
      assert avg[0] in avg;
      Some(Leg(target, AverageLeg, (avg[0].mid + avg[1].mid) / 2.0))
  }

  function FinalBook(entries: seq<Entry>, target: nat): (book: Option<seq<Leg>>)
    ensures book.Some? ==> target > 0
  {
    match AverageAt(entries, target)
    case None => None
    case Some(average) => Some(SortByStrike(Wings(entries, target) + [average]))
  }

  method FinalBookGet(entries: seq<Entry>, target: nat) returns (r: Option<seq<Leg>>)
    ensures r == FinalBook(entries, target)
  {
    var avg, finalBook := [], [];
    for i := 0 to |entries|
      invariant avg == AtStrike(entries[..i], target) && finalBook == Wings(entries[..i], target)
    {
      var entry := entries[i];
      assert entries[..i + 1][..i] == entries[..i];
      var strike, kind := entry.symbol.strike, entry.symbol.kind;
      if (strike < target && kind == OptionType.Put) || (strike > target && kind == Call) {
        finalBook := finalBook + [LegOf(entry)];
      } else if strike == target {
        avg := avg + [entry];
      }
    }
    assert entries[..|entries|] == entries;
    if |avg| < 2 {
      return None;
    }
    AtStrikeMembers(entries, target);
    assert avg[0] in avg;
    finalBook := finalBook + [Leg(target, AverageLeg, (avg[0].mid + avg[1].mid) / 2.0)];
    r := Some(SortByStrike(finalBook));
  }

  lemma {:induction false} AtStrikeMembers(entries: seq<Entry>, target: nat)
    ensures forall e :: e in AtStrike(entries, target) <==> e in entries && e.symbol.strike == target
    ensures DistinctSymbols(entries) ==> DistinctSymbols(AtStrike(entries, target))
  {
    if entries != [] {
      var front, last := entries[..|entries| - 1], entries[|entries| - 1];
      AtStrikeMembers(front, target);
      assert forall e :: e in entries <==> e in front || e == last;
      assert DistinctSymbols(entries) ==> forall e | e in front :: e.symbol != last.symbol;
      assert forall i | 0 <= i < |AtStrike(front, target)| :: AtStrike(front, target)[i] in front;
    }
  }

  /** All entries belong to one asset and one expiry. */
  predicate OneSeries(entries: seq<Entry>) {
    forall e, f | e in entries && f in entries :: e.symbol.asset == f.symbol.asset && e.symbol.expiry == f.symbol.expiry
  }

  ghost predicate DistinctStrikes(legs: seq<Leg>) {
    forall i, j | 0 <= i < j < |legs| :: legs[i].strike != legs[j].strike
  }

  lemma {:induction false} WingMembers(entries: seq<Entry>, target: nat)
    ensures forall leg :: leg in Wings(entries, target) <==> exists e :: e in entries && OutOfTheMoney(e, target) && LegOf(e) == leg
    ensures DistinctSymbols(entries) && OneSeries(entries) ==> DistinctStrikes(Wings(entries, target))
  {
    if entries != [] {
      var front, last := entries[..|entries| - 1], entries[|entries| - 1];
      WingMembers(front, target);
      assert forall e :: e in entries <==> e in front || e == last;
      if DistinctSymbols(entries) && OneSeries(entries) && OutOfTheMoney(last, target) {
        forall i | 0 <= i < |Wings(front, target)|
          ensures Wings(front, target)[i].strike != last.symbol.strike
        {
          assert Wings(front, target)[i] in Wings(front, target);
          var e :| e in front && OutOfTheMoney(e, target) && LegOf(e) == Wings(front, target)[i];
          assert e.symbol != last.symbol && e.symbol.asset == last.symbol.asset && e.symbol.expiry == last.symbol.expiry;
        }
      }
    }
  }

  lemma {:induction false} InsertHas(legs: seq<Leg>, leg: Leg)
    ensures forall x :: x in InsertByStrike(legs, leg) <==> x in legs || x == leg
  {
    if legs == [] || leg.strike < legs[0].strike {
      assert forall x :: x in [leg] + legs <==> x in legs || x == leg;
    } else {
      var rest := InsertByStrike(legs[1..], leg);
      InsertHas(legs[1..], leg);
      assert forall x :: x in legs <==> x == legs[0] || x in legs[1..];
      assert forall x :: x in [legs[0]] + rest <==> x == legs[0] || x in rest;
    }
  }

  lemma {:induction false} InsertAscends(legs: seq<Leg>, leg: Leg)
    requires StrictlyAscending(legs) && forall x | x in legs :: x.strike != leg.strike
    ensures StrictlyAscending(InsertByStrike(legs, leg))
  {
    if legs != [] && leg.strike >= legs[0].strike {
      var rest := InsertByStrike(legs[1..], leg);
      InsertAscends(legs[1..], leg);
      InsertHas(legs[1..], leg);
      assert forall x | x in legs[1..] :: legs[0].strike < x.strike;
      assert forall i | 0 <= i < |rest| :: rest[i] in rest && legs[0].strike < rest[i].strike;
    }
  }

  lemma {:induction false} SortKeeps(legs: seq<Leg>)
    ensures forall x :: x in SortByStrike(legs) <==> x in legs
    ensures DistinctStrikes(legs) ==> StrictlyAscending(SortByStrike(legs))
  {
    if legs != [] {
      var front, last := legs[..|legs| - 1], legs[|legs| - 1];
      SortKeeps(front);
      InsertHas(SortByStrike(front), last);
      assert forall x :: x in legs <==> x in front || x == last;
      if DistinctStrikes(legs) {
        InsertAscends(SortByStrike(front), last);
      }
    }
  }

  /** A call and a put at the strike are what it takes to build a final book. */
  predicate HasBoth(entries: seq<Entry>, target: nat, call: Entry, put: Entry) {
    && call in entries && call.symbol.kind == Call && call.symbol.strike == target
    && put in entries && put.symbol.kind == OptionType.Put && put.symbol.strike == target
  }

  lemma AverageIsOfBoth(entries: seq<Entry>, target: nat)
    requires DistinctSymbols(entries) && OneSeries(entries)
    ensures AverageAt(entries, target).Some? <==> exists call, put :: HasBoth(entries, target, call, put)
    ensures forall call, put | HasBoth(entries, target, call, put) ::
              AverageAt(entries, target) == Some(Leg(target, AverageLeg, (call.mid + put.mid) / 2.0))
  {
    var avg := AtStrike(entries, target);
    AtStrikeMembers(entries, target);
    if |avg| >= 2 {
      assert avg[0] in avg && avg[1] in avg && avg[0].symbol != avg[1].symbol;
      var a, b := avg[0], avg[1];
      assert if a.symbol.kind == Call then HasBoth(entries, target, a, b) else HasBoth(entries, target, b, a);
    }
    forall call, put | HasBoth(entries, target, call, put)
      ensures AverageAt(entries, target) == Some(Leg(target, AverageLeg, (call.mid + put.mid) / 2.0))
    {
      assert call in avg && put in avg;
      var i :| 0 <= i < |avg| && avg[i] == call;
      var j :| 0 <= j < |avg| && avg[j] == put;
      OnlyTwo(avg, i, j);
    }
  }

  lemma OnlyTwo(avg: seq<Entry>, i: nat, j: nat)
    requires DistinctSymbols(avg) && OneSeries(avg) && forall e, f | e in avg && f in avg :: e.symbol.strike == f.symbol.strike
    requires i < |avg| && j < |avg| && avg[i].symbol.kind == Call && avg[j].symbol.kind == OptionType.Put
    ensures |avg| == 2 && ((i == 0 && j == 1) || (i == 1 && j == 0))
  {
    IsEither(avg, 0, i, j);
    if |avg| > 1 {
      IsEither(avg, 1, i, j);
    }
    if |avg| > 2 {
      IsEither(avg, 2, i, j);
    }
  }

  lemma IsEither(avg: seq<Entry>, k: nat, i: nat, j: nat)
    requires DistinctSymbols(avg) && OneSeries(avg) && forall e, f | e in avg && f in avg :: e.symbol.strike == f.symbol.strike
    requires k < |avg| && i < |avg| && j < |avg| && avg[i].symbol.kind == Call && avg[j].symbol.kind == OptionType.Put
    ensures k == i || k == j
  {
    assert avg[k] in avg && avg[i] in avg && avg[j] in avg;
    assert avg[k].symbol == avg[i].symbol || avg[k].symbol == avg[j].symbol;
  }

  /** The final book of the entries of one expiry exists exactly when the strike has both mids.  It
      then consists of the puts below, the calls above and one averaged leg, in strictly increasing
      order of strikes. */
  lemma FinalBookShape(entries: seq<Entry>, target: nat)
    requires DistinctSymbols(entries) && OneSeries(entries)
    ensures FinalBook(entries, target).Some? <==> exists call, put :: HasBoth(entries, target, call, put)
    ensures forall call, put | HasBoth(entries, target, call, put) ::
              var book := FinalBook(entries, target).value;
              forall leg :: leg in book <==>
                || leg == Leg(target, AverageLeg, (call.mid + put.mid) / 2.0)
                || exists e :: e in entries && OutOfTheMoney(e, target) && LegOf(e) == leg
    ensures FinalBook(entries, target).Some? ==> FinalBook(entries, target).value != [] && StrictlyAscending(FinalBook(entries, target).value)
  {
    AverageIsOfBoth(entries, target);
    if AverageAt(entries, target).Some? {
      var average := AverageAt(entries, target).value;
      var wings := Wings(entries, target);
      WingMembers(entries, target);
      assert forall x :: x in wings + [average] <==> x in wings || x == average;
      assert DistinctStrikes(wings + [average]) by {
        forall i | 0 <= i < |wings|
          ensures wings[i].strike != target
        {
          assert wings[i] in wings;
        }
      }
      SortKeeps(wings + [average]);
      assert average in SortByStrike(wings + [average]);
    }
  }

  lemma FinalBookIsPositive(entries: seq<Entry>, target: nat)
    requires forall e | e in entries :: e.mid > 0.0
    requires FinalBook(entries, target).Some?
    ensures forall leg | leg in FinalBook(entries, target).value :: leg.price > 0.0
  {
    AtStrikeMembers(entries, target);
    WingMembers(entries, target);
    var average, avg := AverageAt(entries, target).value, AtStrike(entries, target);
    assert avg[0] in avg && avg[1] in avg;
    SortKeeps(Wings(entries, target) + [average]);
  }

  // ----- forward price and adjacent strike

  /** A symbol without its option type. */
  datatype Series = Series(asset: string, expiry: CivilDates.Date, strike: Strike)

  function SeriesOf(s: Symbol): Series {
    Series(s.asset, s.expiry, s.strike)
  }

  function SymbolOf(s: Series, kind: OptionType): Symbol {
    Symbol(s.asset, s.expiry, s.strike, kind)
  }

  function AllSeries(list: seq<Symbol>): seq<Series> {
    if list == [] then [] else Add(AllSeries(list[..|list| - 1]), SeriesOf(list[|list| - 1]))
  }

  lemma {:induction false} SeriesAreListed(list: seq<Symbol>)
    ensures forall s :: s in AllSeries(list) <==> exists x :: x in list && SeriesOf(x) == s
  {
    if list != [] {
      var front, last := list[..|list| - 1], list[|list| - 1];
      SeriesAreListed(front);
      assert forall x :: x in list <==> x in front || x == last;
    }
  }

  function Magnitude(x: real): real {
    if x < 0.0 then -x else x
  }

  datatype Pair = Pair(series: Series, call: real, put: real)

  function PairAt(book: seq<Entry>, s: Series): Option<Pair> {
    match (Lookup(book, SymbolOf(s, Call)), Lookup(book, SymbolOf(s, OptionType.Put)))
    case (Some(call), Some(put)) => Some(Pair(s, call, put))
    case _ => None
  }

  function Gap(p: Pair): real {
    Magnitude(p.call - p.put)
  }

  /** The complete pair with the smallest gap, the first of several. */
  function BestPair(book: seq<Entry>, series: seq<Series>): Option<Pair> {
    if series == [] then None
    else
      var best, p := BestPair(book, series[..|series| - 1]), PairAt(book, series[|series| - 1]);
      if p.Some? && (best.None? || Gap(p.value) < Gap(best.value)) then p else best
  }

  /** With no complete pair the source computes from strike, call and put all zero. */
  function Forward(best: Option<Pair>, growth: real): real {
    match best
    case None => 0.0
    case Some(p) => p.series.strike as real + Area(growth, p.call - p.put)
  }

  lemma {:induction false} BestPairIsMinimal(book: seq<Entry>, series: seq<Series>)
    ensures BestPair(book, series).None? <==> forall i | 0 <= i < |series| :: PairAt(book, series[i]).None?
    ensures BestPair(book, series).Some? ==> exists i :: IsBest(book, series, i, BestPair(book, series).value)
  {
    if series != [] {
      var n := |series| - 1;
      var front := series[..n];
      BestPairIsMinimal(book, front);
      var best, p := BestPair(book, front), PairAt(book, series[n]);
      assert forall i | 0 <= i < n :: front[i] == series[i];
      if p.Some? && (best.None? || Gap(p.value) < Gap(best.value)) {
        assert best.None? ==> forall i | 0 <= i < n :: PairAt(book, front[i]).None?;
        assert IsBest(book, series, n, p.value);
      } else if best.Some? {
        var k :| IsBest(book, front, k, best.value);
        assert IsBest(book, series, k, best.value);
      }
    }
  }

  /** No complete pair has a smaller gap, and none before it an equal one. */
  ghost predicate IsBest(book: seq<Entry>, series: seq<Series>, i: int, p: Pair) {
    && 0 <= i < |series| && PairAt(book, series[i]) == Some(p)
    && forall j | 0 <= j < |series| && PairAt(book, series[j]).Some? ::
         var gap := Gap(PairAt(book, series[j]).value); Gap(p) <= gap && (j < i ==> Gap(p) < gap)
  }

  /** The greatest listed strike up to the forward price; zero when there is none. */
  function AdjacentStrike(list: seq<Symbol>, forward: real): nat {
    if list == [] then 0
    else
      var adjacent, k := AdjacentStrike(list[..|list| - 1], forward), list[|list| - 1].strike;
      if k as real <= forward && k > adjacent then k else adjacent
  }

  method AdjacentStrikeGet(optionList: seq<Symbol>, forwardPrice: real) returns (adjacentStrike: nat)
    ensures adjacentStrike == AdjacentStrike(optionList, forwardPrice)
  {
    adjacentStrike := 0;
    for i := 0 to |optionList|
      invariant adjacentStrike == AdjacentStrike(optionList[..i], forwardPrice)
    {
      assert optionList[..i + 1][..i] == optionList[..i];
      var thisStrike := optionList[i].strike;
      if thisStrike as real <= forwardPrice && thisStrike > adjacentStrike {
        adjacentStrike := thisStrike;
      }
    }
    assert optionList[..|optionList|] == optionList;
  }

  lemma {:induction false} AdjacentIsGreatest(list: seq<Symbol>, forward: real)
    ensures var k := AdjacentStrike(list, forward);
      && (forall s | s in list && s.strike as real <= forward :: s.strike <= k)
      && (k == 0 || exists s :: s in list && s.strike == k && k as real <= forward)
  {
    if list != [] {
      var front, last := list[..|list| - 1], list[|list| - 1];
      AdjacentIsGreatest(front, forward);
      assert forall s :: s in list <==> s in front || s == last;
    }
  }

  /** The strike next to the forward price is at or above the strike of the chosen pair exactly when
      the call is worth at least as much as the put there. */
  lemma AdjacentMeetsChosen(list: seq<Symbol>, p: Pair, growth: real)
    requires growth > 0.0 && p.series in AllSeries(list)
    ensures AdjacentStrike(list, Forward(Some(p), growth)) >= p.series.strike <==> p.call >= p.put
  {
    var forward := Forward(Some(p), growth);
    SeriesAreListed(list);
    AdjacentIsGreatest(list, forward);
    var x :| x in list && SeriesOf(x) == p.series;
    AreaSign(growth, p.call - p.put);
    assert forward >= x.strike as real <==> p.call >= p.put;
  }

  lemma AreaSign(growth: real, d: real)
    requires growth > 0.0
    ensures Area(growth, d) >= 0.0 <==> d >= 0.0
  {
    assert d < 0.0 ==> Area(growth, -d) > 0.0;
    assert d > 0.0 ==> Area(growth, d) > 0.0;
    assert Area(growth, d) == -Area(growth, -d);
  }

  /** Without a complete pair there is no strike, and without a strike no final book. */
  lemma NoPairNoBook(list: seq<Symbol>, entries: seq<Entry>, growth: real)
    ensures FinalBook(entries, AdjacentStrike(list, Forward(None, growth))).None?
  {
    AdjacentIsGreatest(list, 0.0);
  }

  // ----- when a book contributes

  lemma {:induction false} InsertCounts(legs: seq<Leg>, leg: Leg)
    ensures |InsertByStrike(legs, leg)| == |legs| + 1
  {
    if legs != [] && leg.strike >= legs[0].strike {
      InsertCounts(legs[1..], leg);
    }
  }

  lemma {:induction false} SortCounts(legs: seq<Leg>)
    ensures |SortByStrike(legs)| == |legs|
  {
    if legs != [] {
      SortCounts(legs[..|legs| - 1]);
      InsertCounts(SortByStrike(legs[..|legs| - 1]), legs[|legs| - 1]);
    }
  }

  /** Both mids at the strike, and at least one put below or call above it. */
  ghost predicate IsStrip(entries: seq<Entry>, target: nat) {
    && (exists call, put :: HasBoth(entries, target, call, put))
    && (exists e :: e in entries && OutOfTheMoney(e, target))
  }

  /** The entries of one expiry have a final book with a contribution exactly when they are a strip. */
  lemma ContributesIff(entries: seq<Entry>, target: nat)
    requires DistinctSymbols(entries) && OneSeries(entries)
    ensures FinalBook(entries, target).Some? && Contribution(FinalBook(entries, target).value).Some? <==> IsStrip(entries, target)
  {
    FinalBookShape(entries, target);
    if FinalBook(entries, target).Some? {
      var wings, average := Wings(entries, target), AverageAt(entries, target).value;
      WingMembers(entries, target);
      SortCounts(wings + [average]);
      assert wings != [] ==> wings[0] in wings;
      if e :| e in entries && OutOfTheMoney(e, target) {
        assert LegOf(e) in wings;
      }
    }
  }
}
