/** The ingest service's cache: a two-level index, expiry to symbols to latest summary, kept up to
    date message by message. */
module IngestServices {
  import opened MarketData
  import opened History

  /** `summaryWithDefaults` with zeros for the three prices. */
  function WithDefaults(o: OptionSummary): OptionSummary {
    o.(bestAskPrice := Some(OrZero(o.bestAskPrice)),
       bestBidPrice := Some(OrZero(o.bestBidPrice)),
       underlyingPrice := Some(OrZero(o.underlyingPrice)))
  }

  /** What `fetchOptionSummaries` resolves to, or the error it throws. */
  datatype Response = Summaries(summaries: seq<OptionSummary>) | CacheDisabled | ExpiryUnseen

  // ----- the reference, in terms of the message history

  /** The symbols quoted for an expiry, in the order they were first seen for it. */
  function FirstSeen(h: seq<OptionSummary>, expiry: int): seq<string> {
    if h == [] then []
    else
      var m := h[|h| - 1];
      if m.expirationDate == expiry then Add(FirstSeen(h[..|h| - 1], expiry), m.symbol) else FirstSeen(h[..|h| - 1], expiry)
  }

  ghost predicate IsFirst(h: seq<OptionSummary>, expiry: int, symbol: string, n: nat) {
    && n < |h| && h[n].symbol == symbol && h[n].expirationDate == expiry
    && forall i | 0 <= i < n :: !(h[i].symbol == symbol && h[i].expirationDate == expiry)
  }

  ghost predicate Quoted(h: seq<OptionSummary>, expiry: int, symbol: string) {
    exists m :: m in h && m.symbol == symbol && m.expirationDate == expiry
  }

  lemma {:induction false} FirstSeenIsQuoted(h: seq<OptionSummary>, expiry: int)
    ensures Distinct(FirstSeen(h, expiry))
    ensures forall symbol :: symbol in FirstSeen(h, expiry) <==> Quoted(h, expiry, symbol)
  {
    if h != [] {
      var front, m := h[..|h| - 1], h[|h| - 1];
      FirstSeenIsQuoted(front, expiry);
      AddKeepsDistinct(FirstSeen(front, expiry), m.symbol);
      assert forall o :: o in h <==> o in front || o == m;
    }
  }

  /** Symbols come in the order of their first message for the expiry. */
  lemma {:induction false} FirstSeenIsInOrder(h: seq<OptionSummary>, expiry: int, i: nat, j: nat, n: nat, m: nat)
    requires i < j < |FirstSeen(h, expiry)|
    requires IsFirst(h, expiry, FirstSeen(h, expiry)[i], n) && IsFirst(h, expiry, FirstSeen(h, expiry)[j], m)
    ensures n < m
  {
    var front, seen := h[..|h| - 1], FirstSeen(h[..|h| - 1], expiry);
    FirstSeenIsQuoted(h, expiry);
    FirstSeenIsQuoted(front, expiry);
    if j < |seen| {
      QuotedHasFirst(front, expiry, seen[i], n);
      QuotedHasFirst(front, expiry, seen[j], m);
      FirstSeenIsInOrder(front, expiry, i, j, n, m);
    } else {
      QuotedHasFirst(front, expiry, seen[i], n);
      assert forall k | 0 <= k < |front| :: front[k] in front && front[k] == h[k];
    }
  }

  lemma QuotedHasFirst(front: seq<OptionSummary>, expiry: int, symbol: string, n: nat)
    requires Quoted(front, expiry, symbol)
    ensures forall m :: IsFirst(front + [m], expiry, symbol, n) ==> IsFirst(front, expiry, symbol, n)
  {
    var o :| o in front && o.symbol == symbol && o.expirationDate == expiry;
    var k :| 0 <= k < |front| && front[k] == o;
    forall m | IsFirst(front + [m], expiry, symbol, n)
      ensures IsFirst(front, expiry, symbol, n)
    {
      assert (front + [m])[k] == o;
      assert forall i | 0 <= i < |front| :: (front + [m])[i] == front[i];
    }
  }

  /** What a request for an expiry returns after a history. */
  function FetchAfter(h: seq<OptionSummary>, expiry: int): Response {
    var symbols := FirstSeen(h, expiry);
    if symbols == [] then ExpiryUnseen
    else
      FirstSeenIsCached(h, expiry);
      Summaries(seq(|symbols|, i requires 0 <= i < |symbols| => WithDefaults(LatestBySymbol(h)[symbols[i]])))
  }

  lemma FirstSeenIsCached(h: seq<OptionSummary>, expiry: int)
    ensures forall symbol | symbol in FirstSeen(h, expiry) :: symbol in LatestBySymbol(h)
  {
    FirstSeenIsQuoted(h, expiry);
    LatestCovers(h);
  }

  class IngestService {
    var latestMessage: Option<OptionSummary>
    var expiryMap: map<int, seq<string>>
    const hasCacher: bool
    var cacher: map<string, OptionSummary>
    ghost var history: seq<OptionSummary>

    ghost predicate Valid()
      reads this
    {
      && (forall expiry :: expiry in expiryMap <==> FirstSeen(history, expiry) != [])
      && (forall expiry | expiry in expiryMap :: expiryMap[expiry] == FirstSeen(history, expiry))
      && (hasCacher ==>
            && (forall k :: k in cacher <==> k in LatestBySymbol(history))
            && (forall k | k in cacher :: cacher[k] == WithDefaults(LatestBySymbol(history)[k])))
      && latestMessage == if history == [] then None else Some(history[|history| - 1])
    }

    constructor (hasCacher: bool)
      ensures Valid() && history == [] && this.hasCacher == hasCacher
    {
      latestMessage, expiryMap, cacher := None, map[], map[];
      this.hasCacher := hasCacher;
      history := [];
    }

    method Process(messages: seq<OptionSummary>)
      requires Valid()
      modifies this
      ensures Valid() && history == old(history) + messages
    {
      for i := 0 to |messages|
        invariant Valid() && history == old(history) + messages[..i]
      {
        ProcessMessage(messages[i]);
        assert old(history) + messages[..i + 1] == old(history) + messages[..i] + [messages[i]];
      }
      assert messages[..|messages|] == messages;
    }

    method ProcessMessage(message: OptionSummary)
      requires Valid()
      modifies this
      ensures Valid() && history == old(history) + [message]
    {
      latestMessage := Some(message);
      CacheMessage(message);
      history := history + [message];
      LatestExtends(old(history), message);
      assert history[..|history| - 1] == old(history);
    }

    method CacheMessage(o: OptionSummary)
      modifies this`expiryMap, this`cacher
      ensures expiryMap == old(expiryMap)[
                             o.expirationDate := Add(if o.expirationDate in old(expiryMap) then old(expiryMap)[o.expirationDate] else [], o.symbol)]
      ensures cacher == if hasCacher then old(cacher)[o.symbol := WithDefaults(o)] else old(cacher)
    {
      if o.expirationDate !in expiryMap {
        expiryMap := expiryMap[o.expirationDate := []];
      }
      expiryMap := expiryMap[o.expirationDate := Add(expiryMap[o.expirationDate], o.symbol)];
      if hasCacher {
        cacher := cacher[o.symbol := WithDefaults(o)];
      }
    }

    method FetchOptionSummaries(expiry: int) returns (r: Response)
      requires Valid()
      ensures r == if hasCacher then FetchAfter(history, expiry) else CacheDisabled
    {
      if !hasCacher {
        return CacheDisabled;
      }
      if expiry !in expiryMap {
        return ExpiryUnseen;
      }
      var symbolList, summaries := expiryMap[expiry], [];
      FirstSeenIsCached(history, expiry);
      for i := 0 to |symbolList|
        invariant |summaries| == i
        invariant forall k | 0 <= k < i :: summaries[k] == WithDefaults(LatestBySymbol(history)[symbolList[k]])
      {
        summaries := summaries + [cacher[symbolList[i]]];
      }
      r := Summaries(summaries);
    }
  }

  // ----- what a response means

  /** The three prices are there: as quoted, or zero where none was quoted.  All else is as quoted. */
  ghost predicate IsDefaulted(o: OptionSummary, d: OptionSummary) {
    && d.bestAskPrice.Some? && ReadsAs(o.bestAskPrice, d.bestAskPrice.value)
    && d.bestBidPrice.Some? && ReadsAs(o.bestBidPrice, d.bestBidPrice.value)
    && d.underlyingPrice.Some? && ReadsAs(o.underlyingPrice, d.underlyingPrice.value)
    && d == o.(bestAskPrice := d.bestAskPrice, bestBidPrice := d.bestBidPrice, underlyingPrice := d.underlyingPrice)
  }

  /** Each symbol seen for the expiry exactly once, with its last message; an error exactly when no
      message of the expiry has been seen. */
  lemma FetchReturnsLatest(h: seq<OptionSummary>, expiry: int)
    ensures var r, symbols := FetchAfter(h, expiry), FirstSeen(h, expiry);
      && (r == ExpiryUnseen <==> forall m | m in h :: m.expirationDate != expiry)
      && (r != ExpiryUnseen ==>
            && r.Summaries? && |r.summaries| == |symbols| && Distinct(symbols)
            && forall k | 0 <= k < |symbols| ::
                 && r.summaries[k].symbol == symbols[k]
                 && exists i: nat :: IsLast(h, symbols[k], i) && IsDefaulted(h[i], r.summaries[k]))
  {
    var r, symbols := FetchAfter(h, expiry), FirstSeen(h, expiry);
    FirstSeenIsQuoted(h, expiry);
    FirstSeenIsCached(h, expiry);
    if symbols != [] {
      assert symbols[0] in symbols;
      forall k | 0 <= k < |symbols|
        ensures r.summaries[k].symbol == symbols[k]
        ensures exists i: nat :: IsLast(h, symbols[k], i) && IsDefaulted(h[i], r.summaries[k])
      {
        LatestIsLast(h, symbols[k]);
        var i: nat :| IsLast(h, symbols[k], i);
        assert r.summaries[k] == WithDefaults(h[i]);
      }
    } else {
      forall m | m in h
        ensures m.expirationDate != expiry
      {
        assert m.expirationDate == expiry ==> Quoted(h, expiry, m.symbol);
      }
    }
  }

  /** A symbol that is quoted with another expiry after having been quoted with this one is quoted
      with this one again later on. */
  ghost predicate AlwaysReturns(h: seq<OptionSummary>, expiry: int) {
    forall i, j | 0 <= i < j < |h| && Leaves(h, expiry, i, j) :: exists k :: j < k < |h| && IsQuote(h[k], expiry, h[i].symbol)
  }

  predicate IsQuote(m: OptionSummary, expiry: int, symbol: string) {
    m.symbol == symbol && m.expirationDate == expiry
  }

  predicate Leaves(h: seq<OptionSummary>, expiry: int, i: nat, j: nat)
    requires i < |h| && j < |h|
  {
    h[i].expirationDate == expiry && h[j].symbol == h[i].symbol && h[j].expirationDate != expiry
  }

  /** The last message of the symbol has the expiry. */
  ghost predicate EndsWith(h: seq<OptionSummary>, expiry: int, symbol: string) {
    exists l: nat :: IsLast(h, symbol, l) && h[l].expirationDate == expiry
  }

  lemma QuotedHasLast(h: seq<OptionSummary>, expiry: int, symbol: string) returns (i: nat, l: nat)
    requires Quoted(h, expiry, symbol)
    ensures i <= l < |h| && IsQuote(h[i], expiry, symbol) && IsLast(h, symbol, l)
    ensures symbol in LatestBySymbol(h) && LatestBySymbol(h)[symbol] == h[l]
  {
    var m :| m in h && m.symbol == symbol && m.expirationDate == expiry;
    i :| 0 <= i < |h| && h[i] == m;
    LastFrom(h, symbol, i);
    l :| i <= l && IsLast(h, symbol, l);
    LatestIsLast(h, symbol);
  }

  lemma LastFrom(h: seq<OptionSummary>, symbol: string, i: nat)
    requires i < |h| && h[i].symbol == symbol
    ensures exists l: nat :: i <= l && IsLast(h, symbol, l)
    decreases |h| - i
  {
    if j :| i < j < |h| && h[j].symbol == symbol {
      LastFrom(h, symbol, j);
    } else {
      assert IsLast(h, symbol, i);
    }
  }

  lemma EndsWithIff(h: seq<OptionSummary>, expiry: int)
    ensures AlwaysReturns(h, expiry) <==> forall symbol | Quoted(h, expiry, symbol) :: EndsWith(h, expiry, symbol)
  {
    if AlwaysReturns(h, expiry) {
      forall symbol | Quoted(h, expiry, symbol)
        ensures EndsWith(h, expiry, symbol)
      {
        var i, l := QuotedHasLast(h, expiry, symbol);
        assert !(i < l && Leaves(h, expiry, i, l));
      }
    }
    if forall symbol | Quoted(h, expiry, symbol) :: EndsWith(h, expiry, symbol) {
      forall i, j | 0 <= i < j < |h| && Leaves(h, expiry, i, j)
        ensures exists k :: j < k < |h| && IsQuote(h[k], expiry, h[i].symbol)
      {
        assert h[i] in h && Quoted(h, expiry, h[i].symbol);
        var l: nat :| IsLast(h, h[i].symbol, l) && h[l].expirationDate == expiry;
        assert j < l && IsQuote(h[l], expiry, h[i].symbol);
      }
    }
  }

  /** The summaries returned for an expiry all expire then if and only if every symbol that leaves
      the expiry returns to it; in particular when a symbol always has the same expiry. */
  lemma FetchIsForExpiryIff(h: seq<OptionSummary>, expiry: int)
    requires FetchAfter(h, expiry).Summaries?
    ensures (forall o | o in FetchAfter(h, expiry).summaries :: o.expirationDate == expiry) <==> AlwaysReturns(h, expiry)
  {
    EndsWithIff(h, expiry);
    var r, symbols := FetchAfter(h, expiry), FirstSeen(h, expiry);
    FirstSeenIsQuoted(h, expiry);
    FirstSeenIsCached(h, expiry);
    forall symbol | Quoted(h, expiry, symbol)
      ensures WithDefaults(LatestBySymbol(h)[symbol]) in r.summaries
      ensures EndsWith(h, expiry, symbol) <==> LatestBySymbol(h)[symbol].expirationDate == expiry
    {
      var i, l := QuotedHasLast(h, expiry, symbol);
      var k :| 0 <= k < |symbols| && symbols[k] == symbol;
      assert r.summaries[k] == WithDefaults(LatestBySymbol(h)[symbol]);
    }
  }
}
