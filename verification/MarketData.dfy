/** The messages the services consume, with the fields of tardis-dev's normalized types that
    the modelled code reads. */
module MarketData {
  datatype Option<+T> = None | Some(value: T)

  /** The value, or zero for a missing one. */
  function OrZero(x: Option<real>): real {
    if x.Some? then x.value else 0.0
  }

  /** A number read from an optional one: kept if present, zero if missing. */
  predicate ReadsAs(x: Option<real>, y: real) {
    (x.Some? ==> y == x.value) && (x.None? ==> y == 0.0)
  }

  datatype OptionType = Call | Put

  datatype OptionSummary = OptionSummary(
    symbol: string,
    exchange: string,
    timestamp: int,
    localTimestamp: int,
    optionType: OptionType,
    strikePrice: real,
    expirationDate: int,
    bestBidPrice: Option<real>,
    bestAskPrice: Option<real>,
    markPrice: Option<real>,
    underlyingPrice: Option<real>,
    lastPrice: Option<real>,
    delta: Option<real>,
    markIV: Option<real>)

  datatype Trade = Trade(
    symbol: string,
    exchange: string,
    timestamp: int,
    localTimestamp: int,
    id: Option<string>,
    price: real)
}

/** Reference definitions over a message history: the last message of each symbol, and sets that
    remember the order of insertion. */
module History {
  import opened MarketData

  /** The last message of every symbol. */
  function LatestBySymbol(h: seq<OptionSummary>): map<string, OptionSummary> {
    if h == [] then map[]
    else LatestBySymbol(h[..|h| - 1])[h[|h| - 1].symbol := h[|h| - 1]]
  }

  ghost predicate IsLast(h: seq<OptionSummary>, symbol: string, i: nat) {
    i < |h| && h[i].symbol == symbol && forall j | i < j < |h| :: h[j].symbol != symbol
  }

  lemma {:induction false} LatestIsLast(h: seq<OptionSummary>, symbol: string)
    ensures symbol in LatestBySymbol(h) <==> exists i: nat :: IsLast(h, symbol, i)
    ensures forall i: nat | IsLast(h, symbol, i) :: LatestBySymbol(h)[symbol] == h[i]
  {
    if h != [] {
      var n, front := |h| - 1, h[..|h| - 1];
      LatestIsLast(front, symbol);
      if h[n].symbol == symbol {
        assert IsLast(h, symbol, n);
      } else {
        forall i: nat
          ensures IsLast(h, symbol, i) <==> IsLast(front, symbol, i)
        {
        }
      }
    }
  }

  lemma {:induction false} LatestCovers(h: seq<OptionSummary>)
    ensures forall m | m in h :: m.symbol in LatestBySymbol(h)
    ensures forall k | k in LatestBySymbol(h) :: LatestBySymbol(h)[k] in h && LatestBySymbol(h)[k].symbol == k
  {
    if h != [] {
      LatestCovers(h[..|h| - 1]);
      assert h == h[..|h| - 1] + [h[|h| - 1]];
    }
  }

  lemma LatestExtends(h: seq<OptionSummary>, m: OptionSummary)
    ensures LatestBySymbol(h + [m]) == LatestBySymbol(h)[m.symbol := m]
  {
    assert (h + [m])[..|h|] == h;
  }

  /** The entries whose option expires at one of the given instants. */
  function Within(book: map<string, OptionSummary>, expiries: set<int>): map<string, OptionSummary> {
    map k | k in book && book[k].expirationDate in expiries :: book[k]
  }

  lemma WithinPut(book: map<string, OptionSummary>, expiries: set<int>, m: OptionSummary)
    requires m.symbol in book ==> book[m.symbol].expirationDate == m.expirationDate
    ensures Within(book[m.symbol := m], expiries) ==
            if m.expirationDate in expiries then Within(book, expiries)[m.symbol := m] else Within(book, expiries)
  {
  }

  /** A JavaScript `Set`: no duplicates, iterated in order of first insertion. */
  function Add<T(==)>(s: seq<T>, x: T): seq<T> {
    if x in s then s else s + [x]
  }

  predicate Distinct<T(==)>(s: seq<T>) {
    forall i, j | 0 <= i < j < |s| :: s[i] != s[j]
  }

  lemma AddKeepsDistinct<T>(s: seq<T>, x: T)
    requires Distinct(s)
    ensures Distinct(Add(s, x))
    ensures forall y :: y in Add(s, x) <==> y in s || y == x
  {
  }
}
