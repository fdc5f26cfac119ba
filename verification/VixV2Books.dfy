/** The book of the V2 calculator against the last message per symbol.  A stream keeps it exact; a
    rollover keeps it exact under a condition on the quoted expiries, for any catalogue, also one
    whose instruments are listed while the run goes on. */
module VixV2Books {
  import opened MarketData
  import opened History
  import opened ListedExpiries
  import opened VixV2

  /** The message carries the expiry the catalogue has for its symbol. */
  ghost predicate Genuine(cfg: Config, m: OptionSummary) {
    && (exists o :: o in cfg.catalogue && o.id == m.symbol)
    && (forall o | o in cfg.catalogue && o.id == m.symbol :: o.expiry == m.expirationDate)
  }

  ghost predicate GenuineFeed(cfg: Config) {
    forall r: Request, m | m in cfg.feed(r) :: Genuine(cfg, m)
  }

  lemma SameExpiry(cfg: Config, m: OptionSummary, m': OptionSummary)
    requires Genuine(cfg, m) && Genuine(cfg, m') && m.symbol == m'.symbol
    ensures m.expirationDate == m'.expirationDate
  {
    var o :| o in cfg.catalogue && o.id == m.symbol;
  }

  // ----- the exact book

  /** The last message of every symbol so far. */
  function Latest(s: State): map<string, OptionSummary> {
    LatestBySymbol(s.history)
  }

  function OnBookDates(e: Expiries): set<int> {
    {e.nearExpiry, e.nextExpiry}
  }

  ghost predicate ExactBook(s: State) {
    s.midBook == Within(Latest(s), OnBookDates(s.expiries))
  }

  /** At every report so far the index library was handed exactly the last message per symbol for
      the expiries of that moment, the current message included. */
  ghost predicate ExactReports(s: State) {
    forall r | r in s.reports ::
      && 0 < r.consumed <= |s.history|
      && s.history[r.consumed - 1] == r.message
      && r.params.options == Within(LatestBySymbol(s.history[..r.consumed]), {r.params.nearDate, r.params.nextDate})
  }

  ghost predicate AllGenuine(cfg: Config, latest: map<string, OptionSummary>) {
    forall k | k in latest :: latest[k].symbol == k && Genuine(cfg, latest[k])
  }

  /** The side book holds last messages too, of other expiries. */
  ghost predicate SideBookAgrees(latest: map<string, OptionSummary>, options: map<string, OptionSummary>, e: Expiries) {
    forall k | k in options :: k in latest && options[k] == latest[k] && latest[k].expirationDate !in OnBookDates(e)
  }

  ghost predicate BooksAgree(cfg: Config, s: State) {
    && AllGenuine(cfg, Latest(s))
    && ExactBook(s)
    && SideBookAgrees(Latest(s), s.options, s.expiries)
  }

  ghost predicate BookInv(cfg: Config, s: State) {
    InStep(cfg, s) && BooksAgree(cfg, s) && ExactReports(s)
  }

  // ----- one stream

  lemma StoreKeepsBooks(cfg: Config, s: State, m: OptionSummary)
    requires BooksAgree(cfg, s) && Genuine(cfg, m)
    ensures BooksAgree(cfg, Store(s, m))
  {
    if m.symbol in Latest(s) {
      SameExpiry(cfg, m, Latest(s)[m.symbol]);
    }
    LatestExtends(s.history, m);
    PutKeepsBook(cfg, s, m);
    PutKeepsSideBook(cfg, s, m);
  }

  lemma PutKeepsBook(cfg: Config, s: State, m: OptionSummary)
    requires AllGenuine(cfg, Latest(s)) && ExactBook(s) && Genuine(cfg, m)
    requires m.symbol in Latest(s) ==> Latest(s)[m.symbol].expirationDate == m.expirationDate
    requires Latest(Store(s, m)) == Latest(s)[m.symbol := m]
    ensures AllGenuine(cfg, Latest(Store(s, m))) && ExactBook(Store(s, m))
  {
    WithinPut(Latest(s), OnBookDates(s.expiries), m);
  }

  lemma PutKeepsSideBook(cfg: Config, s: State, m: OptionSummary)
    requires SideBookAgrees(Latest(s), s.options, s.expiries)
    requires m.symbol in Latest(s) ==> Latest(s)[m.symbol].expirationDate == m.expirationDate
    requires Latest(Store(s, m)) == Latest(s)[m.symbol := m]
    ensures SideBookAgrees(Latest(Store(s, m)), Store(s, m).options, s.expiries)
  {
  }

  lemma ReportIsExact(cfg: Config, s: State, m: OptionSummary)
    requires ExactReports(s) && ExactBook(Store(s, m))
    ensures ExactReports(Consume(cfg, s, m))
  {
    var s' := Consume(cfg, s, m);
    assert s'.history == s.history + [m];
    assert s'.history[..|s'.history|] == s'.history;
    assert forall n | 0 <= n <= |s.history| :: s'.history[..n] == s.history[..n];
  }

  lemma ConsumeKeepsBooks(cfg: Config, s: State, m: OptionSummary)
    requires BookInv(cfg, s) && Genuine(cfg, m)
    ensures BookInv(cfg, Consume(cfg, s, m))
  {
    StoreKeepsBooks(cfg, s, m);
    ReportIsExact(cfg, s, m);
  }

  /** Whatever the order of the messages, and whichever symbols a stream delivers. */
  lemma {:induction false} SegmentKeepsBooks(cfg: Config, s: State, messages: seq<OptionSummary>)
    requires BookInv(cfg, s)
    requires forall m | m in messages :: Genuine(cfg, m)
    ensures BookInv(cfg, Segment(cfg, s, messages).0)
    decreases |messages|
  {
    if messages != [] {
      ConsumeKeepsBooks(cfg, s, messages[0]);
      SegmentKeepsBooks(cfg, Consume(cfg, s, messages[0]), messages[1..]);
    }
  }

  lemma StreamKeepsBooks(cfg: Config, s: State)
    requires GenuineFeed(cfg) && BookInv(cfg, s)
    ensures BookInv(cfg, Streamed(cfg, s).0)
  {
    SegmentKeepsBooks(cfg, OpenStream(s), cfg.feed(RequestFor(cfg, s)));
  }

  // ----- one rollover

  ghost predicate Quoted(latest: map<string, OptionSummary>, expiry: int) {
    exists k :: k in latest && latest[k].expirationDate == expiry
  }

  /** What a rollover to `e'` must find to leave the book exact.  While near stays the book is left
      alone, so next may only be replaced if neither the old nor the new one was quoted.  Otherwise
      the entries of the old next stay on the book, so they must still be wanted; a new near must
      be that old next, as the side book is searched for the new next only; and the side book must
      hold every symbol quoted for the new next, unless that one was on the book before. */
  ghost predicate Harmless(s: State, e': Expiries) {
    var e, latest := s.expiries, Latest(s);
    if e'.nearExpiry == e.nearExpiry then
      e'.nextExpiry == e.nextExpiry || (!Quoted(latest, e.nextExpiry) && !Quoted(latest, e'.nextExpiry))
    else
      && (Quoted(latest, e.nextExpiry) ==> e.nextExpiry in OnBookDates(e'))
      && (Quoted(latest, e'.nearExpiry) ==> e'.nearExpiry == e.nextExpiry)
      && (e'.nextExpiry == e.nextExpiry || SideBookHas(s, e'.nextExpiry))
  }

  /** The side book holds every symbol quoted for the expiry. */
  ghost predicate SideBookHas(s: State, expiry: int) {
    forall k | k in Latest(s) && Latest(s)[k].expirationDate == expiry :: k in s.options
  }

  lemma NearIsBeforeNext(cfg: Config, now: int)
    requires ExpiriesAt(cfg.catalogue, now, cfg.timePeriod).Found?
    ensures var e := ExpiriesAt(cfg.catalogue, now, cfg.timePeriod).expiries; e.nearExpiry < e.nextExpiry
  {
    BracketsOfTarget(cfg.catalogue, now, cfg.timePeriod);
  }

  /** Which quoted symbols are on the book after a rollover to `e'`. */
  predicate Held(s: State, e': Expiries, expiry: int, symbol: string) {
    if e'.nearExpiry == s.expiries.nearExpiry then expiry in OnBookDates(s.expiries)
    else expiry == s.expiries.nextExpiry || (expiry == e'.nextExpiry && symbol in s.options)
  }

  lemma AdoptedBook(s: State, e': Expiries)
    requires s.expiries.nearExpiry < s.expiries.nextExpiry
    requires ExactBook(s) && SideBookAgrees(Latest(s), s.options, s.expiries)
    ensures Adopt(s, e').midBook == map k | k in Latest(s) && Held(s, e', Latest(s)[k].expirationDate, k) :: Latest(s)[k]
  {
    if e'.nearExpiry != s.expiries.nearExpiry {
      PromotedHas(s, e');
      assert Adopt(s, e').midBook == PromotedBook(s, e');
    }
  }

  lemma PromotedHas(s: State, e': Expiries)
    requires e'.nearExpiry != s.expiries.nearExpiry < s.expiries.nextExpiry
    requires ExactBook(s) && SideBookAgrees(Latest(s), s.options, s.expiries)
    ensures PromotedBook(s, e') == map k | k in Latest(s) && Held(s, e', Latest(s)[k].expirationDate, k) :: Latest(s)[k]
  {
    forall k
      ensures k in PromotedBook(s, e') <==> k in Latest(s) && Held(s, e', Latest(s)[k].expirationDate, k)
    {
    }
  }

  lemma AdoptedIsExactIff(s: State, e': Expiries)
    requires s.expiries.nearExpiry < s.expiries.nextExpiry
    requires ExactBook(s) && SideBookAgrees(Latest(s), s.options, s.expiries)
    ensures ExactBook(Adopt(s, e')) <==>
            forall k | k in Latest(s) ::
              Held(s, e', Latest(s)[k].expirationDate, k) <==> Latest(s)[k].expirationDate in OnBookDates(e')
  {
    AdoptedBook(s, e');
    var adopted, wanted := Adopt(s, e').midBook, Within(Latest(s), OnBookDates(e'));
    if adopted == wanted {
      forall k | k in Latest(s)
        ensures Held(s, e', Latest(s)[k].expirationDate, k) <==> Latest(s)[k].expirationDate in OnBookDates(e')
      {
        assert k in adopted <==> k in wanted;
      }
    }
  }

  lemma HarmlessIsHeld(s: State, e': Expiries)
    requires s.expiries.nearExpiry < s.expiries.nextExpiry && e'.nearExpiry < e'.nextExpiry
    requires SideBookAgrees(Latest(s), s.options, s.expiries)
    ensures Harmless(s, e') <==>
            forall k | k in Latest(s) ::
              Held(s, e', Latest(s)[k].expirationDate, k) <==> Latest(s)[k].expirationDate in OnBookDates(e')
  {
  }

  lemma HarmlessKeepsSideBook(s: State, e': Expiries)
    requires s.expiries.nearExpiry < s.expiries.nextExpiry
    requires SideBookAgrees(Latest(s), s.options, s.expiries) && Harmless(s, e')
    ensures SideBookAgrees(Latest(s), Adopt(s, e').options, e')
  {
  }

  /** A rollover leaves the book exact if and only if it is harmless; then the side book agrees too. */
  lemma RolloverIsExactIff(cfg: Config, s: State, e': Expiries)
    requires BookInv(cfg, s)
    requires ExpiriesAt(cfg.catalogue, s.expiries.rolloverAt, cfg.timePeriod) == Found(e')
    ensures ExactBook(Adopt(s, e')) <==> Harmless(s, e')
    ensures Harmless(s, e') ==> BookInv(cfg, Adopt(s, e'))
  {
    NearIsBeforeNext(cfg, s.refDate);
    NearIsBeforeNext(cfg, s.expiries.rolloverAt);
    AdoptedIsExactIff(s, e');
    HarmlessIsHeld(s, e');
    if Harmless(s, e') {
      HarmlessKeepsSideBook(s, e');
    }
  }

  // ----- whole runs

  ghost predicate AllExact(hs: seq<Handover>) {
    forall h | h in hs :: ExactBook(Adopt(h.before, h.expiries))
  }

  ghost predicate AllHarmless(hs: seq<Handover>) {
    forall h | h in hs :: Harmless(h.before, h.expiries)
  }

  lemma AllSplit(h: Handover, hs: seq<Handover>)
    ensures AllExact([h] + hs) <==> ExactBook(Adopt(h.before, h.expiries)) && AllExact(hs)
    ensures AllHarmless([h] + hs) <==> Harmless(h.before, h.expiries) && AllHarmless(hs)
  {
    assert forall x :: x in [h] + hs <==> x == h || x in hs;
  }

  /** Every rollover of the run leaves an exact book. */
  ghost predicate StaysExact(cfg: Config, s: State)
    requires InStep(cfg, s)
  {
    AllExact(Handovers(cfg, s))
  }

  ghost predicate OnlyHarmless(cfg: Config, s: State)
    requires InStep(cfg, s)
  {
    AllHarmless(Handovers(cfg, s))
  }

  /** Through any number of rollovers: the book is exact after each of them if and only if all are
      harmless.  Then, at every report and at the end, it is the last message per symbol of the
      whole run, restricted to the near and next expiries of the moment. */
  lemma {:induction false} RunIsExactIff(cfg: Config, s: State)
    requires GenuineFeed(cfg) && BookInv(cfg, s)
    ensures StaysExact(cfg, s) <==> OnlyHarmless(cfg, s)
    ensures OnlyHarmless(cfg, s) ==> ExactReports(Run(cfg, s).state) && ExactBook(Run(cfg, s).state)
    decreases Remaining(cfg, s)
  {
    var next := AfterStream(cfg, s);
    StreamKeepsBooks(cfg, s);
    if next.Ended? {
      EndedFacts(cfg, s);
    } else {
      RestartFacts(cfg, s);
      RolloverIsExactIff(cfg, next.before, next.expiries);
      var s' := Adopt(next.before, next.expiries);
      if Harmless(next.before, next.expiries) {
        RunIsExactIff(cfg, s');
      }
      FirstHandover(cfg, s);
    }
  }

  lemma FirstHandover(cfg: Config, s: State)
    requires InStep(cfg, s) && AfterStream(cfg, s).Restart?
    ensures var next := AfterStream(cfg, s);
      && InStep(cfg, Adopt(next.before, next.expiries))
      && (StaysExact(cfg, s) <==>
            ExactBook(Adopt(next.before, next.expiries)) && StaysExact(cfg, Adopt(next.before, next.expiries)))
      && (OnlyHarmless(cfg, s) <==>
            Harmless(next.before, next.expiries) && OnlyHarmless(cfg, Adopt(next.before, next.expiries)))
  {
    HandoversSplit(cfg, s);
    var next := AfterStream(cfg, s);
    AllSplit(Handover(next.before, next.expiries), Handovers(cfg, Adopt(next.before, next.expiries)));
  }

  lemma StartIsExact(cfg: Config, e: Expiries)
    requires ExpiriesAt(cfg.catalogue, cfg.startDate, cfg.timePeriod) == Found(e)
    ensures BookInv(cfg, Start(cfg, e))
  {
  }
}
