/** The book of the V2 calculator on catalogues whose instruments are all listed when the run starts:
    which expiries cross the target decides alone whether a rollover is harmless.  And two concrete
    runs whose book goes wrong. */
module VixV2Listings {
  import opened Instants
  import opened MarketData
  import opened History
  import opened ListedExpiries
  import opened VixV2
  import opened VixV2Books

  /** Every instrument of the catalogue is listed before the run starts. */
  ghost predicate FullyListed(cfg: Config) {
    forall o | o in cfg.catalogue :: o.listing <= cfg.startDate
  }

  function SymbolsOf(r: Request): set<string> {
    r.symbols
  }

  /** Streams deliver subscribed symbols only, each with its listed expiry. */
  ghost predicate FaithfulFeed(cfg: Config) {
    forall r: Request, m | m in cfg.feed(r) :: m.symbol in SymbolsOf(r) && Genuine(cfg, m)
  }

  lemma FaithfulIsGenuine(cfg: Config)
    requires FaithfulFeed(cfg)
    ensures GenuineFeed(cfg)
  {
  }

  function ListedDates(cfg: Config): set<int> {
    set o | o in cfg.catalogue :: o.expiry
  }

  predicate Listed(cfg: Config, expiry: int) {
    expiry in ListedDates(cfg)
  }

  /** The instant up to which `now` counts as near. */
  function Target(cfg: Config, now: int): int {
    now + cfg.timePeriod * MS_PER_DAY
  }

  ghost predicate AtMostOneBetween(listed: set<int>, low: int, high: int) {
    forall x, y | x in listed && y in listed && low < x <= high && low < y <= high :: x == y
  }

  /** No two listed expiries cross the target while the reference date moves from `from` to `to`. */
  ghost predicate AtMostOneCrosses(cfg: Config, from: int, to: int) {
    AtMostOneBetween(ListedDates(cfg), Target(cfg, from), Target(cfg, to))
  }

  // ----- how the expiries move

  lemma ActiveMeansListed(cfg: Config, now: int)
    requires FullyListed(cfg) && cfg.startDate <= now
    ensures forall e :: Active(cfg.catalogue, now, e) <==> Listed(cfg, e) && now < e
  {
    forall e
      ensures Active(cfg.catalogue, now, e) <==> Listed(cfg, e) && now < e
    {
      GroupMembers(cfg.catalogue, now, e);
    }
  }

  /** Near and next are the listed dates around the target, the rollover is the first one to come. */
  ghost predicate Placed(listed: set<int>, now: int, target: int, e: Expiries) {
    && e.nearExpiry in listed && e.nextExpiry in listed && e.rolloverAt in listed
    && now < e.rolloverAt <= e.nearExpiry <= target < e.nextExpiry
    && (forall x | x in listed && now < x :: e.rolloverAt <= x && (x <= e.nearExpiry || e.nextExpiry <= x))
  }

  lemma ExpiriesArePlaced(cfg: Config, now: int, e: Expiries)
    requires FullyListed(cfg) && cfg.startDate <= now
    requires ExpiriesAt(cfg.catalogue, now, cfg.timePeriod) == Found(e)
    ensures Placed(ListedDates(cfg), now, Target(cfg, now), e)
  {
    BracketsOfTarget(cfg.catalogue, now, cfg.timePeriod);
    ActiveMeansListed(cfg, now);
    assert forall x | x in ListedDates(cfg) && now < x :: Listed(cfg, x) && Active(cfg.catalogue, now, x);
  }

  /** The expiry list is what is listed beyond the next expiry, earliest first. */
  ghost predicate IsRest(listed: set<int>, e: Expiries) {
    && (forall x :: x in e.expiryList <==> x in listed && x > e.nextExpiry)
    && (forall x | x in e.expiryList :: e.expiryList[0] <= x)
  }

  lemma ExpiryListIsRest(cfg: Config, now: int, e: Expiries)
    requires FullyListed(cfg) && cfg.startDate <= now
    requires ExpiriesAt(cfg.catalogue, now, cfg.timePeriod) == Found(e)
    ensures IsRest(ListedDates(cfg), e)
  {
    NeighboursOfTarget(cfg.catalogue, now, cfg.timePeriod);
    ExpiryListIsTheRest(cfg.catalogue, now, Target(cfg, now), e);
    ActiveMeansListed(cfg, now);
  }

  /** How the expiries move at a rollover: if near stays so does next; otherwise the new near is the
      old next or lies beyond it, and it is the old next exactly when only one expiry crossed. */
  lemma ExpiriesMove(listed: set<int>, now: int, target: int, target': int, e: Expiries, e': Expiries)
    requires target <= target'
    requires Placed(listed, now, target, e) && Placed(listed, e.rolloverAt, target', e')
    ensures e'.nearExpiry == e.nearExpiry ==> e'.nextExpiry == e.nextExpiry
    ensures e'.nearExpiry != e.nearExpiry ==> e.nextExpiry <= e'.nearExpiry
    ensures AtMostOneBetween(listed, target, target') <==> e'.nearExpiry == e.nearExpiry || e'.nearExpiry == e.nextExpiry
  {
    if e'.nearExpiry != e.nearExpiry && e'.nearExpiry != e.nextExpiry {
      assert e.nextExpiry in listed && e'.nearExpiry in listed;
      assert target < e.nextExpiry < e'.nearExpiry <= target';
    } else {
      forall x, y | x in listed && y in listed && target < x <= target' && target < y <= target'
        ensures x == y
      {
        assert x <= e'.nearExpiry && y <= e'.nearExpiry && e.nextExpiry <= x && e.nextExpiry <= y;
      }
    }
  }

  predicate IsAfterNext(e: Expiries, expiry: int) {
    e.expiryList != [] && expiry == e.expiryList[0]
  }

  /** The expiry after next comes before everything else listed beyond next. */
  lemma AfterNextIsFirst(listed: set<int>, e: Expiries, x: int)
    requires IsRest(listed, e) && x in listed && x > e.nextExpiry
    ensures e.expiryList != [] && e.expiryList[0] in listed && e.nextExpiry < e.expiryList[0] <= x
  {
    assert x in e.expiryList;
    assert e.expiryList[0] in e.expiryList;
  }

  /** While next stays, so does the expiry after it. */
  lemma AfterNextStays(listed: set<int>, e: Expiries, e': Expiries, x: int)
    requires IsRest(listed, e) && IsRest(listed, e') && e'.nextExpiry == e.nextExpiry
    requires IsAfterNext(e, x)
    ensures IsAfterNext(e', x)
  {
    assert x in e.expiryList;
    AfterNextIsFirst(listed, e', x);
    AfterNextIsFirst(listed, e, e'.expiryList[0]);
  }

  /** Both at once, for a rollover of the machine. */
  lemma MoveOf(cfg: Config, s: State, e': Expiries)
    requires FullyListed(cfg) && cfg.startDate <= s.refDate && InStep(cfg, s)
    requires ExpiriesAt(cfg.catalogue, s.expiries.rolloverAt, cfg.timePeriod) == Found(e')
    ensures var e := s.expiries;
      && s.refDate < e.rolloverAt && e.nearExpiry < e.nextExpiry
      && e'.nearExpiry < e'.nextExpiry && Listed(cfg, e'.nextExpiry)
      && (e'.nearExpiry == e.nearExpiry ==> e'.nextExpiry == e.nextExpiry)
      && (e'.nearExpiry != e.nearExpiry ==> e.nextExpiry <= e'.nearExpiry)
      && (AtMostOneCrosses(cfg, s.refDate, e.rolloverAt) <==> e'.nearExpiry == e.nearExpiry || e'.nearExpiry == e.nextExpiry)
  {
    var e := s.expiries;
    ExpiriesArePlaced(cfg, s.refDate, e);
    ExpiriesArePlaced(cfg, e.rolloverAt, e');
    ExpiriesMove(ListedDates(cfg), s.refDate, Target(cfg, s.refDate), Target(cfg, e.rolloverAt), e, e');
  }

  // ----- the side book misses nothing

  /** Everything quoted beyond the next expiry is of the expiry after it, and in the side book. */
  ghost predicate NothingMissed(s: State) {
    forall k | k in Latest(s) && Latest(s)[k].expirationDate > s.expiries.nextExpiry ::
      k in s.options && IsAfterNext(s.expiries, Latest(s)[k].expirationDate)
  }

  lemma IdHasExpiry(cfg: Config, now: int, expiry: int, m: OptionSummary)
    requires m.symbol in Ids(Group(cfg.catalogue, now, expiry)) && Genuine(cfg, m)
    ensures m.expirationDate == expiry
  {
    GroupMembers(cfg.catalogue, now, expiry);
  }

  /** A subscribed message belongs to near, next or the expiry after next. */
  lemma SubscribedExpiry(cfg: Config, s: State, m: OptionSummary)
    requires InStep(cfg, s)
    requires m.symbol in SubscribedSymbols(s.expiries) && Genuine(cfg, m)
    ensures OnBook(s, m) || IsAfterNext(s.expiries, m.expirationDate)
  {
    var e := s.expiries;
    ContentsOfTarget(cfg.catalogue, s.refDate, cfg.timePeriod);
    if m.symbol in e.nearSymbols {
      IdHasExpiry(cfg, s.refDate, e.nearExpiry, m);
    } else if m.symbol in e.nextSymbols {
      IdHasExpiry(cfg, s.refDate, e.nextExpiry, m);
    } else {
      IdHasExpiry(cfg, s.refDate, e.expiryList[0], m);
    }
  }

  lemma StoreMissesNothing(s: State, m: OptionSummary)
    requires NothingMissed(s) && s.expiries.nearExpiry < s.expiries.nextExpiry
    requires OnBook(s, m) || IsAfterNext(s.expiries, m.expirationDate)
    ensures NothingMissed(Store(s, m))
  {
    LatestExtends(s.history, m);
    assert Latest(Store(s, m)) == Latest(s)[m.symbol := m];
  }

  lemma ConsumeMissesNothing(cfg: Config, s: State, m: OptionSummary)
    requires NothingMissed(Store(s, m))
    ensures NothingMissed(Consume(cfg, s, m))
  {
    ConsumeStores(cfg, s, m);
  }

  lemma {:induction false} SegmentMissesNothing(cfg: Config, s: State, messages: seq<OptionSummary>)
    requires InStep(cfg, s) && NothingMissed(s)
    requires forall m | m in messages :: m.symbol in SubscribedSymbols(s.expiries) && Genuine(cfg, m)
    ensures NothingMissed(Segment(cfg, s, messages).0)
    decreases |messages|
  {
    if messages != [] {
      SubscribedExpiry(cfg, s, messages[0]);
      NearIsBeforeNext(cfg, s.refDate);
      StoreMissesNothing(s, messages[0]);
      ConsumeMissesNothing(cfg, s, messages[0]);
      ConsumeStores(cfg, s, messages[0]);
      SegmentMissesNothing(cfg, Consume(cfg, s, messages[0]), messages[1..]);
    }
  }

  lemma FeedIsSubscribed(cfg: Config, s: State)
    requires FaithfulFeed(cfg)
    ensures forall m | m in cfg.feed(RequestFor(cfg, s)) :: m.symbol in SubscribedSymbols(s.expiries) && Genuine(cfg, m)
  {
    assert SymbolsOf(RequestFor(cfg, s)) == SubscribedSymbols(s.expiries);
  }

  lemma StreamMissesNothing(cfg: Config, s: State)
    requires FaithfulFeed(cfg) && InStep(cfg, s) && NothingMissed(s)
    ensures NothingMissed(Streamed(cfg, s).0)
  {
    FeedIsSubscribed(cfg, s);
    SegmentMissesNothing(cfg, OpenStream(s), cfg.feed(RequestFor(cfg, s)));
  }

  lemma AdoptMissesNothing(cfg: Config, s: State, e': Expiries)
    requires FullyListed(cfg) && cfg.startDate <= s.refDate && InStep(cfg, s) && NothingMissed(s)
    requires ExpiriesAt(cfg.catalogue, s.expiries.rolloverAt, cfg.timePeriod) == Found(e')
    ensures NothingMissed(Adopt(s, e'))
  {
    var e, listed := s.expiries, ListedDates(cfg);
    MoveOf(cfg, s, e');
    ExpiryListIsRest(cfg, s.refDate, e);
    ExpiryListIsRest(cfg, e.rolloverAt, e');
    forall k | k in Latest(s) && Latest(s)[k].expirationDate > e'.nextExpiry
      ensures k in Adopt(s, e').options && IsAfterNext(e', Latest(s)[k].expirationDate)
    {
      if e'.nearExpiry == e.nearExpiry {
        AfterNextStays(listed, e, e', Latest(s)[k].expirationDate);
      } else {
        AfterNextIsFirst(listed, e, e'.nextExpiry);
        assert false;
      }
    }
  }

  // ----- harmless rollovers

  /** At most one listed expiry crosses the target, or those skipped over were never quoted: the
      old next (whose entries stay behind) and the new near (which was never streamed). */
  ghost predicate CrossesQuietly(cfg: Config, s: State, e': Expiries) {
    || AtMostOneCrosses(cfg, s.refDate, s.expiries.rolloverAt)
    || (!Quoted(Latest(s), s.expiries.nextExpiry) && !Quoted(Latest(s), e'.nearExpiry))
  }

  lemma QuietIsHarmless(cfg: Config, s: State, e': Expiries)
    requires FullyListed(cfg) && cfg.startDate <= s.refDate && InStep(cfg, s) && NothingMissed(s)
    requires ExpiriesAt(cfg.catalogue, s.expiries.rolloverAt, cfg.timePeriod) == Found(e')
    ensures Harmless(s, e') <==> CrossesQuietly(cfg, s, e')
  {
    MoveOf(cfg, s, e');
    SkipsAreHarmless(s, e');
  }

  lemma SkipsAreHarmless(s: State, e': Expiries)
    requires NothingMissed(s)
    requires s.expiries.nearExpiry < s.expiries.nextExpiry && e'.nearExpiry < e'.nextExpiry
    requires e'.nearExpiry == s.expiries.nearExpiry ==> e'.nextExpiry == s.expiries.nextExpiry
    requires e'.nearExpiry != s.expiries.nearExpiry ==> s.expiries.nextExpiry <= e'.nearExpiry
    ensures Harmless(s, e') <==>
            || e'.nearExpiry == s.expiries.nearExpiry || e'.nearExpiry == s.expiries.nextExpiry
            || (!Quoted(Latest(s), s.expiries.nextExpiry) && !Quoted(Latest(s), e'.nearExpiry))
  {
    if e'.nearExpiry != s.expiries.nearExpiry {
      assert SideBookHas(s, e'.nextExpiry);
    }
  }

  ghost predicate AllQuiet(cfg: Config, hs: seq<Handover>) {
    forall h | h in hs :: CrossesQuietly(cfg, h.before, h.expiries)
  }

  lemma QuietSplit(cfg: Config, h: Handover, hs: seq<Handover>)
    ensures AllQuiet(cfg, [h] + hs) <==> CrossesQuietly(cfg, h.before, h.expiries) && AllQuiet(cfg, hs)
  {
    assert forall x :: x in [h] + hs <==> x == h || x in hs;
  }

  ghost predicate OnlyQuiet(cfg: Config, s: State)
    requires InStep(cfg, s)
  {
    AllQuiet(cfg, Handovers(cfg, s))
  }

  ghost predicate ListingInv(cfg: Config, s: State) {
    BookInv(cfg, s) && cfg.startDate <= s.refDate && NothingMissed(s)
  }

  lemma StreamKeepsListings(cfg: Config, s: State)
    requires FaithfulFeed(cfg) && ListingInv(cfg, s)
    ensures ListingInv(cfg, Streamed(cfg, s).0)
  {
    FaithfulIsGenuine(cfg);
    StreamKeepsBooks(cfg, s);
    StreamMissesNothing(cfg, s);
    SegmentKeeps(cfg, OpenStream(s), cfg.feed(RequestFor(cfg, s)));
  }

  lemma AdoptKeepsListings(cfg: Config, s: State, e': Expiries)
    requires FullyListed(cfg) && ListingInv(cfg, s)
    requires ExpiriesAt(cfg.catalogue, s.expiries.rolloverAt, cfg.timePeriod) == Found(e')
    ensures Harmless(s, e') <==> CrossesQuietly(cfg, s, e')
    ensures Harmless(s, e') ==> ListingInv(cfg, Adopt(s, e'))
  {
    RolloverIsAhead(cfg, s);
    QuietIsHarmless(cfg, s, e');
    RolloverIsExactIff(cfg, s, e');
    AdoptMissesNothing(cfg, s, e');
  }

  lemma QuietHandovers(cfg: Config, s: State)
    requires InStep(cfg, s) && AfterStream(cfg, s).Restart?
    ensures var next := AfterStream(cfg, s);
      && InStep(cfg, Adopt(next.before, next.expiries))
      && (OnlyQuiet(cfg, s) <==>
            CrossesQuietly(cfg, next.before, next.expiries) && OnlyQuiet(cfg, Adopt(next.before, next.expiries)))
  {
    HandoversSplit(cfg, s);
    var next := AfterStream(cfg, s);
    QuietSplit(cfg, Handover(next.before, next.expiries), Handovers(cfg, Adopt(next.before, next.expiries)));
  }

  /** Over whole runs the harmless rollovers are the quiet ones. */
  lemma {:induction false} OnlyQuietIff(cfg: Config, s: State)
    requires FullyListed(cfg) && FaithfulFeed(cfg) && ListingInv(cfg, s)
    ensures OnlyHarmless(cfg, s) <==> OnlyQuiet(cfg, s)
    decreases Remaining(cfg, s)
  {
    var next := AfterStream(cfg, s);
    if next.Restart? {
      RestartFacts(cfg, s);
      StreamKeepsListings(cfg, s);
      AdoptKeepsListings(cfg, next.before, next.expiries);
      FirstHandover(cfg, s);
      QuietHandovers(cfg, s);
      if Harmless(next.before, next.expiries) {
        OnlyQuietIff(cfg, Adopt(next.before, next.expiries));
      }
    }
  }

  /** For a catalogue that is listed from the start: the book is exact after every rollover if and
      only if each of them is quiet, and then at every report and at the end. */
  lemma ListedRunIsExactIff(cfg: Config, s: State)
    requires FullyListed(cfg) && FaithfulFeed(cfg) && ListingInv(cfg, s)
    ensures StaysExact(cfg, s) <==> OnlyQuiet(cfg, s)
    ensures OnlyQuiet(cfg, s) ==> ExactReports(Run(cfg, s).state) && ExactBook(Run(cfg, s).state)
  {
    FaithfulIsGenuine(cfg);
    OnlyQuietIff(cfg, s);
    RunIsExactIff(cfg, s);
  }

  // ----- catalogues that make every rollover quiet

  /** At most one listed expiry crosses the target at any rollover a run can reach: those happen
      inside the replay period, at the first listed expiry after its start or after another one. */
  ghost predicate Spaced(cfg: Config) {
    forall from, to | IsStep(cfg, from, to) && to < cfg.startDate + cfg.maxDuration :: AtMostOneCrosses(cfg, from, to)
  }

  ghost predicate IsStep(cfg: Config, from: int, to: int) {
    cfg.startDate <= from < to && Listed(cfg, to) && forall e | Listed(cfg, e) :: e <= from || to <= e
  }

  lemma RolloverIsSpaced(cfg: Config, s: State)
    requires FullyListed(cfg) && Spaced(cfg) && InStep(cfg, s) && cfg.startDate <= s.refDate
    requires s.expiries.rolloverAt < cfg.startDate + cfg.maxDuration
    ensures AtMostOneCrosses(cfg, s.refDate, s.expiries.rolloverAt)
  {
    ExpiriesArePlaced(cfg, s.refDate, s.expiries);
    assert IsStep(cfg, s.refDate, s.expiries.rolloverAt);
  }

  lemma {:induction false} SpacedIsQuiet(cfg: Config, s: State)
    requires FullyListed(cfg) && Spaced(cfg) && InStep(cfg, s) && cfg.startDate <= s.refDate
    ensures OnlyQuiet(cfg, s)
    decreases Remaining(cfg, s)
  {
    var next := AfterStream(cfg, s);
    if next.Restart? {
      RestartFacts(cfg, s);
      RolloverIsSpaced(cfg, s);
      QuietHandovers(cfg, s);
      SpacedIsQuiet(cfg, Adopt(next.before, next.expiries));
    }
  }

  lemma RunKeepsBooks(cfg: Config, s: State)
    requires FullyListed(cfg) && FaithfulFeed(cfg) && Spaced(cfg) && ListingInv(cfg, s)
    ensures StaysExact(cfg, s)
    ensures ExactReports(Run(cfg, s).state) && ExactBook(Run(cfg, s).state)
  {
    SpacedIsQuiet(cfg, s);
    ListedRunIsExactIff(cfg, s);
  }

  lemma StartMissesNothing(cfg: Config, e: Expiries)
    requires ExpiriesAt(cfg.catalogue, cfg.startDate, cfg.timePeriod) == Found(e)
    ensures ListingInv(cfg, Start(cfg, e))
  {
    StartIsExact(cfg, e);
  }
}
