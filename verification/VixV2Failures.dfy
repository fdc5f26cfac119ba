/** Two concrete replays in which a rollover leaves a stale quote on the book of the V2 calculator:
    one with two expiries crossing the target in a day, one with an expiry listed late. */
module VixV2Failures {
  import opened Instants
  import opened MarketData
  import opened History
  import opened ListedExpiries
  import opened ReportClock
  import opened VixV2
  import opened VixV2Books
  import opened VixV2Listings

  /** A replay that delivers one message, to its first stream if that is subscribed to the symbol. */
  ghost predicate DeliversOnce(cfg: Config, m: OptionSummary) {
    && cfg.isPast(cfg.startDate)
    && forall r: Request :: cfg.feed(r) == if r.Replay? && r.from == cfg.startDate && m.symbol in r.symbols then [m] else []
  }

  lemma OnceIsFaithful(cfg: Config, m: OptionSummary)
    requires DeliversOnce(cfg, m) && Genuine(cfg, m)
    ensures FaithfulFeed(cfg)
  {
    forall r: Request, x | x in cfg.feed(r)
      ensures x.symbol in SymbolsOf(r) && Genuine(cfg, x)
    {
      assert x == m;
    }
  }

  // ----- a run of two streams and one quote

  /** The message belongs to the next expiry and meets the rollover. */
  predicate MeetsRollover(cfg: Config, m: OptionSummary, e: Expiries) {
    && m.expirationDate == e.nextExpiry
    && e.rolloverAt <= Tick(m.timestamp) < cfg.startDate + cfg.maxDuration
  }

  lemma OneQuoteSegment(cfg: Config, s: State, m: OptionSummary)
    requires s.midBook == map[] && s.options == map[] && s.history == [] && MeetsRollover(cfg, m, s.expiries)
    ensures var (before, verdict) := Segment(cfg, s, [m]);
      && verdict == RollOver && before.expiries == s.expiries
      && before.midBook == map[m.symbol := m] && before.options == map[] && before.history == [m]
  {
    assert VerdictOn(cfg, s, m) == RollOver;
    ConsumeStores(cfg, s, m);
    assert s.history + [m] == [m];
  }

  lemma OneQuoteStream(cfg: Config, m: OptionSummary, e: Expiries)
    requires DeliversOnce(cfg, m) && m.symbol in SubscribedSymbols(e) && MeetsRollover(cfg, m, e)
    ensures var (before, verdict) := Streamed(cfg, Start(cfg, e));
      && verdict == RollOver && before.expiries == e
      && before.midBook == map[m.symbol := m] && before.options == map[] && before.history == [m]
  {
    assert SymbolsOf(RequestFor(cfg, Start(cfg, e))) == SubscribedSymbols(e);
    OneQuoteSegment(cfg, OpenStream(Start(cfg, e)), m);
  }

  lemma SilentStream(cfg: Config, m: OptionSummary, s: State)
    requires DeliversOnce(cfg, m) && s.refDate != cfg.startDate
    ensures Streamed(cfg, s) == (OpenStream(s), Done)
  {
    assert cfg.feed(RequestFor(cfg, s)) == [];
  }

  lemma SkippedQuoteStays(s: State, m: OptionSummary, e': Expiries)
    requires s.midBook == map[m.symbol := m] && s.options == map[] && s.history == [m]
    requires m.expirationDate == s.expiries.nextExpiry && s.expiries.nearExpiry < s.expiries.nextExpiry
    requires s.expiries.nextExpiry !in OnBookDates(e')
    ensures Adopt(s, e').midBook == map[m.symbol := m] && Within(Latest(s), OnBookDates(e')) == map[]
  {
    var none: seq<OptionSummary> := [];
    LatestExtends(none, m);
    assert none + [m] == [m] && LatestBySymbol(none) == map[];
  }

  lemma StaleQuoteRuns(cfg: Config, m: OptionSummary, e: Expiries, before: State, e': Expiries)
    requires ExpiriesAt(cfg.catalogue, cfg.startDate, cfg.timePeriod) == Found(e)
    requires ExpiriesAt(cfg.catalogue, e.rolloverAt, cfg.timePeriod) == Found(e')
    requires Streamed(cfg, Start(cfg, e)) == (before, RollOver) && before.expiries == e
    requires DeliversOnce(cfg, m)
    ensures var end := Run(cfg, Start(cfg, e)).state;
      end.midBook == Adopt(before, e').midBook && end.history == before.history && end.expiries == e'
  {
    var s' := Adopt(before, e');
    RunWhenRolledOver(cfg, Start(cfg, e), before);
    RolloverIsAhead(cfg, Start(cfg, e));
    SilentStream(cfg, m, s');
    RunWhenDone(cfg, s', OpenStream(s'));
  }

  /** The quote of a next expiry that the rollover skips is still on the book when the run ends. */
  lemma StaleQuoteStays(cfg: Config, m: OptionSummary, e: Expiries, e': Expiries)
    requires ExpiriesAt(cfg.catalogue, cfg.startDate, cfg.timePeriod) == Found(e)
    requires ExpiriesAt(cfg.catalogue, e.rolloverAt, cfg.timePeriod) == Found(e')
    requires DeliversOnce(cfg, m) && m.symbol in SubscribedSymbols(e) && MeetsRollover(cfg, m, e)
    requires e.nextExpiry !in OnBookDates(e')
    ensures LeavesStaleQuote(Run(cfg, Start(cfg, e)).state, m)
  {
    var before := Streamed(cfg, Start(cfg, e)).0;
    OneQuoteStream(cfg, m, e);
    StaleQuoteRuns(cfg, m, e, before, e');
    NearIsBeforeNext(cfg, cfg.startDate);
    SkippedQuoteStays(before, m, e');
  }

  ghost predicate LeavesStaleQuote(end: State, m: OptionSummary) {
    end.midBook == map[m.symbol := m] && Within(Latest(end), OnBookDates(end.expiries)) == map[]
  }

  // ----- looking up the two catalogues

  ghost predicate Gives(cfg: Config, now: int, first: int, near: int, next: int) {
    match ExpiriesAt(cfg.catalogue, now, cfg.timePeriod)
    case Found(e) => e.rolloverAt == first && e.nearExpiry == near && e.nextExpiry == next
    case _ => false
  }

  lemma LookupIs(cfg: Config, now: int, first: int, near: int, next: int)
    requires Active(cfg.catalogue, now, first) && Active(cfg.catalogue, now, near) && Active(cfg.catalogue, now, next)
    requires near <= Target(cfg, now) < next
    requires forall x | Active(cfg.catalogue, now, x) :: first <= x && (x <= near || next <= x)
    ensures Gives(cfg, now, first, near, next)
  {
    LookupCharacterised(cfg.catalogue, now, cfg.timePeriod);
  }

  lemma NextIsSubscribed(cfg: Config, now: int, e: Expiries, o: Instrument)
    requires ExpiriesAt(cfg.catalogue, now, cfg.timePeriod) == Found(e)
    requires o in cfg.catalogue && Available(o, now) && o.expiry == e.nextExpiry
    ensures o.id in SubscribedSymbols(e)
  {
    ContentsOfTarget(cfg.catalogue, now, cfg.timePeriod);
    GroupMembers(cfg.catalogue, now, e.nextExpiry);
  }

  /** Two days of replay from instant 0, with one quote a second before the end of the first day. */
  ghost predicate IsShortReplay(cfg: Config, m: OptionSummary) {
    && cfg.startDate == 0 && cfg.timePeriod == 14 && cfg.maxDuration == 2 * MS_PER_DAY
    && DeliversOnce(cfg, m) && m.timestamp == MS_PER_DAY - MS_PER_SECOND
  }

  /** Two expiries, after 14.5 and 15 days, cross the fourteen-day target during the first day. */
  const CROWDED: seq<Instrument> :=
    [Instrument("A", 0, MS_PER_DAY), Instrument("B", 0, 10 * MS_PER_DAY), Instrument("C", 0, 14 * MS_PER_DAY + 12 * MS_PER_HOUR),
     Instrument("D", 0, 15 * MS_PER_DAY), Instrument("E", 0, 20 * MS_PER_DAY)]

  ghost predicate IsCrowdedReplay(cfg: Config, m: OptionSummary) {
    IsShortReplay(cfg, m) && cfg.catalogue == CROWDED && m.symbol == "C" && m.expirationDate == 14 * MS_PER_DAY + 12 * MS_PER_HOUR
  }

  /** The expiry after 20 days is listed only at the end of the first day, in front of the one after 30. */
  const LATE: seq<Instrument> :=
    [Instrument("A", 0, MS_PER_DAY), Instrument("B", 0, 10 * MS_PER_DAY), Instrument("C", 0, 30 * MS_PER_DAY),
     Instrument("D", MS_PER_DAY, 20 * MS_PER_DAY)]

  ghost predicate IsLateReplay(cfg: Config, m: OptionSummary) {
    IsShortReplay(cfg, m) && cfg.catalogue == LATE && m.symbol == "C" && m.expirationDate == 30 * MS_PER_DAY
  }

  function CrowdedDates(): set<int> {
    {MS_PER_DAY, 10 * MS_PER_DAY, 14 * MS_PER_DAY + 12 * MS_PER_HOUR, 15 * MS_PER_DAY, 20 * MS_PER_DAY}
  }

  lemma CrowdedLookups(cfg: Config, now: int)
    requires FullyListed(cfg) && ListedDates(cfg) == CrowdedDates() && cfg.startDate <= now && cfg.timePeriod == 14
    ensures now == 0 ==> Gives(cfg, now, MS_PER_DAY, 10 * MS_PER_DAY, 14 * MS_PER_DAY + 12 * MS_PER_HOUR)
    ensures now == MS_PER_DAY ==> Gives(cfg, now, 10 * MS_PER_DAY, 15 * MS_PER_DAY, 20 * MS_PER_DAY)
  {
    ActiveMeansListed(cfg, now);
    if now == 0 {
      LookupIs(cfg, now, MS_PER_DAY, 10 * MS_PER_DAY, 14 * MS_PER_DAY + 12 * MS_PER_HOUR);
    } else if now == MS_PER_DAY {
      LookupIs(cfg, now, 10 * MS_PER_DAY, 15 * MS_PER_DAY, 20 * MS_PER_DAY);
    }
  }

  lemma LateActive(cfg: Config, now: int, x: int)
    requires cfg.catalogue == LATE
    ensures now == 0 ==> (Active(cfg.catalogue, now, x) <==> x in {MS_PER_DAY, 10 * MS_PER_DAY, 30 * MS_PER_DAY})
    ensures now == MS_PER_DAY ==> (Active(cfg.catalogue, now, x) <==> x in {10 * MS_PER_DAY, 20 * MS_PER_DAY, 30 * MS_PER_DAY})
  {
    GroupMembers(cfg.catalogue, now, x);
    assert LATE[0] in cfg.catalogue && LATE[1] in cfg.catalogue && LATE[2] in cfg.catalogue && LATE[3] in cfg.catalogue;
  }

  lemma LateLookups(cfg: Config, now: int)
    requires cfg.catalogue == LATE && cfg.timePeriod == 14
    ensures now == 0 ==> Gives(cfg, now, MS_PER_DAY, 10 * MS_PER_DAY, 30 * MS_PER_DAY)
    ensures now == MS_PER_DAY ==> Gives(cfg, now, 10 * MS_PER_DAY, 10 * MS_PER_DAY, 20 * MS_PER_DAY)
  {
    forall x
      ensures now == 0 ==> (Active(cfg.catalogue, now, x) <==> x in {MS_PER_DAY, 10 * MS_PER_DAY, 30 * MS_PER_DAY})
      ensures now == MS_PER_DAY ==> (Active(cfg.catalogue, now, x) <==> x in {10 * MS_PER_DAY, 20 * MS_PER_DAY, 30 * MS_PER_DAY})
    {
      LateActive(cfg, now, x);
    }
    if now == 0 {
      LookupIs(cfg, now, MS_PER_DAY, 10 * MS_PER_DAY, 30 * MS_PER_DAY);
    } else if now == MS_PER_DAY {
      LookupIs(cfg, now, 10 * MS_PER_DAY, 10 * MS_PER_DAY, 20 * MS_PER_DAY);
    }
  }

  lemma ShortReplayTick()
    ensures Tick(MS_PER_DAY - MS_PER_SECOND) == MS_PER_DAY
  {
  }

  lemma CrowdedIsListed(cfg: Config, m: OptionSummary)
    requires cfg.catalogue == CROWDED && cfg.startDate == 0
    requires m.symbol == "C" && m.expirationDate == 14 * MS_PER_DAY + 12 * MS_PER_HOUR
    ensures FullyListed(cfg) && Genuine(cfg, m) && ListedDates(cfg) == CrowdedDates()
  {
    var c := cfg.catalogue;
    assert CROWDED[0] in c && CROWDED[1] in c && CROWDED[2] in c && CROWDED[3] in c && CROWDED[4] in c;
    assert forall o :: o in c <==> o in CROWDED;
    forall x
      ensures Listed(cfg, x) <==> x in CrowdedDates()
    {
    }
  }

  lemma LateIsSpaced(cfg: Config, m: OptionSummary)
    requires cfg.catalogue == LATE && cfg.startDate == 0 && cfg.timePeriod == 14 && cfg.maxDuration == 2 * MS_PER_DAY
    requires m.symbol == "C" && m.expirationDate == 30 * MS_PER_DAY
    ensures Spaced(cfg) && Genuine(cfg, m)
  {
    assert LATE[0] in cfg.catalogue && LATE[2] in cfg.catalogue;
    forall x
      ensures Listed(cfg, x) <==> x in {MS_PER_DAY, 10 * MS_PER_DAY, 20 * MS_PER_DAY, 30 * MS_PER_DAY}
    {
    }
  }

  // ----- the two failures

  /** The run of a short replay whose quote is of an instrument that the first rollover skips. */
  lemma ShortReplayFails(cfg: Config, m: OptionSummary, o: Instrument)
    requires IsShortReplay(cfg, m)
    requires o in cfg.catalogue && Available(o, cfg.startDate) && o.id == m.symbol && o.expiry == m.expirationDate
    requires SkipsNext(cfg, m.expirationDate)
    ensures FailsAtRollover(cfg, m)
  {
    var e := ExpiriesAt(cfg.catalogue, cfg.startDate, cfg.timePeriod).expiries;
    var e' := ExpiriesAt(cfg.catalogue, MS_PER_DAY, cfg.timePeriod).expiries;
    NextIsSubscribed(cfg, cfg.startDate, e, o);
    ShortReplayTick();
    StaleQuoteStays(cfg, m, e, e');
  }

  /** The expiry is next at first; after the rollover at the end of the day it is neither near nor next. */
  ghost predicate SkipsNext(cfg: Config, expiry: int) {
    match (ExpiriesAt(cfg.catalogue, cfg.startDate, cfg.timePeriod), ExpiriesAt(cfg.catalogue, MS_PER_DAY, cfg.timePeriod))
    case (Found(e), Found(e')) => e.rolloverAt == MS_PER_DAY && e.nextExpiry == expiry && expiry !in OnBookDates(e')
    case _ => false
  }

  lemma GivesSkip(cfg: Config, near: int, next: int, first': int, near': int, next': int)
    requires Gives(cfg, cfg.startDate, MS_PER_DAY, near, next) && Gives(cfg, MS_PER_DAY, first', near', next')
    requires next != near' && next != next'
    ensures SkipsNext(cfg, next)
  {
  }

  ghost predicate FailsAtRollover(cfg: Config, m: OptionSummary) {
    exists e :: ExpiriesAt(cfg.catalogue, cfg.startDate, cfg.timePeriod) == Found(e)
                && LeavesStaleQuote(Run(cfg, Start(cfg, e)).state, m)
  }

  /** All instruments listed from the start and a faithful feed: yet the book of the run, which
      should be empty, ends with a quote of an expiry that is neither near nor next. */
  lemma CrowdedRunLeavesStaleQuote(cfg: Config, m: OptionSummary)
    requires IsCrowdedReplay(cfg, m)
    ensures FullyListed(cfg) && FaithfulFeed(cfg)
    ensures FailsAtRollover(cfg, m)
  {
    CrowdedIsListed(cfg, m);
    OnceIsFaithful(cfg, m);
    CrowdedLookups(cfg, cfg.startDate);
    CrowdedLookups(cfg, MS_PER_DAY);
    GivesSkip(cfg, 10 * MS_PER_DAY, m.expirationDate, 10 * MS_PER_DAY, 15 * MS_PER_DAY, 20 * MS_PER_DAY);
    assert CROWDED[2] in cfg.catalogue;
    ShortReplayFails(cfg, m, CROWDED[2]);
  }

  /** One instrument listed during the run is enough, although at most one expiry crosses at each
      rollover: it takes the place of the next expiry while near stays. */
  lemma LateListingLeavesStaleQuote(cfg: Config, m: OptionSummary)
    requires IsLateReplay(cfg, m)
    ensures Spaced(cfg) && FaithfulFeed(cfg)
    ensures FailsAtRollover(cfg, m)
  {
    LateIsSpaced(cfg, m);
    OnceIsFaithful(cfg, m);
    LateLookups(cfg, cfg.startDate);
    LateLookups(cfg, MS_PER_DAY);
    GivesSkip(cfg, 10 * MS_PER_DAY, m.expirationDate, 10 * MS_PER_DAY, 10 * MS_PER_DAY, 20 * MS_PER_DAY);
    assert LATE[2] in cfg.catalogue;
    ShortReplayFails(cfg, m, LATE[2]);
  }

  /** Both replays exist, with any clock for which instant 0 is past and any index library. */
  lemma ShortReplaysExist(isPast: int -> bool, compute: ComputeParams -> Option<Estimate>, m: OptionSummary)
    requires isPast(0) && m.symbol == "C" && m.timestamp == MS_PER_DAY - MS_PER_SECOND
    ensures m.expirationDate == 14 * MS_PER_DAY + 12 * MS_PER_HOUR ==> exists cfg :: IsCrowdedReplay(cfg, m)
    ensures m.expirationDate == 30 * MS_PER_DAY ==> exists cfg :: IsLateReplay(cfg, m)
  {
    var feed := (r: Request) => if r.Replay? && r.from == 0 && m.symbol in r.symbols then [m] else [];
    var crowded := Config(CROWDED, 14, 0, 2 * MS_PER_DAY, MS_PER_MINUTE, isPast, feed, compute);
    assert m.expirationDate == 14 * MS_PER_DAY + 12 * MS_PER_HOUR ==> IsCrowdedReplay(crowded, m);
    var late := crowded.(catalogue := LATE);
    assert m.expirationDate == 30 * MS_PER_DAY ==> IsLateReplay(late, m);
  }
}
