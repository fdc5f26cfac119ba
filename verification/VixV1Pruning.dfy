/** V1 never removes the entries of expired options from its book.  A run that does so at every
    rollover computes and publishes the same: whatever is recorded rests on current entries. */
module VixV1Pruning {
  import opened Instants
  import opened OptionNames
  import opened VixStrips
  import opened VixBooks
  import opened CivilDates
  import opened ReportClock
  import opened VixV1
  import opened VixV1Runs

  // ----- selecting the current entries

  function Kept(e: Entry, near: Date, next: Date): seq<Entry> {
    if e.symbol.expiry == near || e.symbol.expiry == next then [e] else []
  }

  lemma {:induction false} CurrentPrepends(e: Entry, book: seq<Entry>, near: Date, next: Date)
    ensures Current([e] + book, near, next) == Kept(e, near, next) + Current(book, near, next)
  {
    if book == [] {
      assert ([e] + book)[..0] == [];
      assert [e] + book == [e];
    } else {
      var front := book[..|book| - 1];
      CurrentPrepends(e, front, near, next);
      assert ([e] + book)[..|book|] == [e] + front;
    }
  }

  /** Setting the mid of a current symbol commutes with dropping the others, order included. */
  lemma {:induction false} CurrentOfSet(book: seq<Entry>, near: Date, next: Date, symbol: Symbol, mid: real)
    requires symbol.expiry == near || symbol.expiry == next
    ensures Current(SetEntry(book, symbol, mid), near, next) == SetEntry(Current(book, near, next), symbol, mid)
  {
    var set' := Entry(symbol, mid);
    if book == [] {
      CurrentPrepends(set', [], near, next);
      assert [set'] + [] == [set'];
    } else {
      var first, rest := book[0], book[1..];
      assert book == [first] + rest;
      CurrentPrepends(first, rest, near, next);
      if first.symbol == symbol {
        assert ([first] + Current(rest, near, next))[1..] == Current(rest, near, next);
        CurrentPrepends(set', rest, near, next);
      } else {
        var c := Current(rest, near, next);
        assert ([first] + c)[1..] == c && [] + c == c;
        CurrentPrepends(first, SetEntry(rest, symbol, mid), near, next);
        CurrentOfSet(rest, near, next, symbol, mid);
      }
    }
  }

  /** Dropping twice is dropping once, when the old next becomes near and the new next is not yet held. */
  lemma {:induction false} CurrentOfCurrent(book: seq<Entry>, near: Date, next: Date, later: Date)
    requires forall e | e in book :: e.symbol.expiry != later
    ensures Current(Current(book, near, next), next, later) == Current(book, next, later)
  {
    if book != [] {
      var front, last := book[..|book| - 1], book[|book| - 1];
      var kept := Current(front, near, next);
      assert forall e | e in front :: e in book;
      CurrentOfCurrent(front, near, next, later);
      assert last in book;
      assert (kept + [last])[..|kept|] == kept;
      assert kept + [] == kept;
    }
  }

  // ----- the book never holds entries beyond the next expiry

  ghost predicate NothingLater(book: seq<Entry>, next: Date) {
    forall e | e in book :: DayIndex(e.symbol.expiry) <= DayIndex(next)
  }

  ghost predicate PruningInv(cfg: Config, s: State) {
    RunInv(cfg, s) && s.dates.near < s.dates.next && NothingLater(s.midBook, DateAt(s.dates.next))
  }

  lemma ListedIsCurrent(cfg: Config, s: State, symbol: Symbol)
    requires GoodState(cfg, s) && s.dates.near < s.dates.next
    requires symbol in s.nearList + s.nextList
    ensures symbol.expiry == DateAt(s.dates.near) || symbol.expiry == DateAt(s.dates.next)
    ensures DayIndex(symbol.expiry) <= DayIndex(DateAt(s.dates.next))
  {
    ListMembers(cfg.catalogue, s.dates.near);
    ListMembers(cfg.catalogue, s.dates.next);
    LaterDayIsLarger(s.dates.near, s.dates.next);
  }

  lemma LaterDayIsLarger(t: int, u: int)
    requires t <= u && 0 <= t / MS_PER_DAY + EPOCH_DAY
    ensures DayIndex(DateAt(t)) <= DayIndex(DateAt(u))
    ensures t + MS_PER_DAY <= u ==> DayIndex(DateAt(t)) < DayIndex(DateAt(u))
  {
    assert t / MS_PER_DAY <= u / MS_PER_DAY;
  }

  lemma BookStaysWithin(book: seq<Entry>, q: Quote, next: Date)
    requires DistinctSymbols(book) && NothingLater(book, next) && DayIndex(q.symbol.expiry) <= DayIndex(next)
    ensures NothingLater(MidBookAfter(book, q), next)
  {
    if MidOf(q).Some? {
      SetEntryIsUpdate(book, q.symbol, MidOf(q).value);
    }
  }

  // ----- a message, a stream

  /** The pruned book is updated as the full one is. */
  lemma BookIsPruned(cfg: Config, s: State, q: Quote)
    requires GoodState(cfg, s) && s.dates.near < s.dates.next && q.symbol in s.nearList + s.nextList
    ensures Store(Refreshed(s), q) == Refreshed(Store(s, q))
  {
    ListedIsCurrent(cfg, s, q.symbol);
    if MidOf(q).Some? {
      CurrentOfSet(s.midBook, DateAt(s.dates.near), DateAt(s.dates.next), q.symbol, MidOf(q).value);
    }
  }

  lemma RecalculateIsPruned(cfg: Config, s: State)
    requires GoodState(cfg, s) && s.dates.near < s.dates.next
    ensures Recalculate(cfg, Refreshed(s)) == Refreshed(Recalculate(cfg, s))
  {
    ExpiredEntriesAreIgnored(cfg, s);
  }

  lemma ConsumeIsPruned(cfg: Config, s: State, q: Quote)
    requires PruningInv(cfg, s) && q.symbol in s.nearList + s.nextList && NonNegativePrices(q)
    ensures Consume(cfg, Refreshed(s), q) == Refreshed(Consume(cfg, s, q))
    ensures PruningInv(cfg, Consume(cfg, s, q))
  {
    var stored := Store(s, q);
    BookIsPruned(cfg, s, q);
    StoredIsGood(cfg, s, q);
    RecalculateIsPruned(cfg, stored);
    PublishIsPruned(cfg, Recalculate(cfg, stored), q);
    ConsumeKeeps(cfg, s, q);
    ListedIsCurrent(cfg, s, q.symbol);
    BookStaysWithin(s.midBook, q, DateAt(s.dates.next));
    ConsumeFrame(cfg, s, q);
  }

  lemma PublishIsPruned(cfg: Config, s: State, q: Quote)
    ensures Publish(cfg, Refreshed(s), q) == Refreshed(Publish(cfg, s, q))
  {
  }

  lemma {:induction false} SegmentIsPruned(cfg: Config, s: State, quotes: seq<Quote>)
    requires PruningInv(cfg, s)
    requires forall q | q in quotes :: q.symbol in s.nearList + s.nextList && NonNegativePrices(q)
    ensures var (s', verdict) := Segment(cfg, s, quotes);
      Segment(cfg, Refreshed(s), quotes) == (Refreshed(s'), verdict) && PruningInv(cfg, s')
    decreases |quotes|
  {
    if quotes != [] {
      ConsumeIsPruned(cfg, s, quotes[0]);
      ConsumeFrame(cfg, s, quotes[0]);
      if VerdictOn(cfg, s, quotes[0]) == Continue {
        SegmentIsPruned(cfg, Consume(cfg, s, quotes[0]), quotes[1..]);
      }
    }
  }

  lemma RefreshedAsks(cfg: Config, s: State)
    ensures RequestFor(cfg, Refreshed(s)) == RequestFor(cfg, s)
  {
  }

  lemma RefreshedOpens(s: State)
    ensures OpenStream(Refreshed(s)) == Refreshed(OpenStream(s))
  {
    OpensWith(s, Refreshed(s).midBook);
    RefreshesWith(s, s.refDate - MS_PER_MINUTE);
  }

  lemma OpensWith(s: State, book: seq<Entry>)
    ensures OpenStream(s.(midBook := book)) == s.(midBook := book, lastReport := s.refDate - MS_PER_MINUTE)
  {
  }

  lemma RefreshesWith(s: State, clock: int)
    ensures Refreshed(s.(lastReport := clock)) == s.(midBook := Refreshed(s).midBook, lastReport := clock)
  {
  }

  lemma StreamIsPruned(cfg: Config, s: State)
    requires GoodFeed(cfg) && PruningInv(cfg, s)
    ensures var (s', verdict) := Streamed(cfg, s);
      Streamed(cfg, Refreshed(s)) == (Refreshed(s'), verdict) && PruningInv(cfg, s')
  {
    FeedIsListed(cfg, s);
    RefreshedAsks(cfg, s);
    RefreshedOpens(s);
    OpeningIsPruned(cfg, s);
    SegmentIsPruned(cfg, OpenStream(s), cfg.feed(RequestFor(cfg, s)));
  }

  lemma OpeningIsPruned(cfg: Config, s: State)
    requires PruningInv(cfg, s)
    ensures PruningInv(cfg, OpenStream(s))
  {
  }

  // ----- whole runs

  /** `summaryStream` if it dropped the entries of expired options at every rollover. */
  function PrunedRun(cfg: Config, s: State): State
    requires InStep(cfg, s)
    decreases Remaining(cfg, s)
  {
    InStepIsOrdered(cfg, s);
    var (s1, verdict) := Streamed(cfg, s);
    SegmentKeeps(cfg, OpenStream(s), cfg.feed(RequestFor(cfg, s)));
    if verdict == Done then s1.(completions := s1.completions + 1)
    else PrunedRun(cfg, Refreshed(SetUp(cfg, s1, s1.dates.rollover)))
  }

  lemma RolloverIsPruned(cfg: Config, s: State)
    requires InStep(cfg, s) && PruningInv(cfg, s)
    ensures var s' := SetUp(cfg, s, s.dates.rollover);
      && Refreshed(SetUp(cfg, Refreshed(s), s.dates.rollover)) == Refreshed(s')
      && NothingLater(s'.midBook, DateAt(s'.dates.next))
  {
    var s' := SetUp(cfg, s, s.dates.rollover);
    RolloverMovesOneWeek(cfg, s);
    LaterDayIsLarger(s.dates.next, s'.dates.next);
    CurrentOfCurrent(s.midBook, DateAt(s.dates.near), DateAt(s.dates.next), DateAt(s'.dates.next));
  }

  lemma RestartIsPruned(cfg: Config, s: State)
    requires GoodFeed(cfg) && GoodPeriod(cfg) && PruningInv(cfg, s) && cfg.startDate <= s.refDate
    requires Streamed(cfg, s).1 != Done
    ensures var s1, s2 := Streamed(cfg, s).0, SetUp(cfg, Streamed(cfg, s).0, s.dates.rollover);
      && s1.dates == s.dates
      && PruningInv(cfg, s2) && cfg.startDate <= s2.refDate && Remaining(cfg, s2) < Remaining(cfg, s) && 0 < Remaining(cfg, s)
      && Refreshed(SetUp(cfg, Refreshed(s1), s.dates.rollover)) == Refreshed(s2)
  {
    StreamIsPruned(cfg, s);
    SegmentKeeps(cfg, OpenStream(s), cfg.feed(RequestFor(cfg, s)));
    StreamRestarts(cfg, s);
    RolloverIsPruned(cfg, Streamed(cfg, s).0);
    InStepIsOrdered(cfg, SetUp(cfg, Streamed(cfg, s).0, s.dates.rollover));
  }

  /** Started from the current entries, it ends in the same state, up to the expired entries: with
      the same computations, the same publications and the same index. */
  lemma {:induction false} PrunedRunIsSame(cfg: Config, s: State)
    requires GoodFeed(cfg) && GoodPeriod(cfg) && PruningInv(cfg, s) && cfg.startDate <= s.refDate
    ensures PrunedRun(cfg, Refreshed(s)) == Refreshed(Run(cfg, s))
    decreases Remaining(cfg, s)
  {
    StreamIsPruned(cfg, s);
    SegmentKeeps(cfg, OpenStream(s), cfg.feed(RequestFor(cfg, s)));
    var (s1, verdict) := Streamed(cfg, s);
    if verdict != Done {
      RestartIsPruned(cfg, s);
      PrunedRunIsSame(cfg, SetUp(cfg, s1, s.dates.rollover));
    }
  }

  /** From the start, where the book is empty. */
  lemma WholeRunIsSame(cfg: Config)
    requires GoodCatalogue(cfg) && GoodFeed(cfg) && GoodPeriod(cfg)
    ensures var pruned, full := PrunedRun(cfg, Start(cfg)), Run(cfg, Start(cfg));
      && pruned.attempts == full.attempts && pruned.published == full.published && pruned.reports == full.reports
      && pruned.variance == full.variance && pruned.completions == full.completions == 1
  {
    StartIsPruned(cfg);
    StartIsRefreshed(cfg);
    PrunedRunIsSame(cfg, Start(cfg));
    WholeRun(cfg);
  }

  lemma StartIsPruned(cfg: Config)
    requires GoodCatalogue(cfg) && GoodPeriod(cfg)
    ensures PruningInv(cfg, Start(cfg)) && Start(cfg).refDate == cfg.startDate
  {
    StartIsGood(cfg);
    InStepIsOrdered(cfg, Start(cfg));
  }

  lemma StartIsRefreshed(cfg: Config)
    ensures Refreshed(Start(cfg)) == Start(cfg)
  {
    var s := Start(cfg);
    assert s.midBook == [];
    assert Refreshed(s).midBook == s.midBook;
  }
}
