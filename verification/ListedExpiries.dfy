/** `buildExpiries` of `src/lib/utils/expiries.ts`: the near, next and future expiries that a
    catalogue of listed instruments offers at an instant.  Its ISO-8601 strings are the instants
    they denote here; `IsoTime.IsoOrderIsTimeOrder` shows that comparing and sorting the strings
    is comparing and sorting the instants. */
module ListedExpiries {
  import opened Instants
  import opened WeeklyExpiries

  datatype Instrument = Instrument(id: string, listing: int, expiry: int)

  datatype Expiries = Expiries(
    expiryList: seq<int>,
    expiryMap: map<int, seq<string>>,
    nearExpiry: int,
    nextExpiry: int,
    nearSymbols: seq<string>,
    nextSymbols: seq<string>,
    rolloverAt: int)

  /** The two errors `buildExpiries` throws, or its result. */
  datatype Lookup = Found(expiries: Expiries) | NoNearSymbols | NoNextSymbols

  predicate Available(o: Instrument, now: int) {
    o.listing <= now < o.expiry
  }

  predicate Ascending(s: seq<int>) {
    forall i, j | 0 <= i < j < |s| :: s[i] < s[j]
  }

  /** Adds `x` to an ascending sequence, once. */
  function Insert(s: seq<int>, x: int): (r: seq<int>)
    requires Ascending(s)
    ensures Ascending(r)
    ensures forall y :: y in r <==> y in s || y == x
  {
    if s == [] then [x]
    else if x == s[0] then s
    else if x < s[0] then [x] + s
    else
      var rest := Insert(s[1..], x);
      assert forall y :: y in s <==> y == s[0] || y in s[1..];
      assert forall i | 0 <= i < |rest| :: rest[i] in rest && s[0] < rest[i];
      [s[0]] + rest
  }

  /** `Array.sort()` on distinct values. */
  function SortAscending(s: seq<int>): (r: seq<int>)
    ensures Ascending(r)
    ensures forall y :: y in r <==> y in s
  {
    if s == [] then [] else
      assert forall y :: y in s <==> y in s[..|s| - 1] || y == s[|s| - 1];
      Insert(SortAscending(s[..|s| - 1]), s[|s| - 1])
  }

  lemma {:induction false} AscendingIsUnique(s: seq<int>, t: seq<int>)
    requires Ascending(s) && Ascending(t)
    requires forall y :: y in s <==> y in t
    ensures s == t
  {
    if s == [] || t == [] {
      assert forall u: seq<int> {:trigger |u|} :: u != [] ==> u[0] in u;
    } else {
      assert s[0] in t && t[0] in s;
      assert s[0] == t[0];
      assert forall y :: y in s[1..] <==> y in s && y != s[0];
      assert forall y :: y in t[1..] <==> y in t && y != t[0];
      AscendingIsUnique(s[1..], t[1..]);
    }
  }

  /** The instruments of one expiry that are available, in catalogue order. */
  function Group(catalogue: seq<Instrument>, now: int, expiry: int): seq<Instrument> {
    if catalogue == [] then [] else
      var front, o := catalogue[..|catalogue| - 1], catalogue[|catalogue| - 1];
      Group(front, now, expiry) + if Available(o, now) && o.expiry == expiry then [o] else []
  }

  function Ids(group: seq<Instrument>): seq<string> {
    seq(|group|, i requires 0 <= i < |group| => group[i].id)
  }

  function ActiveExpiries(catalogue: seq<Instrument>, now: int): (active: seq<int>)
    ensures Ascending(active)
    ensures forall e | e in active :: now < e
  {
    if catalogue == [] then [] else
      var front, o := catalogue[..|catalogue| - 1], catalogue[|catalogue| - 1];
      var rest := ActiveExpiries(front, now);
      if Available(o, now) then Insert(rest, o.expiry) else rest
  }

  /** An expiry is active at `now` when some listed instrument with that expiry is available. */
  predicate Active(catalogue: seq<Instrument>, now: int, expiry: int) {
    expiry in ActiveExpiries(catalogue, now)
  }

  /** How many leading elements are at most `target`. */
  function CountUpTo(s: seq<int>, target: int): (n: nat)
    requires Ascending(s)
    ensures n <= |s|
    ensures forall i | 0 <= i < |s| :: s[i] <= target <==> i < n
  {
    if s == [] || s[0] > target then 0 else 1 + CountUpTo(s[1..], target)
  }

  function IdsByExpiry(catalogue: seq<Instrument>, now: int, expiries: seq<int>): (m: map<int, seq<string>>)
    ensures forall e :: e in m <==> e in expiries
    ensures forall e | e in m :: m[e] == Ids(Group(catalogue, now, e))
  {
    map e | e in expiries :: Ids(Group(catalogue, now, e))
  }

  /** The result of `buildExpiries`, in terms of the sorted list of active expiries. */
  function ExpiriesAt(catalogue: seq<Instrument>, now: int, timePeriod: int): Lookup {
    var active := ActiveExpiries(catalogue, now);
    var n := CountUpTo(active, now + timePeriod * MS_PER_DAY);
    if n == 0 then NoNearSymbols
    else if n == |active| then NoNextSymbols
    else Found(Around(catalogue, now, active, n))
  }

  /** The expiries when the first `n` of the active ones are up to the target. */
  function Around(catalogue: seq<Instrument>, now: int, active: seq<int>, n: nat): Expiries
    requires 0 < n < |active|
  {
    Expiries(active[n + 1..], IdsByExpiry(catalogue, now, active[n..]), active[n - 1], active[n],
             Ids(Group(catalogue, now, active[n - 1])), Ids(Group(catalogue, now, active[n])), active[0])
  }

  /** `buildExpiries` as the source runs it: group, sort, one pass for near and next, prune, map. */
  method BuildExpiries(catalogue: seq<Instrument>, now: int, timePeriod: int) returns (r: Lookup)
    ensures r == ExpiriesAt(catalogue, now, timePeriod)
  {
    var expiryMap, keys := GroupByExpiry(catalogue, now);
    var activeExpiries := SortAscending(keys);
    assert activeExpiries == ActiveExpiries(catalogue, now);
    ghost var n := CountUpTo(activeExpiries, now + timePeriod * MS_PER_DAY);
    var target := now + timePeriod * MS_PER_DAY;
    var nearIdx, nextIdx := SelectNearAndNext(activeExpiries, target);
    r := Resolve(catalogue, now, n, expiryMap, keys, activeExpiries, nearIdx, nextIdx);
  }

  /** The two errors, or the result for the chosen indices. */
  method Resolve(
    ghost catalogue: seq<Instrument>, ghost now: int, ghost n: nat, expiryMap: map<int, seq<Instrument>>, keys: seq<int>,
    activeExpiries: seq<int>, nearIdx: int, nextIdx: int)
    returns (r: Lookup)
    requires activeExpiries == ActiveExpiries(catalogue, now) && n <= |activeExpiries|
    requires nearIdx == n - 1 && nextIdx == if n < |activeExpiries| then n else -1
    requires AreGroups(catalogue, now, expiryMap) && AreKeys(keys, expiryMap)
    ensures r == if n == 0 then NoNearSymbols
                 else if n == |activeExpiries| then NoNextSymbols
                 else Found(Around(catalogue, now, activeExpiries, n))
  {
    if nearIdx == -1 {
      return NoNearSymbols;
    } else if nextIdx == -1 {
      return NoNextSymbols;
    }
    var expiries := Collect(catalogue, now, expiryMap, keys, activeExpiries, nearIdx, nextIdx);
    r := Found(expiries);
  }

  /** Symbols, rollover, pruning and the list of what follows. */
  method Collect(
    ghost catalogue: seq<Instrument>, ghost now: int, expiryMap: map<int, seq<Instrument>>, keys: seq<int>,
    activeExpiries: seq<int>, nearIdx: int, nextIdx: int)
    returns (e: Expiries)
    requires activeExpiries == ActiveExpiries(catalogue, now) && 0 <= nearIdx == nextIdx - 1 < |activeExpiries| - 1
    requires AreGroups(catalogue, now, expiryMap) && AreKeys(keys, expiryMap)
    ensures e == Around(catalogue, now, activeExpiries, nextIdx)
  {
    var nearExpiry, nextExpiry := activeExpiries[nearIdx], activeExpiries[nextIdx];
    var nearSymbols, nextSymbols := SymbolsFor(expiryMap, nearExpiry), SymbolsFor(expiryMap, nextExpiry);
    var rolloverAt := activeExpiries[0];
    var expiryList := activeExpiries[nextIdx + 1..];
    var futureOptions := PruneAndMap(expiryMap, keys, activeExpiries[..nextIdx]);
    SymbolsAreIds(catalogue, now, expiryMap, nearExpiry);
    SymbolsAreIds(catalogue, now, expiryMap, nextExpiry);
    FutureOptionsOf(catalogue, now, activeExpiries, nextIdx, expiryMap, futureOptions);
    e := Expiries(expiryList, futureOptions, nearExpiry, nextExpiry, nearSymbols, nextSymbols, rolloverAt);
  }

  /** What grouping leaves: the available instruments of every active expiry. */
  ghost predicate AreGroups(catalogue: seq<Instrument>, now: int, groups: map<int, seq<Instrument>>) {
    && (forall e :: e in groups <==> Active(catalogue, now, e))
    && (forall e | e in groups :: groups[e] == Group(catalogue, now, e))
  }

  ghost predicate AreKeys(keys: seq<int>, groups: map<int, seq<Instrument>>) {
    forall k :: k in keys <==> k in groups
  }

  lemma SymbolsAreIds(catalogue: seq<Instrument>, now: int, groups: map<int, seq<Instrument>>, expiry: int)
    requires AreGroups(catalogue, now, groups)
    ensures SymbolsFor(groups, expiry) == Ids(Group(catalogue, now, expiry))
  {
    GroupIsEmpty(catalogue, now, expiry);
  }

  /** The ids of an expiry's instruments; none for an expiry without a group. */
  function SymbolsFor(groups: map<int, seq<Instrument>>, expiry: int): seq<string> {
    if expiry in groups then Ids(groups[expiry]) else []
  }

  ghost predicate IsPruned(groups: map<int, seq<Instrument>>, pruneList: seq<int>, futureOptions: map<int, seq<string>>) {
    && (forall e :: e in futureOptions <==> e in groups && e !in pruneList)
    && (forall e | e in futureOptions :: futureOptions[e] == Ids(groups[e]))
  }

  lemma FutureOptionsOf(
    catalogue: seq<Instrument>, now: int, active: seq<int>, n: nat, groups: map<int, seq<Instrument>>, futureOptions: map<int, seq<string>>)
    requires active == ActiveExpiries(catalogue, now) && n <= |active|
    requires AreGroups(catalogue, now, groups) && IsPruned(groups, active[..n], futureOptions)
    ensures futureOptions == IdsByExpiry(catalogue, now, active[n..])
  {
    RemainingKeys(active, n);
    var wanted := IdsByExpiry(catalogue, now, active[n..]);
    forall e: int
      ensures e in futureOptions <==> e in wanted
    {
      assert e in groups <==> e in active;
    }
    SameMap(futureOptions, wanted);
  }

  lemma SameMap(a: map<int, seq<string>>, b: map<int, seq<string>>)
    requires forall e :: e in a <==> e in b
    requires forall e | e in a :: a[e] == b[e]
    ensures a == b
  {
    forall e: int
      ensures e in a.Keys <==> e in b.Keys
    {
    }
    assert a.Keys == b.Keys;
    assert forall e | e in a.Keys :: a[e] == b[e];
  }

  lemma RemainingKeys(s: seq<int>, k: nat)
    requires Ascending(s) && k <= |s|
    ensures forall e :: e in s[k..] <==> e in s && e !in s[..k]
  {
    assert s == s[..k] + s[k..];
  }

  /** Deletes the pruned expiries in place, then keeps the ids of what is left; `keys` is the
      map's iteration order. */
  method PruneAndMap(groups: map<int, seq<Instrument>>, keys: seq<int>, pruneList: seq<int>)
    returns (futureOptions: map<int, seq<string>>)
    requires AreKeys(keys, groups)
    ensures IsPruned(groups, pruneList, futureOptions)
  {
    var expiryMap := groups;
    for i := 0 to |pruneList|
      invariant forall e :: e in expiryMap <==> e in groups && e !in pruneList[..i]
      invariant forall e | e in expiryMap :: expiryMap[e] == groups[e]
    {
      expiryMap := expiryMap - {pruneList[i]};
    }
    futureOptions := map[];
    for i := 0 to |keys|
      invariant forall e :: e in futureOptions <==> e in expiryMap && e in keys[..i]
      invariant forall e | e in futureOptions :: futureOptions[e] == Ids(expiryMap[e])
    {
      if keys[i] in expiryMap {
        futureOptions := futureOptions[keys[i] := Ids(expiryMap[keys[i]])];
      }
    }
  }

  /** Groups the available instruments by expiry, with the keys in insertion order. */
  method GroupByExpiry(catalogue: seq<Instrument>, now: int) returns (groups: map<int, seq<Instrument>>, keys: seq<int>)
    ensures AreGroups(catalogue, now, groups)
    ensures AreKeys(keys, groups)
    ensures SortAscending(keys) == ActiveExpiries(catalogue, now)
  {
    groups, keys := map[], [];
    for i := 0 to |catalogue|
      invariant forall e :: e in groups <==> Active(catalogue[..i], now, e)
      invariant forall e | e in groups :: groups[e] == Group(catalogue[..i], now, e)
      invariant forall e :: e in keys <==> e in groups
    {
      var o := catalogue[i];
      assert catalogue[..i + 1][..i] == catalogue[..i];
      if Available(o, now) {
        if o.expiry !in groups {
          GroupIsEmpty(catalogue[..i], now, o.expiry);
          keys := keys + [o.expiry];
          groups := groups[o.expiry := []];
        }
        groups := groups[o.expiry := groups[o.expiry] + [o]];
      }
    }
    assert catalogue[..|catalogue|] == catalogue;
    AscendingIsUnique(SortAscending(keys), ActiveExpiries(catalogue, now));
  }

  lemma {:induction false} GroupIsEmpty(catalogue: seq<Instrument>, now: int, expiry: int)
    ensures Group(catalogue, now, expiry) == [] <==> !Active(catalogue, now, expiry)
  {
    if catalogue != [] {
      GroupIsEmpty(catalogue[..|catalogue| - 1], now, expiry);
    }
  }

  /** The reduce callback: the largest non-positive and the smallest positive distance to the target win. */
  method SelectNearAndNext(activeExpiries: seq<int>, target: int) returns (nearIdx: int, nextIdx: int)
    requires Ascending(activeExpiries)
    ensures var n := CountUpTo(activeExpiries, target);
      nearIdx == n - 1 && nextIdx == if n < |activeExpiries| then n else -1
  {
    nearIdx, nextIdx := -1, -1;
    var nearDiff, nextDiff := 0, 0;  // meaningful once the index is set; -Infinity and Infinity before
    ghost var n := CountUpTo(activeExpiries, target);
    for i := 0 to |activeExpiries|
      invariant nearIdx == (if i <= n then i else n) - 1
      invariant nextIdx == if n < i then n else -1
      invariant nearIdx >= 0 ==> nearDiff == activeExpiries[nearIdx] - target
      invariant nextIdx >= 0 ==> nextDiff == activeExpiries[nextIdx] - target
    {
      var delta := activeExpiries[i] - target;
      if delta <= 0 && (nearIdx == -1 || delta > nearDiff) {
        nearIdx, nearDiff := i, delta;
      } else if delta > 0 && (nextIdx == -1 || delta < nextDiff) {
        nextIdx, nextDiff := i, delta;
      }
    }
  }

  /** The whole result, without the sorted list's indices: errors exactly when one side of the
      target is empty, else the two neighbours of the target and everything after them. */
  lemma LookupCharacterised(catalogue: seq<Instrument>, now: int, timePeriod: int)
    ensures var r, target := ExpiriesAt(catalogue, now, timePeriod), now + timePeriod * MS_PER_DAY;
      && (r.NoNearSymbols? <==> forall e | Active(catalogue, now, e) :: e > target)
      && (r.NoNextSymbols? <==> !r.NoNearSymbols? && forall e | Active(catalogue, now, e) :: e <= target)
      && (r.Found? ==> Neighbours(catalogue, now, target, r.expiries))
  {
    var active := ActiveExpiries(catalogue, now);
    var target := now + timePeriod * MS_PER_DAY;
    var n := CountUpTo(active, target);
    assert forall i | 0 <= i < |active| :: Active(catalogue, now, active[i]);
    var r := ExpiriesAt(catalogue, now, timePeriod);
    if r.Found? {
      NeighboursOfTarget(catalogue, now, timePeriod);
    }
  }

  lemma NeighboursOfTarget(catalogue: seq<Instrument>, now: int, timePeriod: int)
    requires ExpiriesAt(catalogue, now, timePeriod).Found?
    ensures Neighbours(catalogue, now, now + timePeriod * MS_PER_DAY, ExpiriesAt(catalogue, now, timePeriod).expiries)
  {
    BracketsOfTarget(catalogue, now, timePeriod);
    ContentsOfTarget(catalogue, now, timePeriod);
  }

  lemma BracketsOfTarget(catalogue: seq<Instrument>, now: int, timePeriod: int)
    requires ExpiriesAt(catalogue, now, timePeriod).Found?
    ensures Brackets(catalogue, now, now + timePeriod * MS_PER_DAY, ExpiriesAt(catalogue, now, timePeriod).expiries)
  {
    var active := ActiveExpiries(catalogue, now);
    var n := CountUpTo(active, now + timePeriod * MS_PER_DAY);
    assert active[n - 1] in active && active[n] in active && active[0] in active;
    AscendingGap(active, n);
  }

  lemma ContentsOfTarget(catalogue: seq<Instrument>, now: int, timePeriod: int)
    requires ExpiriesAt(catalogue, now, timePeriod).Found?
    ensures Contents(catalogue, now, ExpiriesAt(catalogue, now, timePeriod).expiries)
  {
    var active := ActiveExpiries(catalogue, now);
    var n := CountUpTo(active, now + timePeriod * MS_PER_DAY);
    NextAndRest(active, n);
  }

  lemma NextAndRest(s: seq<int>, n: nat)
    requires n < |s|
    ensures forall x :: x in s[n..] <==> x == s[n] || x in s[n + 1..]
  {
    assert s[n..] == [s[n]] + s[n + 1..];
  }

  lemma AscendingGap(s: seq<int>, n: nat)
    requires Ascending(s) && 0 < n < |s|
    ensures forall x | x in s :: s[0] <= x && (x <= s[n - 1] || s[n] <= x)
  {
  }

  /** The sorted list is some pruned front that ends in near, then next, then the expiry list. */
  predicate SplitAtNext(active: seq<int>, e: Expiries) {
    var n := |active| - |e.expiryList| - 1;
    0 < n && active[n - 1] == e.nearExpiry && active[n] == e.nextExpiry && active[n + 1..] == e.expiryList
  }

  /** Near and next are the active expiries on either side of the target, with none in between, and
      the rollover is the first of all. */
  ghost predicate Brackets(catalogue: seq<Instrument>, now: int, target: int, e: Expiries) {
    && Active(catalogue, now, e.nearExpiry) && e.nearExpiry <= target
    && Active(catalogue, now, e.nextExpiry) && target < e.nextExpiry
    && (forall x | Active(catalogue, now, x) :: x <= e.nearExpiry || e.nextExpiry <= x)
    && Active(catalogue, now, e.rolloverAt)
    && now < e.rolloverAt <= e.nearExpiry
    && (forall x | Active(catalogue, now, x) :: e.rolloverAt <= x)
  }

  /** Next and the expiry list are what follows near, and the map lists every id of exactly those. */
  ghost predicate Contents(catalogue: seq<Instrument>, now: int, e: Expiries) {
    && SplitAtNext(ActiveExpiries(catalogue, now), e)
    && (forall x :: x in e.expiryMap <==> x == e.nextExpiry || x in e.expiryList)
    && (forall x | x in e.expiryMap :: e.expiryMap[x] == Ids(Group(catalogue, now, x)))
    && e.nearSymbols == Ids(Group(catalogue, now, e.nearExpiry))
    && e.nextSymbols == Ids(Group(catalogue, now, e.nextExpiry))
  }

  ghost predicate Neighbours(catalogue: seq<Instrument>, now: int, target: int, e: Expiries) {
    Brackets(catalogue, now, target, e) && Contents(catalogue, now, e)
  }

  /** The expiry list is everything after the next expiry, earliest first. */
  lemma ExpiryListIsTheRest(catalogue: seq<Instrument>, now: int, target: int, e: Expiries)
    requires Neighbours(catalogue, now, target, e)
    ensures forall x :: x in e.expiryList <==> Active(catalogue, now, x) && x > e.nextExpiry
    ensures e.expiryList != [] ==> forall x | x in e.expiryList :: e.expiryList[0] <= x
  {
    var active := ActiveExpiries(catalogue, now);
    var n := |active| - |e.expiryList| - 1;
    assert forall i | 0 <= i < |e.expiryList| :: active[n + 1 + i] == e.expiryList[i];
    forall x | Active(catalogue, now, x) && x > e.nextExpiry
      ensures x in e.expiryList
    {
      var i :| 0 <= i < |active| && active[i] == x;
      assert e.expiryList[i - n - 1] == x;
    }
  }

  /** The ids of a group are those of its available instruments. */
  lemma {:induction false} GroupMembers(catalogue: seq<Instrument>, now: int, expiry: int)
    ensures Active(catalogue, now, expiry) <==> exists o :: o in catalogue && Available(o, now) && o.expiry == expiry
    ensures forall o :: o in Group(catalogue, now, expiry) <==> o in catalogue && Available(o, now) && o.expiry == expiry
    ensures forall id :: id in Ids(Group(catalogue, now, expiry)) <==>
              exists o :: o in catalogue && Available(o, now) && o.expiry == expiry && o.id == id
  {
    var g := Group(catalogue, now, expiry);
    GroupIsEmpty(catalogue, now, expiry);
    assert g != [] ==> g[0] in g;
    if catalogue != [] {
      var front, last := catalogue[..|catalogue| - 1], catalogue[|catalogue| - 1];
      assert forall p :: p in catalogue <==> p in front || p == last;
      GroupMembers(front, now, expiry);
    }
    forall id | id in Ids(g)
      ensures exists o :: o in catalogue && Available(o, now) && o.expiry == expiry && o.id == id
    {
      var i :| 0 <= i < |g| && Ids(g)[i] == id;
      assert g[i] in g;
    }
    forall o | o in catalogue && Available(o, now) && o.expiry == expiry
      ensures o.id in Ids(g)
    {
      assert o in g;
      var i :| 0 <= i < |g| && g[i] == o;
      assert Ids(g)[i] == o.id;
    }
  }

  // ----- agreement with the weekday calendar

  /** The search in a catalogue and the weekday branches pick the same three dates for 14 days. */
  predicate AgreesWithCalendar(catalogue: seq<Instrument>, now: int) {
    var r, d := ExpiriesAt(catalogue, now, 14), MfivDates(now, 14);
    r.Found? && r.expiries.nearExpiry == d.near && r.expiries.nextExpiry == d.next && r.expiries.rolloverAt == d.rollover
  }

  /** The next three Fridays are active, nothing expires before the first of them, and nothing else
      expires between the second and the third. */
  ghost predicate FridaysLineUp(catalogue: seq<Instrument>, now: int, friday: int) {
    && Active(catalogue, now, friday)
    && Active(catalogue, now, friday + MS_PER_WEEK)
    && Active(catalogue, now, friday + 2 * MS_PER_WEEK)
    && forall e | Active(catalogue, now, e) && e != friday + MS_PER_WEEK ::
         friday <= e && !(friday + MS_PER_WEEK < e < friday + 2 * MS_PER_WEEK)
  }

  lemma CatalogueAgreesIff(catalogue: seq<Instrument>, now: int)
    ensures AgreesWithCalendar(catalogue, now) <==> FridaysLineUp(catalogue, now, FridayAfter(now))
  {
    if AgreesWithCalendar(catalogue, now) {
      AgreementLinesUp(catalogue, now);
    }
    if FridaysLineUp(catalogue, now, FridayAfter(now)) {
      LineUpAgrees(catalogue, now);
    }
  }

  /** The weekday branches as multiples of a week from one Friday, with the target in between. */
  lemma CalendarInWeeks(now: int)
    ensures var d, friday := MfivDates(now, 14), FridayAfter(now);
      && d.rollover == friday && d.near == friday + MS_PER_WEEK && d.next == friday + 2 * MS_PER_WEEK
      && d.near <= now + 14 * MS_PER_DAY < d.next
  {
    ThreeCalendarsAgree(now, 14);
    FridayAfterIsNext(now);
    FridayAfterShifts(now, 1);
    FridayAfterShifts(now, 2);
  }

  lemma AgreementLinesUp(catalogue: seq<Instrument>, now: int)
    requires AgreesWithCalendar(catalogue, now)
    ensures FridaysLineUp(catalogue, now, FridayAfter(now))
  {
    CalendarInWeeks(now);
    BracketsOfTarget(catalogue, now, 14);
  }

  lemma LineUpAgrees(catalogue: seq<Instrument>, now: int)
    requires FridaysLineUp(catalogue, now, FridayAfter(now))
    ensures AgreesWithCalendar(catalogue, now)
  {
    CalendarInWeeks(now);
    LookupCharacterised(catalogue, now, 14);
    ActiveIsAhead(catalogue, now);
  }

  lemma ActiveIsAhead(catalogue: seq<Instrument>, now: int)
    ensures forall e | Active(catalogue, now, e) :: now < e
  {
  }

  /** In particular whenever every active expiry is a Friday expiry and the next three are listed. */
  lemma FridayCatalogueAgrees(catalogue: seq<Instrument>, now: int)
    requires forall e | Active(catalogue, now, e) :: IsFridayExpiry(e)
    requires Active(catalogue, now, FridayAfter(now))
    requires Active(catalogue, now, FridayAfter(now + MS_PER_WEEK)) && Active(catalogue, now, FridayAfter(now + 2 * MS_PER_WEEK))
    ensures AgreesWithCalendar(catalogue, now)
  {
    CatalogueAgreesIff(catalogue, now);
    FridayAfterShifts(now, 1);
    FridayAfterShifts(now, 2);
    FridaysFillTheGaps(catalogue, now);
  }

  lemma FridaysFillTheGaps(catalogue: seq<Instrument>, now: int)
    requires forall e | Active(catalogue, now, e) :: IsFridayExpiry(e)
    ensures var friday := FridayAfter(now);
      forall e | Active(catalogue, now, e) :: friday <= e && !(friday + MS_PER_WEEK < e < friday + 2 * MS_PER_WEEK)
  {
    forall e | Active(catalogue, now, e)
      ensures FridayAfter(now) <= e && !(FridayAfter(now) + MS_PER_WEEK < e < FridayAfter(now) + 2 * MS_PER_WEEK)
    {
      NoFridayBetween(now, e);
    }
  }

  lemma NoFridayBetween(now: int, e: int)
    requires now < e && IsFridayExpiry(e)
    ensures FridayAfter(now) <= e
    ensures !(FridayAfter(now) + MS_PER_WEEK < e < FridayAfter(now) + 2 * MS_PER_WEEK)
  {
    FridayAfterIsNext(now);
    FridayExpiryIsCongruence(e);
    FridayExpiryIsCongruence(FridayAfter(now));
    if e < FridayAfter(now) {
      WeeksAreSpaced(e - FRIDAY_ANCHOR, FridayAfter(now) - FRIDAY_ANCHOR);
    }
    if FridayAfter(now) + MS_PER_WEEK < e < FridayAfter(now) + 2 * MS_PER_WEEK {
      WeeksAreSpaced(e - FRIDAY_ANCHOR - MS_PER_WEEK, FridayAfter(now) - FRIDAY_ANCHOR);
    }
  }
}
