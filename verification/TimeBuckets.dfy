/** Time bucketing.  `OptionBucketComputable` and `TradeBucketComputable` are one machine over
    different payloads; it is stated once here, for any payload, and given both payloads below. */
module TimeBuckets {
  import opened MarketData

  /** A message, as a computable sees it; `ours` says that its type is the one the computable handles. */
  datatype Tick<P> = Tick(
    ours: bool, symbol: string, exchange: string, id: Option<string>, timestamp: int, localTimestamp: int, payload: P)

  /** A bucket, emitted or in progress; `count` is `summaries` or `trades`. */
  datatype Bucket<P> = Bucket(
    symbol: string, exchange: string, id: Option<string>, count: nat,
    openTimestamp: int, closeTimestamp: int, timestamp: int, localTimestamp: int, payload: P)

  const DATE_MIN := -1

  /** `_reset`; `clear` resets the payload fields. */
  function Blank<P>(clear: P -> P, payload: P): Bucket<P> {
    Bucket("", "", None, 0, DATE_MIN, DATE_MIN, DATE_MIN, DATE_MIN, clear(payload))
  }

  /** The bucket number of a timestamp. */
  function Slot(interval: int, timestamp: int): int
    requires interval > 0
  {
    timestamp / interval
  }

  predicate NonEmpty<T>(groups: seq<seq<T>>) {
    forall k | 0 <= k < |groups| :: |groups[k]| > 0
  }

  // ----- the reference: groups of equal running maximum

  /** The largest bucket number so far. */
  function RunningMax<P>(interval: int, ticks: seq<Tick<P>>): int
    requires interval > 0 && ticks != []
  {
    var last := Slot(interval, ticks[|ticks| - 1].timestamp);
    if |ticks| == 1 then last
    else
      var before := RunningMax(interval, ticks[..|ticks| - 1]);
      if last > before then last else before
  }

  /** The consecutive messages that share a running maximum, in order. */
  function Groups<P>(interval: int, ticks: seq<Tick<P>>): (groups: seq<seq<Tick<P>>>)
    requires interval > 0
    ensures groups == [] <==> ticks == []
    ensures NonEmpty(groups)
  {
    if ticks == [] then []
    else
      var n := |ticks| - 1;
      var before := Groups(interval, ticks[..n]);
      if n > 0 && RunningMax(interval, ticks) == RunningMax(interval, ticks[..n])
      then before[|before| - 1 := before[|before| - 1] + [ticks[n]]]
      else before + [[ticks[n]]]
  }

  function Flatten<T>(groups: seq<seq<T>>): seq<T> {
    if groups == [] then [] else Flatten(groups[..|groups| - 1]) + groups[|groups| - 1]
  }

  /** What is known of a group that is still open. */
  function OpenBucket<P>(group: seq<Tick<P>>): Bucket<P>
    requires group != []
  {
    var first, last := group[0], group[|group| - 1];
    Bucket("", "", last.id, |group|, first.timestamp, last.timestamp, last.timestamp, last.localTimestamp, last.payload)
  }

  /** The bucket of a group closed by `trigger`: stamped with the end of its period, and with the
      symbol, exchange and local time of the message that closed it. */
  function ClosedBucket<P>(interval: int, group: seq<Tick<P>>, trigger: Tick<P>): Bucket<P>
    requires interval > 0 && group != []
  {
    OpenBucket(group).(
    timestamp := (Slot(interval, group[0].timestamp) + 1) * interval,
    localTimestamp := trigger.localTimestamp, symbol := trigger.symbol, exchange := trigger.exchange)
  }

  /** All groups but the open last one, each closed by the first message of the next. */
  function ClosedBuckets<P>(interval: int, groups: seq<seq<Tick<P>>>): seq<Bucket<P>>
    requires interval > 0 && NonEmpty(groups)
  {
    if |groups| < 2 then []
    else
      var n := |groups| - 1;
      ClosedBuckets(interval, groups[..n]) + [ClosedBucket(interval, groups[n - 1], groups[n][0])]
  }

  // ----- the machine

  predicate Closes<P>(interval: int, p: Bucket<P>, m: Tick<P>)
    requires interval > 0
  {
    p.count > 0 && Slot(interval, m.timestamp) > Slot(interval, p.openTimestamp)
  }

  /** `_computeBucket` after `_hasNewBucket` has set the timestamp. */
  function Close<P>(interval: int, p: Bucket<P>, m: Tick<P>): Bucket<P>
    requires interval > 0
  {
    p.(timestamp := (Slot(interval, p.openTimestamp) + 1) * interval,
       localTimestamp := m.localTimestamp, symbol := m.symbol, exchange := m.exchange)
  }

  /** `_update`. */
  function Absorb<P>(p: Bucket<P>, m: Tick<P>): Bucket<P> {
    p.(openTimestamp := if p.count == 0 then m.timestamp else p.openTimestamp,
       id := m.id, payload := m.payload, timestamp := m.timestamp, closeTimestamp := m.timestamp,
       localTimestamp := m.localTimestamp, count := p.count + 1)
  }

  /** One message: at most one bucket, and the record in progress afterwards. */
  function Step<P>(interval: int, clear: P -> P, p: Bucket<P>, m: Tick<P>): (Bucket<P>, seq<Bucket<P>>)
    requires interval > 0
  {
    var base := if Closes(interval, p, m) then Blank(clear, p.payload) else p;
    (if m.ours then Absorb(base, m) else base, if Closes(interval, p, m) then [Close(interval, p, m)] else [])
  }

  /** A whole stream, from a fresh computable. */
  function Run<P>(interval: int, clear: P -> P, initial: P, ticks: seq<Tick<P>>): (Bucket<P>, seq<Bucket<P>>)
    requires interval > 0
  {
    if ticks == [] then (Blank(clear, initial), [])
    else
      var n := |ticks| - 1;
      var (p, emitted) := Run(interval, clear, initial, ticks[..n]);
      var (p', more) := Step(interval, clear, p, ticks[n]);
      (p', emitted + more)
  }

  class BucketComputable<P> {
    const interval: int
    const clear: P -> P
    var inProgress: Bucket<P>

    constructor (interval: int, clear: P -> P, initial: P)
      ensures this.interval == interval && this.clear == clear && inProgress == Blank(clear, initial)
    {
      this.interval := interval;
      this.clear := clear;
      inProgress := Blank(clear, initial);
    }

    /** Yields the buckets a message completes.  The check after the update, meant for volume or
        tick based buckets, never fires. */
    method Compute(message: Tick<P>) returns (buckets: seq<Bucket<P>>)
      requires interval > 0
      modifies this
      ensures (inProgress, buckets) == Step(interval, clear, old(inProgress), message)
    {
      buckets := [];
      var hasNewBucket := HasNewBucket(message.timestamp);
      if hasNewBucket {
        var bucket := ComputeBucket(message);
        buckets := [bucket];
      }
      if !message.ours {
        return;
      }
      Update(message);
      hasNewBucket := HasNewBucket(message.timestamp);
      if hasNewBucket {
        assert false;
      }
    }

    /** Also stamps the record with the end of its period when its period is over. */
    method HasNewBucket(timestamp: int) returns (b: bool)
      requires interval > 0
      modifies this
      ensures b <==> old(inProgress).count > 0 && timestamp / interval > old(inProgress).openTimestamp / interval
      ensures inProgress == if b then old(inProgress).(timestamp := (old(inProgress).openTimestamp / interval + 1) * interval) else old(inProgress)
    {
      if inProgress.count == 0 {
        return false;
      }
      var current, open := timestamp / interval, inProgress.openTimestamp / interval;
      if current > open {
        inProgress := inProgress.(timestamp := (open + 1) * interval);
        return true;
      }
      return false;
    }

    method ComputeBucket(message: Tick<P>) returns (bucket: Bucket<P>)
      modifies this
      ensures bucket == old(inProgress).(localTimestamp := message.localTimestamp, symbol := message.symbol, exchange := message.exchange)
      ensures inProgress == Blank(clear, old(inProgress).payload)
    {
      inProgress := inProgress.(localTimestamp := message.localTimestamp);
      inProgress := inProgress.(symbol := message.symbol);
      inProgress := inProgress.(exchange := message.exchange);
      bucket := inProgress;
      inProgress := Blank(clear, inProgress.payload);
    }

    method Update(message: Tick<P>)
      modifies this
      ensures inProgress == Absorb(old(inProgress), message)
    {
      if inProgress.count == 0 {
        inProgress := inProgress.(openTimestamp := message.timestamp);
      }
      inProgress := inProgress.(id := message.id, payload := message.payload);
      inProgress := inProgress.(timestamp := message.timestamp, closeTimestamp := message.timestamp);
      inProgress := inProgress.(localTimestamp := message.localTimestamp);
      inProgress := inProgress.(count := inProgress.count + 1);
    }

    /** Feeds a whole stream to a fresh computable. */
    method ComputeAll(messages: seq<Tick<P>>, ghost initial: P) returns (buckets: seq<Bucket<P>>)
      requires interval > 0 && inProgress == Blank(clear, initial)
      modifies this
      ensures (inProgress, buckets) == Run(interval, clear, initial, messages)
    {
      buckets := [];
      for i := 0 to |messages|
        invariant (inProgress, buckets) == Run(interval, clear, initial, messages[..i])
      {
        var more := Compute(messages[i]);
        buckets := buckets + more;
        assert messages[..i + 1][..i] == messages[..i];
      }
      assert messages[..|messages|] == messages;
    }
  }

  // ----- refinement

  ghost predicate AllOurs<P>(ticks: seq<Tick<P>>) {
    forall m | m in ticks :: m.ours
  }

  /** The first message of the open group carries the running maximum. */
  lemma {:induction false} OpenGroupLevel<P>(interval: int, ticks: seq<Tick<P>>)
    requires interval > 0 && ticks != []
    ensures var groups := Groups(interval, ticks);
      Slot(interval, groups[|groups| - 1][0].timestamp) == RunningMax(interval, ticks)
  {
    var n := |ticks| - 1;
    if n > 0 {
      OpenGroupLevel(interval, ticks[..n]);
    }
  }

  lemma ClosedBucketsExtend<P>(interval: int, groups: seq<seq<Tick<P>>>, m: Tick<P>)
    requires interval > 0 && groups != [] && NonEmpty(groups)
    ensures var n := |groups| - 1;
      && ClosedBuckets(interval, groups[n := groups[n] + [m]]) == ClosedBuckets(interval, groups)
      && ClosedBuckets(interval, groups + [[m]]) == ClosedBuckets(interval, groups) + [ClosedBucket(interval, groups[n], m)]
  {
    var n := |groups| - 1;
    var grown := groups[n := groups[n] + [m]];
    if n > 0 {
      assert grown[..n] == groups[..n];
      assert grown[n][0] == groups[n][0];
    }
    assert (groups + [[m]])[..|groups|] == groups;
  }

  /** For every sequence of messages, in any timestamp order: what is emitted are exactly the groups
      of equal running maximum except the last, and the record in progress is that last group. */
  lemma {:induction false} RunRefinesGroups<P>(interval: int, clear: P -> P, initial: P, ticks: seq<Tick<P>>)
    requires interval > 0 && AllOurs(ticks)
    ensures var (p, emitted) := Run(interval, clear, initial, ticks);
      var groups := Groups(interval, ticks);
      && emitted == ClosedBuckets(interval, groups)
      && p == if groups == [] then Blank(clear, initial) else OpenBucket(groups[|groups| - 1])
  {
    if ticks != [] {
      RunRefinesGroups(interval, clear, initial, ticks[..|ticks| - 1]);
      if |ticks| > 1 {
        StepRefinesGroups(interval, clear, ticks);
      }
    }
  }

  /** The bucket number of a group's first message. */
  function Level<P>(interval: int, group: seq<Tick<P>>): int
    requires interval > 0 && group != []
  {
    Slot(interval, group[0].timestamp)
  }

  lemma StepRefinesGroups<P>(interval: int, clear: P -> P, ticks: seq<Tick<P>>)
    requires interval > 0 && |ticks| > 1 && ticks[|ticks| - 1].ours
    ensures var before, groups := Groups(interval, ticks[..|ticks| - 1]), Groups(interval, ticks);
      var (p, more) := Step(interval, clear, OpenBucket(before[|before| - 1]), ticks[|ticks| - 1]);
      p == OpenBucket(groups[|groups| - 1]) && ClosedBuckets(interval, groups) == ClosedBuckets(interval, before) + more
  {
    var before, m := Groups(interval, ticks[..|ticks| - 1]), ticks[|ticks| - 1];
    GroupsExtend(interval, ticks);
    StepExtendsGroups(interval, clear, before, m);
  }

  /** The new message opens a group exactly when it has a larger bucket number than the open one. */
  function ExtendGroups<P>(interval: int, groups: seq<seq<Tick<P>>>, m: Tick<P>): (r: seq<seq<Tick<P>>>)
    requires interval > 0 && groups != [] && NonEmpty(groups)
    ensures r != [] && NonEmpty(r)
  {
    var last := |groups| - 1;
    if Slot(interval, m.timestamp) > Level(interval, groups[last]) then groups + [[m]]
    else groups[last := groups[last] + [m]]
  }

  lemma GroupsExtend<P>(interval: int, ticks: seq<Tick<P>>)
    requires interval > 0 && |ticks| > 1
    ensures Groups(interval, ticks) == ExtendGroups(interval, Groups(interval, ticks[..|ticks| - 1]), ticks[|ticks| - 1])
  {
    OpenGroupLevel(interval, ticks[..|ticks| - 1]);
  }

  lemma StepExtendsGroups<P>(interval: int, clear: P -> P, before: seq<seq<Tick<P>>>, m: Tick<P>)
    requires interval > 0 && before != [] && NonEmpty(before) && m.ours
    ensures var groups := ExtendGroups(interval, before, m);
      var (p, more) := Step(interval, clear, OpenBucket(before[|before| - 1]), m);
      p == OpenBucket(groups[|groups| - 1]) && ClosedBuckets(interval, groups) == ClosedBuckets(interval, before) + more
  {
    ClosedBucketsExtend(interval, before, m);
    StepExtendsGroup(interval, clear, before[|before| - 1], m);
    assert ClosedBuckets(interval, before) + [] == ClosedBuckets(interval, before);
  }

  /** The machine closes the open group exactly when the new message has a larger bucket number. */
  lemma StepExtendsGroup<P>(interval: int, clear: P -> P, group: seq<Tick<P>>, m: Tick<P>)
    requires interval > 0 && group != [] && m.ours
    ensures Step(interval, clear, OpenBucket(group), m) ==
            if Slot(interval, m.timestamp) > Slot(interval, group[0].timestamp)
            then (OpenBucket([m]), [ClosedBucket(interval, group, m)])
            else (OpenBucket(group + [m]), [])
  {
  }

  /** The running maximum at message `j` of group `k`. */
  function MaxAt<P>(interval: int, groups: seq<seq<Tick<P>>>, k: nat, j: nat): int
    requires interval > 0 && k < |groups| && j < |groups[k]|
  {
    RunningMax(interval, Flatten(groups[..k]) + groups[k][..j + 1])
  }

  /** Every message of group `k` has the running maximum of the group. */
  ghost predicate SharesLevel<P>(interval: int, groups: seq<seq<Tick<P>>>, k: nat)
    requires interval > 0 && k < |groups| && groups[k] != []
  {
    forall j: nat | j < |groups[k]| :: MaxAt(interval, groups, k, j) == Level(interval, groups[k])
  }

  ghost predicate Rising<P>(interval: int, groups: seq<seq<Tick<P>>>)
    requires interval > 0 && NonEmpty(groups)
  {
    forall j, k | 0 <= j < k < |groups| :: Level(interval, groups[j]) < Level(interval, groups[k])
  }

  /** The groups are what the name says: together they are the stream, every message of a group
      has the running maximum of the group, and the maxima strictly increase. */
  lemma {:induction false} GroupsAreLevels<P>(interval: int, ticks: seq<Tick<P>>)
    requires interval > 0
    ensures Flatten(Groups(interval, ticks)) == ticks
    ensures var groups := Groups(interval, ticks); forall k: nat | k < |groups| :: SharesLevel(interval, groups, k)
    ensures Rising(interval, Groups(interval, ticks))
  {
    if ticks != [] {
      var n := |ticks| - 1;
      var before, groups := Groups(interval, ticks[..n]), Groups(interval, ticks);
      GroupsAreLevels(interval, ticks[..n]);
      FlattenGroups(interval, ticks);
      GroupsRise(interval, ticks);
      forall k: nat | k < |groups|
        ensures SharesLevel(interval, groups, k)
      {
        assert groups[..k] == before[..k];
        if k < |groups| - 1 {
          assert SharesLevel(interval, before, k);
          assert forall j: nat | j < |groups[k]| :: MaxAt(interval, groups, k, j) == MaxAt(interval, before, k, j);
        } else {
          OpenGroupLevel(interval, ticks);
          LastSharesLevel(interval, ticks, before, groups);
        }
      }
    }
  }

  lemma FlattenGroups<P>(interval: int, ticks: seq<Tick<P>>)
    requires interval > 0 && ticks != []
    requires var front := ticks[..|ticks| - 1]; Flatten(Groups(interval, front)) == front
    ensures Flatten(Groups(interval, ticks)) == ticks
  {
    var n := |ticks| - 1;
    var before, groups := Groups(interval, ticks[..n]), Groups(interval, ticks);
    assert ticks == ticks[..n] + [ticks[n]];
    assert groups[..|groups| - 1] == before[..|groups| - 1];
    if |groups| > |before| {
      assert before[..|before|] == before;
    }
  }

  lemma GroupsRise<P>(interval: int, ticks: seq<Tick<P>>)
    requires interval > 0 && ticks != [] && Rising(interval, Groups(interval, ticks[..|ticks| - 1]))
    ensures Rising(interval, Groups(interval, ticks))
  {
    var n := |ticks| - 1;
    var before, groups := Groups(interval, ticks[..n]), Groups(interval, ticks);
    OpenGroupLevel(interval, ticks);
    if n > 0 {
      OpenGroupLevel(interval, ticks[..n]);
      assert forall k | 0 <= k < |before| :: Level(interval, before[k]) <= Level(interval, before[|before| - 1]);
      assert forall k | 0 <= k < |before| :: Level(interval, groups[k]) == Level(interval, before[k]);
    }
  }

  lemma LastSharesLevel<P>(interval: int, ticks: seq<Tick<P>>, before: seq<seq<Tick<P>>>, groups: seq<seq<Tick<P>>>)
    requires interval > 0 && ticks != [] && Flatten(groups) == ticks
    requires groups != [] && groups[|groups| - 1] != [] && Level(interval, groups[|groups| - 1]) == RunningMax(interval, ticks)
    requires |groups[|groups| - 1]| > 1 ==> Grows(interval, before, groups)
    ensures SharesLevel(interval, groups, |groups| - 1)
  {
    var last := |groups| - 1;
    LastMaxIsTotal(interval, ticks, groups);
    forall j: nat | j < |groups[last]| - 1
      ensures MaxAt(interval, groups, last, j) == Level(interval, groups[last])
    {
      EarlierSharesLevel(interval, before, groups, last, j);
    }
  }

  /** The last group has got one more message. */
  ghost predicate Grows<P>(interval: int, before: seq<seq<Tick<P>>>, groups: seq<seq<Tick<P>>>)
    requires interval > 0
  {
    var last := |groups| - 1;
    && 0 <= last == |before| - 1 && groups[..last] == before[..last]
    && before[last] != [] && |groups[last]| == |before[last]| + 1 && before[last] <= groups[last]
    && SharesLevel(interval, before, last)
  }

  lemma LastMaxIsTotal<P>(interval: int, ticks: seq<Tick<P>>, groups: seq<seq<Tick<P>>>)
    requires interval > 0 && ticks != [] && Flatten(groups) == ticks
    requires groups != [] && groups[|groups| - 1] != []
    ensures var last := |groups| - 1; MaxAt(interval, groups, last, |groups[last]| - 1) == RunningMax(interval, ticks)
  {
    var g := groups[|groups| - 1];
    assert g[..|g| - 1 + 1] == g;
  }

  lemma EarlierSharesLevel<P>(interval: int, before: seq<seq<Tick<P>>>, groups: seq<seq<Tick<P>>>, k: nat, j: nat)
    requires interval > 0 && k < |before| && k < |groups| && groups[..k] == before[..k]
    requires j < |before[k]| && before[k] <= groups[k]
    requires SharesLevel(interval, before, k)
    ensures MaxAt(interval, groups, k, j) == Level(interval, groups[k])
  {
    assert groups[k][..j + 1] == before[k][..j + 1];
    assert MaxAt(interval, before, k, j) == Level(interval, before[k]);
  }

  // ----- conservation

  function SumCounts<P>(buckets: seq<Bucket<P>>): nat {
    if buckets == [] then 0 else SumCounts(buckets[..|buckets| - 1]) + buckets[|buckets| - 1].count
  }

  function CountOurs<P>(ticks: seq<Tick<P>>): nat {
    if ticks == [] then 0 else CountOurs(ticks[..|ticks| - 1]) + if ticks[|ticks| - 1].ours then 1 else 0
  }

  /** Nothing is lost or counted twice, also when messages of other types close buckets, and no
      message emits more than one bucket. */
  lemma {:induction false} RunConserves<P>(interval: int, clear: P -> P, initial: P, ticks: seq<Tick<P>>)
    requires interval > 0
    ensures var (p, emitted) := Run(interval, clear, initial, ticks);
      && SumCounts(emitted) + p.count == CountOurs(ticks)
      && |emitted| <= |ticks|
      && forall b | b in emitted :: b.count > 0
  {
    if ticks != [] {
      var n := |ticks| - 1;
      RunConserves(interval, clear, initial, ticks[..n]);
      var (p, emitted) := Run(interval, clear, initial, ticks[..n]);
      var more := Step(interval, clear, p, ticks[n]).1;
      assert more != [] ==> (emitted + more)[..|emitted|] == emitted;
      assert more == [] ==> emitted + more == emitted;
    }
  }

  // ----- the two computables

  datatype OptionFields = OptionFields(
    underlyingPrice: real, lastPrice: real, strikePrice: real, expirationDate: int,
    optionType: Option<OptionType>, delta: real, markIV: real)

  /** The option fields `_reset` clears; the option type stays. */
  function ClearOption(f: OptionFields): OptionFields {
    OptionFields(0.0, 0.0, 0.0, DATE_MIN, f.optionType, 0.0, 0.0)
  }

  function OptionTick(o: OptionSummary): Tick<OptionFields> {
    Tick(true, o.symbol, o.exchange, Some(o.symbol), o.timestamp, o.localTimestamp,
         OptionFields(OrZero(o.underlyingPrice), OrZero(o.lastPrice), o.strikePrice, o.expirationDate,
                      Some(o.optionType), OrZero(o.delta), OrZero(o.markIV)))
  }

  function ClearTrade(price: real): real {
    0.0
  }

  function TradeTick(t: Trade): Tick<real> {
    Tick(true, t.symbol, t.exchange, t.id, t.timestamp, t.localTimestamp, t.price)
  }

  function OptionTicks(os: seq<OptionSummary>): seq<Tick<OptionFields>> {
    seq(|os|, i requires 0 <= i < |os| => OptionTick(os[i]))
  }

  function TradeTicks(ts: seq<Trade>): seq<Tick<real>> {
    seq(|ts|, i requires 0 <= i < |ts| => TradeTick(ts[i]))
  }
}
