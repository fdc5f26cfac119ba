/** Time bucketing among messages of other types: these are not counted, but they close a bucket
    whose period is over.  The buckets of any stream are the spans of a unique cut, and their
    timestamps increase under an exact condition on the messages. */
module TimeSpans {
  import opened MarketData
  import opened TimeBuckets

  /** What decides how a stream is cut: of each message its bucket number, and whether it counts. */
  datatype Mark = Mark(slot: int, ours: bool)

  function Marks<P>(interval: int, ticks: seq<Tick<P>>): (marks: seq<Mark>)
    requires interval > 0
    ensures |marks| == |ticks|
  {
    seq(|ticks|, i requires 0 <= i < |ticks| => Mark(Slot(interval, ticks[i].timestamp), ticks[i].ours))
  }

  /** A bucket's messages lie from the one that opens it up to the one that closes it. */
  datatype Span = Closed(at: nat, until: nat) | Open(at: nat)

  function End(marks: seq<Mark>, s: Span): nat {
    if s.Closed? then s.until else |marks|
  }

  /** Where the search for the opening message of span `k` starts. */
  function Resume(marks: seq<Mark>, spans: seq<Span>, k: nat): nat
    requires k <= |spans|
  {
    if k == 0 then 0 else End(marks, spans[k - 1])
  }

  predicate InRange(marks: seq<Mark>, s: Span) {
    s.at < |marks| && marks[s.at].ours && (s.Closed? ==> s.at < s.until < |marks|)
  }

  /** A span ends at the first message with a larger bucket number than its first message. */
  ghost predicate EndsRight(marks: seq<Mark>, s: Span)
    requires InRange(marks, s)
  {
    && (forall i: nat | s.at < i < End(marks, s) :: marks[i].slot <= marks[s.at].slot)
    && (s.Closed? ==> marks[s.until].slot > marks[s.at].slot)
  }

  ghost predicate NoneOurs(marks: seq<Mark>, from: nat, to: nat) {
    forall i | from <= i < to && i < |marks| :: !marks[i].ours
  }

  /** All but the last span are closed; each starts at the first own message from the end of the one
      before, and no own message is left over. */
  ghost predicate IsCut(marks: seq<Mark>, spans: seq<Span>) {
    && (forall k: nat | k < |spans| :: IsSpan(marks, spans, k))
    && NoneOurs(marks, Resume(marks, spans, |spans|), |marks|)
  }

  ghost predicate IsSpan(marks: seq<Mark>, spans: seq<Span>, k: nat)
    requires k < |spans|
  {
    && InRange(marks, spans[k]) && EndsRight(marks, spans[k])
    && (spans[k].Open? ==> k == |spans| - 1)
    && Resume(marks, spans, k) <= spans[k].at && NoneOurs(marks, Resume(marks, spans, k), spans[k].at)
  }

  /** A stream has one cut only. */
  lemma {:induction false} CutsAgree(marks: seq<Mark>, a: seq<Span>, b: seq<Span>, k: nat)
    requires IsCut(marks, a) && IsCut(marks, b)
    requires k <= |a| && k <= |b|
    ensures a[..k] == b[..k]
  {
    if k > 0 {
      CutsAgree(marks, a, b, k - 1);
      ResumeAgrees(marks, a, b, k - 1);
      assert IsSpan(marks, a, k - 1) && IsSpan(marks, b, k - 1);
      SameSpan(marks, Resume(marks, a, k - 1), a[k - 1], b[k - 1]);
      assert a[..k] == a[..k - 1] + [a[k - 1]] && b[..k] == b[..k - 1] + [b[k - 1]];
    }
  }

  lemma SameSpan(marks: seq<Mark>, from: nat, a: Span, b: Span)
    requires InRange(marks, a) && InRange(marks, b)
    requires EndsRight(marks, a) && EndsRight(marks, b)
    requires from <= a.at && NoneOurs(marks, from, a.at) && from <= b.at && NoneOurs(marks, from, b.at)
    ensures a == b
  {
    assert a.at == b.at;
  }

  lemma SpanHasOurs(marks: seq<Mark>, spans: seq<Span>, k: nat)
    requires IsCut(marks, spans) && k < |spans|
    ensures !NoneOurs(marks, Resume(marks, spans, k), |marks|)
  {
    assert IsSpan(marks, spans, k);
  }

  lemma CutIsNotLonger(marks: seq<Mark>, a: seq<Span>, b: seq<Span>)
    requires IsCut(marks, a) && IsCut(marks, b)
    ensures |a| <= |b|
  {
    if |a| > |b| {
      CutsAgree(marks, a, b, |b|);
      ResumeAgrees(marks, a, b, |b|);
      SpanHasOurs(marks, a, |b|);
    }
  }

  lemma ResumeAgrees(marks: seq<Mark>, a: seq<Span>, b: seq<Span>, k: nat)
    requires k <= |a| && k <= |b| && a[..k] == b[..k]
    ensures Resume(marks, a, k) == Resume(marks, b, k)
  {
    assert k > 0 ==> a[..k][k - 1] == b[..k][k - 1];
  }

  lemma CutIsUnique(marks: seq<Mark>, a: seq<Span>, b: seq<Span>)
    requires IsCut(marks, a) && IsCut(marks, b)
    ensures a == b
  {
    CutIsNotLonger(marks, a, b);
    CutIsNotLonger(marks, b, a);
    CutsAgree(marks, a, b, |a|);
    assert a[..|a|] == a && b[..|a|] == b;
  }

  // ----- the cut, message by message

  predicate IsOpen(spans: seq<Span>) {
    spans != [] && spans[|spans| - 1].Open?
  }

  /** The spans after message `n`. */
  function Extend(marks: seq<Mark>, spans: seq<Span>, n: nat): seq<Span>
    requires n < |marks| && (IsOpen(spans) ==> spans[|spans| - 1].at < n)
  {
    var starts := if marks[n].ours then [Open(n)] else [];
    if !IsOpen(spans) then spans + starts
    else
      var last := |spans| - 1;
      if marks[n].slot > marks[spans[last].at].slot then spans[..last] + [Closed(spans[last].at, n)] + starts
      else spans
  }

  function Cut(marks: seq<Mark>): (spans: seq<Span>)
    ensures forall k | 0 <= k < |spans| :: InRange(marks, spans[k])
  {
    if marks == [] then [] else Extend(marks, Cut(marks[..|marks| - 1]), |marks| - 1)
  }

  lemma {:induction false} CutIsCut(marks: seq<Mark>)
    ensures IsCut(marks, Cut(marks))
  {
    if marks != [] {
      CutIsCut(marks[..|marks| - 1]);
      ExtendIsCut(marks, Cut(marks[..|marks| - 1]), |marks| - 1);
    }
  }

  lemma ExtendIsCut(marks: seq<Mark>, before: seq<Span>, n: nat)
    requires |marks| == n + 1 && IsCut(marks[..n], before)
    requires IsOpen(before) ==> before[|before| - 1].at < n
    ensures IsCut(marks, Extend(marks, before, n))
  {
    var spans := Extend(marks, before, n);
    forall k: nat | k < |before|
      ensures IsSpan(marks, spans, k)
    {
      SpanStays(marks, before, n, k);
    }
    NewSpan(marks, before, n);
  }

  lemma SpanStays(marks: seq<Mark>, before: seq<Span>, n: nat, k: nat)
    requires |marks| == n + 1 && IsCut(marks[..n], before) && k < |before|
    requires IsOpen(before) ==> before[|before| - 1].at < n
    ensures k < |Extend(marks, before, n)| && IsSpan(marks, Extend(marks, before, n), k)
  {
    var spans := Extend(marks, before, n);
    assert IsSpan(marks[..n], before, k);
    SpanGrows(marks, before[k]);
    ResumeStays(marks, before, n, k);
  }

  lemma ResumeStays(marks: seq<Mark>, before: seq<Span>, n: nat, k: nat)
    requires |marks| == n + 1 && IsCut(marks[..n], before) && k < |before|
    requires IsOpen(before) ==> before[|before| - 1].at < n
    ensures k < |Extend(marks, before, n)| && Resume(marks, Extend(marks, before, n), k) == Resume(marks[..n], before, k)
  {
    assert k > 0 ==> IsSpan(marks[..n], before, k - 1);
  }

  /** The new message opens a span, or is not an own one, or the last span is still open. */
  lemma NewSpan(marks: seq<Mark>, before: seq<Span>, n: nat)
    requires |marks| == n + 1 && IsCut(marks[..n], before)
    requires IsOpen(before) ==> before[|before| - 1].at < n
    ensures var spans := Extend(marks, before, n);
      && |spans| <= |before| + 1
      && (|spans| > |before| ==> IsSpan(marks, spans, |spans| - 1))
      && NoneOurs(marks, Resume(marks, spans, |spans|), |marks|)
  {
    assert before != [] ==> IsSpan(marks[..n], before, |before| - 1);
  }

  lemma SpanGrows(marks: seq<Mark>, s: Span)
    requires marks != [] && InRange(marks[..|marks| - 1], s) && EndsRight(marks[..|marks| - 1], s)
    ensures InRange(marks, s)
    ensures var n := |marks| - 1;
      if s.Open? && marks[n].slot > marks[s.at].slot then EndsRight(marks, Closed(s.at, n))
      else EndsRight(marks, s)
  {
    var n := |marks| - 1;
    assert forall i: nat | i < n :: marks[..n][i] == marks[i];
  }

  // ----- the machine follows the cut

  /** The messages that count. */
  function Ours<P>(ticks: seq<Tick<P>>): (own: seq<Tick<P>>)
    ensures ticks != [] && ticks[0].ours ==> own != [] && own[0] == ticks[0]
  {
    if ticks == [] then []
    else
      var n := |ticks| - 1;
      Ours(ticks[..n]) + if ticks[n].ours then [ticks[n]] else []
  }

  predicate AreWithin<P>(ticks: seq<Tick<P>>, spans: seq<Span>) {
    forall k | 0 <= k < |spans| ::
      spans[k].at < |ticks| && ticks[spans[k].at].ours && (spans[k].Closed? ==> spans[k].at < spans[k].until < |ticks|)
  }

  /** A bucket of the own messages of every closed span, closed by the message at its end. */
  function SpanBuckets<P>(interval: int, ticks: seq<Tick<P>>, spans: seq<Span>): seq<Bucket<P>>
    requires interval > 0 && AreWithin(ticks, spans)
  {
    if spans == [] then []
    else
      var last := |spans| - 1;
      SpanBuckets(interval, ticks, spans[..last]) +
      match spans[last]
      case Closed(at, until) => [ClosedBucket(interval, Ours(ticks[at..until]), ticks[until])]
      case Open(_) => []
  }

  /** The record in progress: the own messages of the open span, or nothing. */
  ghost predicate Holds<P>(p: Bucket<P>, ticks: seq<Tick<P>>, spans: seq<Span>)
    requires AreWithin(ticks, spans)
  {
    if IsOpen(spans) then p == OpenBucket(Ours(ticks[spans[|spans| - 1].at..]))
    else IsBlank(p)
  }

  lemma CutIsWithin<P>(interval: int, ticks: seq<Tick<P>>)
    requires interval > 0
    ensures AreWithin(ticks, Cut(Marks(interval, ticks)))
  {
    var spans := Cut(Marks(interval, ticks));
    assert forall k | 0 <= k < |spans| :: InRange(Marks(interval, ticks), spans[k]);
  }

  lemma {:induction false} SpanBucketsOfPrefix<P>(interval: int, ticks: seq<Tick<P>>, n: nat, spans: seq<Span>)
    requires interval > 0 && n <= |ticks| && AreWithin(ticks[..n], spans)
    ensures AreWithin(ticks, spans) && SpanBuckets(interval, ticks, spans) == SpanBuckets(interval, ticks[..n], spans)
  {
    if spans != [] {
      var last := |spans| - 1;
      SpanBucketsOfPrefix(interval, ticks, n, spans[..last]);
      if spans[last].Closed? {
        assert ticks[..n][spans[last].at..spans[last].until] == ticks[spans[last].at..spans[last].until];
      }
    }
  }

  ghost predicate IsBlank<P>(p: Bucket<P>) {
    p == Bucket("", "", None, 0, DATE_MIN, DATE_MIN, DATE_MIN, DATE_MIN, p.payload)
  }

  /** One message of any type meets an empty record, or one that holds a group. */
  lemma StepFromBlank<P>(interval: int, clear: P -> P, p: Bucket<P>, m: Tick<P>)
    requires interval > 0 && IsBlank(p)
    ensures Step(interval, clear, p, m) == (if m.ours then OpenBucket([m]) else p, [])
  {
  }

  lemma StepFromGroup<P>(interval: int, clear: P -> P, group: seq<Tick<P>>, m: Tick<P>)
    requires interval > 0 && group != []
    ensures var (p', more) := Step(interval, clear, OpenBucket(group), m);
      if Slot(interval, m.timestamp) > Slot(interval, group[0].timestamp)
      then more == [ClosedBucket(interval, group, m)] && if m.ours then p' == OpenBucket([m]) else IsBlank(p')
      else more == [] && p' == OpenBucket(group + if m.ours then [m] else [])
  {
    assert group + [] == group;
  }

  /** What one message does to the spans: the record and the buckets follow. */
  ghost predicate Follows<P>(interval: int, ticks: seq<Tick<P>>, before: seq<Span>, spans: seq<Span>, p': Bucket<P>, more: seq<Bucket<P>>)
    requires interval > 0
  {
    && AreWithin(ticks, before) && AreWithin(ticks, spans)
    && Holds(p', ticks, spans)
    && SpanBuckets(interval, ticks, spans) == SpanBuckets(interval, ticks, before) + more
  }

  function Starts<P>(ticks: seq<Tick<P>>, n: nat): seq<Span>
    requires n < |ticks|
  {
    if ticks[n].ours then [Open(n)] else []
  }

  lemma StepFollowsBlank<P>(interval: int, clear: P -> P, p: Bucket<P>, ticks: seq<Tick<P>>, n: nat, before: seq<Span>)
    requires interval > 0 && |ticks| == n + 1 && AreWithin(ticks, before) && !IsOpen(before) && IsBlank(p)
    ensures var (p', more) := Step(interval, clear, p, ticks[n]); Follows(interval, ticks, before, before + Starts(ticks, n), p', more)
  {
    StepFromBlank(interval, clear, p, ticks[n]);
    AppendOpen(interval, ticks, before, n);
    OursOfOne(ticks, n);
    assert before + [] == before;
  }

  lemma StepFollowsClosing<P>(interval: int, clear: P -> P, ticks: seq<Tick<P>>, n: nat, front: seq<Span>, at: nat)
    requires interval > 0 && |ticks| == n + 1 && AreWithin(ticks, front) && at < n && ticks[at].ours
    requires Slot(interval, ticks[n].timestamp) > Slot(interval, ticks[at].timestamp)
    ensures var (p', more) := Step(interval, clear, OpenBucket(Ours(ticks[at..n])), ticks[n]);
      Follows(interval, ticks, front + [Open(at)], front + [Closed(at, n)] + Starts(ticks, n), p', more)
  {
    var closed := front + [Closed(at, n)];
    StepFromGroup(interval, clear, Ours(ticks[at..n]), ticks[n]);
    AppendOpen(interval, ticks, front, at);
    AppendClosed(interval, ticks, front, at, n);
    AppendOpen(interval, ticks, closed, n);
    OursOfOne(ticks, n);
    assert closed + [] == closed;
  }

  lemma StepFollowsGrowing<P>(interval: int, clear: P -> P, ticks: seq<Tick<P>>, n: nat, front: seq<Span>, at: nat)
    requires interval > 0 && |ticks| == n + 1 && AreWithin(ticks, front) && at < n && ticks[at].ours
    requires Slot(interval, ticks[n].timestamp) <= Slot(interval, ticks[at].timestamp)
    ensures var (p', more) := Step(interval, clear, OpenBucket(Ours(ticks[at..n])), ticks[n]);
      Follows(interval, ticks, front + [Open(at)], front + [Open(at)], p', more)
  {
    StepFromGroup(interval, clear, Ours(ticks[at..n]), ticks[n]);
    AppendOpen(interval, ticks, front, at);
    OursExtend(ticks, at);
  }

  /** One message, from a record that holds the spans so far. */
  lemma StepExtends<P>(interval: int, clear: P -> P, p: Bucket<P>, ticks: seq<Tick<P>>, n: nat, before: seq<Span>)
    requires interval > 0 && |ticks| == n + 1 && AreWithin(ticks[..n], before) && Holds(p, ticks[..n], before)
    ensures IsOpen(before) ==> before[|before| - 1].at < n
    ensures var (p', more) := Step(interval, clear, p, ticks[n]);
      Follows(interval, ticks, before, Extend(Marks(interval, ticks), before, n), p', more)
  {
    if IsOpen(before) {
      var front, at := before[..|before| - 1], before[|before| - 1].at;
      assert ticks[..n][at..] == ticks[at..n];
      assert before == front + [Open(at)];
      assert Marks(interval, ticks)[n].slot == Slot(interval, ticks[n].timestamp);
      if Slot(interval, ticks[n].timestamp) > Slot(interval, ticks[at].timestamp) {
        StepFollowsClosing(interval, clear, ticks, n, front, at);
      } else {
        StepFollowsGrowing(interval, clear, ticks, n, front, at);
      }
    } else {
      StepFollowsBlank(interval, clear, p, ticks, n, before);
    }
  }

  lemma OursOfOne<P>(ticks: seq<Tick<P>>, n: nat)
    requires |ticks| == n + 1
    ensures Ours(ticks[n..]) == if ticks[n].ours then [ticks[n]] else []
  {
    assert ticks[n..] == [] + [ticks[n]];
  }

  lemma AppendClosed<P>(interval: int, ticks: seq<Tick<P>>, spans: seq<Span>, at: nat, until: nat)
    requires interval > 0 && AreWithin(ticks, spans) && at < until < |ticks| && ticks[at].ours
    ensures AreWithin(ticks, spans + [Closed(at, until)])
    ensures SpanBuckets(interval, ticks, spans + [Closed(at, until)]) ==
            SpanBuckets(interval, ticks, spans) + [ClosedBucket(interval, Ours(ticks[at..until]), ticks[until])]
  {
    assert (spans + [Closed(at, until)])[..|spans|] == spans;
  }

  lemma AppendOpen<P>(interval: int, ticks: seq<Tick<P>>, spans: seq<Span>, at: nat)
    requires interval > 0 && AreWithin(ticks, spans) && at < |ticks|
    ensures ticks[at].ours ==>
              && AreWithin(ticks, spans + [Open(at)])
              && SpanBuckets(interval, ticks, spans + [Open(at)]) == SpanBuckets(interval, ticks, spans)
  {
    assert (spans + [Open(at)])[..|spans|] == spans;
  }

  lemma OursExtend<P>(ticks: seq<Tick<P>>, at: nat)
    requires at < |ticks| - 1
    ensures var n := |ticks| - 1; Ours(ticks[at..]) == Ours(ticks[at..n]) + if ticks[n].ours then [ticks[n]] else []
  {
    var n := |ticks| - 1;
    assert ticks[at..][..n - at] == ticks[at..n];
  }

  /** For every stream, whatever the types and the timestamp order of its messages: a bucket is
      emitted for each closed span of the cut, and the record in progress holds the open one. */
  lemma {:induction false} RunFollowsCut<P>(interval: int, clear: P -> P, initial: P, ticks: seq<Tick<P>>)
    requires interval > 0
    ensures var (p, emitted) := Run(interval, clear, initial, ticks);
      var spans := Cut(Marks(interval, ticks));
      && IsCut(Marks(interval, ticks), spans) && AreWithin(ticks, spans)
      && emitted == SpanBuckets(interval, ticks, spans)
      && Holds(p, ticks, spans)
  {
    CutIsCut(Marks(interval, ticks));
    CutIsWithin(interval, ticks);
    if ticks != [] {
      var n := |ticks| - 1;
      var before := Cut(Marks(interval, ticks[..n]));
      assert Marks(interval, ticks)[..n] == Marks(interval, ticks[..n]);
      RunFollowsCut(interval, clear, initial, ticks[..n]);
      SpanBucketsOfPrefix(interval, ticks, n, before);
      StepExtends(interval, clear, Run(interval, clear, initial, ticks[..n]).0, ticks, n, before);
    }
  }

  // ----- timestamps

  /** A group's bucket is stamped with the end of its period: after its first and last message, and
      no later than any message with a larger bucket number. */
  lemma ClosedBucketStamp<P>(interval: int, group: seq<Tick<P>>, trigger: Tick<P>)
    requires interval > 0 && group != []
    requires Slot(interval, group[|group| - 1].timestamp) <= Level(interval, group) < Slot(interval, trigger.timestamp)
    ensures var b := ClosedBucket(interval, group, trigger);
      b.openTimestamp < b.timestamp && b.closeTimestamp < b.timestamp <= trigger.timestamp
  {
    SlotBounds(interval, group[0].timestamp);
    SlotBounds(interval, group[|group| - 1].timestamp);
    SlotBounds(interval, trigger.timestamp);
    SlotsOrder(interval, Slot(interval, group[|group| - 1].timestamp), Level(interval, group));
    SlotsOrder(interval, Level(interval, group) + 1, Slot(interval, trigger.timestamp));
  }

  lemma SlotBounds(interval: int, t: int)
    requires interval > 0
    ensures Slot(interval, t) * interval <= t < (Slot(interval, t) + 1) * interval
  {
    assert t == t / interval * interval + t % interval;
  }

  lemma SlotsOrder(interval: int, a: int, b: int)
    requires interval > 0 && a <= b
    ensures a * interval <= b * interval
    ensures (a + 1) * interval <= (b + 1) * interval
    ensures a * interval < (b + 1) * interval
  {
    assert (b - a) * interval >= 0;
  }

  /** The bucket of a span, by the message that opened it and the one that closed it. */
  ghost predicate IsBucketOf<P>(interval: int, ticks: seq<Tick<P>>, b: Bucket<P>, s: Span)
    requires interval > 0
  {
    && s.Closed? && s.at < s.until < |ticks| && ticks[s.at].ours
    && b == ClosedBucket(interval, Ours(ticks[s.at..s.until]), ticks[s.until])
  }

  function ClosedCount(spans: seq<Span>): nat {
    if IsOpen(spans) then |spans| - 1 else |spans|
  }

  lemma {:induction false} SpanBucketsByIndex<P>(interval: int, ticks: seq<Tick<P>>, spans: seq<Span>)
    requires interval > 0 && AreWithin(ticks, spans)
    requires forall k | 0 <= k < |spans| - 1 :: spans[k].Closed?
    ensures var bs := SpanBuckets(interval, ticks, spans);
      && |bs| == ClosedCount(spans)
      && forall k | 0 <= k < |bs| :: IsBucketOf(interval, ticks, bs[k], spans[k])
  {
    if spans != [] {
      SpanBucketsByIndex(interval, ticks, spans[..|spans| - 1]);
    }
  }

  lemma {:induction false} OursAreAmong<P>(ticks: seq<Tick<P>>)
    ensures forall m | m in Ours(ticks) :: m in ticks
  {
    if ticks != [] {
      OursAreAmong(ticks[..|ticks| - 1]);
    }
  }

  lemma SpanOfBucket<P>(interval: int, ticks: seq<Tick<P>>, b: Bucket<P>, s: Span)
    requires interval > 0 && IsBucketOf(interval, ticks, b, s)
    requires InRange(Marks(interval, ticks), s) && EndsRight(Marks(interval, ticks), s)
    ensures b.openTimestamp == ticks[s.at].timestamp
    ensures IsStamped(interval, b) && b.timestamp <= ticks[s.until].timestamp
  {
    var marks, group := Marks(interval, ticks), Ours(ticks[s.at..s.until]);
    OursAreAmong(ticks[s.at..s.until]);
    var last := group[|group| - 1];
    assert last in group;
    var i :| s.at <= i < s.until && ticks[i] == last;
    assert marks[i].slot <= marks[s.at].slot < marks[s.until].slot;
    ClosedBucketStamp(interval, group, ticks[s.until]);
  }

  /** Stamped with the end of the period of its first message, after its first and last messages. */
  predicate IsStamped<P>(interval: int, b: Bucket<P>)
    requires interval > 0
  {
    && b.timestamp == (Slot(interval, b.openTimestamp) + 1) * interval
    && b.openTimestamp < b.timestamp && b.closeTimestamp < b.timestamp
  }

  predicate StampsIncrease<P>(bs: seq<Bucket<P>>) {
    forall j, k | 0 <= j < k < |bs| :: bs[j].timestamp < bs[k].timestamp
  }

  /** After a closing by a foreign message, the message that opens the next bucket to be emitted has
      a larger bucket number than the one before. */
  ghost predicate ResumesLater(marks: seq<Mark>, spans: seq<Span>)
    requires IsCut(marks, spans)
  {
    forall k: nat | 0 < k < |spans| :: StepsUp(marks, spans, k)
  }

  ghost predicate StepsUp(marks: seq<Mark>, spans: seq<Span>, k: nat)
    requires IsCut(marks, spans) && 0 < k < |spans|
  {
    assert IsSpan(marks, spans, k) && IsSpan(marks, spans, k - 1);
    spans[k].Closed? && !marks[spans[k - 1].until].ours ==> marks[spans[k].at].slot > marks[spans[k - 1].at].slot
  }

  /** A closing by an own message needs no condition, as that message opens the next span. */
  lemma StepsUpIff(marks: seq<Mark>, spans: seq<Span>, k: nat)
    requires IsCut(marks, spans) && 0 < k < |spans| && spans[k].Closed?
    ensures InRange(marks, spans[k]) && InRange(marks, spans[k - 1])
    ensures StepsUp(marks, spans, k) <==> marks[spans[k].at].slot > marks[spans[k - 1].at].slot
  {
    assert IsSpan(marks, spans, k) && IsSpan(marks, spans, k - 1);
  }

  ghost predicate SlotsRise(marks: seq<Mark>, spans: seq<Span>, n: nat)
    requires n <= |spans| && forall k | 0 <= k < n :: spans[k].at < |marks|
  {
    forall j, k | 0 <= j < k < n :: marks[spans[j].at].slot < marks[spans[k].at].slot
  }

  lemma SpansAreInRange(marks: seq<Mark>, spans: seq<Span>)
    requires IsCut(marks, spans)
    ensures forall k | 0 <= k < |spans| ::
              && InRange(marks, spans[k]) && EndsRight(marks, spans[k])
              && (spans[k].Open? ==> k == |spans| - 1)
  {
    forall k | 0 <= k < |spans|
      ensures InRange(marks, spans[k]) && EndsRight(marks, spans[k]) && (spans[k].Open? ==> k == |spans| - 1)
    {
      assert IsSpan(marks, spans, k);
    }
  }

  lemma {:induction false} StepsRise(marks: seq<Mark>, spans: seq<Span>, n: nat)
    requires IsCut(marks, spans) && n <= |spans| && forall k | 0 <= k < n :: spans[k].Closed?
    ensures forall k | 0 <= k < n :: spans[k].at < |marks|
    ensures SlotsRise(marks, spans, n) <==> forall k: nat | 0 < k < n :: StepsUp(marks, spans, k)
  {
    SpansAreInRange(marks, spans);
    if n > 1 {
      StepsRise(marks, spans, n - 1);
      StepsUpIff(marks, spans, n - 1);
    }
  }

  /** Every emitted bucket carries its stamp, and that is no later than the message that closed it. */
  lemma RunIsStamped<P>(interval: int, clear: P -> P, initial: P, ticks: seq<Tick<P>>)
    requires interval > 0
    ensures var bs := Run(interval, clear, initial, ticks).1; var spans := Cut(Marks(interval, ticks));
      && |bs| == ClosedCount(spans)
      && (forall k | 0 <= k < |bs| ::
            && IsBucketOf(interval, ticks, bs[k], spans[k]) && IsStamped(interval, bs[k])
            && bs[k].openTimestamp == ticks[spans[k].at].timestamp && bs[k].timestamp <= ticks[spans[k].until].timestamp)
  {
    var bs, marks := Run(interval, clear, initial, ticks).1, Marks(interval, ticks);
    var spans := Cut(marks);
    RunFollowsCut(interval, clear, initial, ticks);
    SpansAreInRange(marks, spans);
    SpanBucketsByIndex(interval, ticks, spans);
    forall k: nat | k < |bs|
      ensures IsStamped(interval, bs[k])
      ensures bs[k].openTimestamp == ticks[spans[k].at].timestamp && bs[k].timestamp <= ticks[spans[k].until].timestamp
    {
      SpanOfBucket(interval, ticks, bs[k], spans[k]);
    }
  }

  /** The stamps strictly increase if and only if the stream resumes later after every foreign closing. */
  lemma RunStampsIncreaseIff<P>(interval: int, clear: P -> P, initial: P, ticks: seq<Tick<P>>)
    requires interval > 0
    ensures var spans := Cut(Marks(interval, ticks));
      && IsCut(Marks(interval, ticks), spans)
      && (StampsIncrease(Run(interval, clear, initial, ticks).1) <==> ResumesLater(Marks(interval, ticks), spans))
  {
    CutIsCut(Marks(interval, ticks));
    StampsFollowSlots(interval, clear, initial, ticks);
    RiseIsResuming(Marks(interval, ticks), Cut(Marks(interval, ticks)));
  }

  lemma StampsFollowSlots<P>(interval: int, clear: P -> P, initial: P, ticks: seq<Tick<P>>)
    requires interval > 0
    ensures var spans := Cut(Marks(interval, ticks));
      StampsIncrease(Run(interval, clear, initial, ticks).1) <==> SlotsRise(Marks(interval, ticks), spans, ClosedCount(spans))
  {
    var bs, marks := Run(interval, clear, initial, ticks).1, Marks(interval, ticks);
    var spans := Cut(marks);
    RunIsStamped(interval, clear, initial, ticks);
    forall j, k | 0 <= j < k < |bs|
      ensures bs[j].timestamp < bs[k].timestamp <==> marks[spans[j].at].slot < marks[spans[k].at].slot
    {
      StampsOrder(interval, bs[j], bs[k]);
    }
  }

  lemma RiseIsResuming(marks: seq<Mark>, spans: seq<Span>)
    requires IsCut(marks, spans)
    ensures forall k | 0 <= k < ClosedCount(spans) :: spans[k].at < |marks|
    ensures SlotsRise(marks, spans, ClosedCount(spans)) <==> ResumesLater(marks, spans)
  {
    SpansAreInRange(marks, spans);
    StepsRise(marks, spans, ClosedCount(spans));
  }

  lemma StampsOrder<P>(interval: int, a: Bucket<P>, b: Bucket<P>)
    requires interval > 0 && IsStamped(interval, a) && IsStamped(interval, b)
    ensures a.timestamp < b.timestamp <==> Slot(interval, a.openTimestamp) < Slot(interval, b.openTimestamp)
  {
    var p, q := Slot(interval, a.openTimestamp), Slot(interval, b.openTimestamp);
    if p < q {
      SlotsOrder(interval, p + 1, q);
    } else {
      SlotsOrder(interval, q, p);
    }
  }

  /** So they do in a stream of own messages, in any timestamp order, and in a stream in time order. */
  lemma StampsIncreaseWhen<P>(interval: int, clear: P -> P, initial: P, ticks: seq<Tick<P>>)
    requires interval > 0
    requires AllOurs(ticks) || forall i, j | 0 <= i < j < |ticks| :: ticks[i].timestamp <= ticks[j].timestamp
    ensures StampsIncrease(Run(interval, clear, initial, ticks).1)
  {
    var marks := Marks(interval, ticks);
    RunStampsIncreaseIff(interval, clear, initial, ticks);
    if !AllOurs(ticks) {
      forall i, j | 0 <= i < j < |ticks|
        ensures marks[i].slot <= marks[j].slot
      {
        LaterIsLarger(interval, ticks[i].timestamp, ticks[j].timestamp);
      }
    }
    OrderResumesLater(marks, Cut(marks));
  }

  lemma OrderResumesLater(marks: seq<Mark>, spans: seq<Span>)
    requires IsCut(marks, spans)
    requires (forall i | 0 <= i < |marks| :: marks[i].ours) || forall i, j | 0 <= i < j < |marks| :: marks[i].slot <= marks[j].slot
    ensures ResumesLater(marks, spans)
  {
    forall k: nat | 0 < k < |spans|
      ensures StepsUp(marks, spans, k)
    {
      assert IsSpan(marks, spans, k) && IsSpan(marks, spans, k - 1);
    }
  }

  lemma LaterIsLarger(interval: int, a: int, b: int)
    requires interval > 0 && a <= b
    ensures Slot(interval, a) <= Slot(interval, b)
  {
    SlotBounds(interval, a);
    SlotBounds(interval, b);
    if Slot(interval, a) > Slot(interval, b) {
      SlotsOrder(interval, Slot(interval, b) + 1, Slot(interval, a));
    }
  }

  /** A message of another type may close a bucket early: when older messages follow, the same period
      is emitted twice. */
  lemma RepeatedStamp<P>(clear: P -> P, initial: P, m: Tick<P>)
    requires m.ours
    ensures var ticks := [m.(timestamp := 5), m.(timestamp := 25, ours := false), m.(timestamp := 7), m.(timestamp := 15)];
      var bs := Run(10, clear, initial, ticks).1;
      |bs| == 2 && bs[0].timestamp == 10 && bs[1].timestamp == 10
  {
    var m0, m1, m2, m3 := m.(timestamp := 5), m.(timestamp := 25, ours := false), m.(timestamp := 7), m.(timestamp := 15);
    var none: seq<Tick<P>> := [];
    RunExtends(10, clear, initial, none, m0);
    RunExtends(10, clear, initial, [m0], m1);
    RunExtends(10, clear, initial, [m0, m1], m2);
    RunExtends(10, clear, initial, [m0, m1, m2], m3);
    assert none + [m0] == [m0] && [m0] + [m1] == [m0, m1];
    assert [m0, m1] + [m2] == [m0, m1, m2] && [m0, m1, m2] + [m3] == [m0, m1, m2, m3];
  }

  lemma RunExtends<P>(interval: int, clear: P -> P, initial: P, ticks: seq<Tick<P>>, m: Tick<P>)
    requires interval > 0
    ensures var (p, emitted) := Run(interval, clear, initial, ticks); var (p', more) := Step(interval, clear, p, m);
      Run(interval, clear, initial, ticks + [m]) == (p', emitted + more)
  {
    assert (ticks + [m])[..|ticks|] == ticks;
  }

  // ----- the fields of the emitted buckets

  /** From one message up to the first with a larger bucket number. */
  ghost predicate IsPeriod(slots: seq<int>, from: nat, until: nat) {
    from < until < |slots| && slots[from] < slots[until] && forall i | from < i < until :: slots[i] <= slots[from]
  }

  /** Where the buckets of a stream of own messages begin: the first at the first message, each further
      one where the one before ends, and the last is still open. */
  ghost predicate AreCuts(slots: seq<int>, cuts: seq<nat>) {
    && (slots == [] <==> cuts == []) && (cuts != [] ==> cuts[0] == 0)
    && (forall k | 0 <= k < |cuts| - 1 :: IsPeriod(slots, cuts[k], cuts[k + 1]))
    && (cuts != [] ==> forall i | cuts[|cuts| - 1] < i < |slots| :: slots[i] <= slots[cuts[|cuts| - 1]])
  }

  function SlotsOf(marks: seq<Mark>): (slots: seq<int>)
    ensures |slots| == |marks|
  {
    seq(|marks|, i requires 0 <= i < |marks| => marks[i].slot)
  }

  function Beginnings(spans: seq<Span>): (cuts: seq<nat>)
    ensures |cuts| == |spans|
  {
    seq(|spans|, k requires 0 <= k < |spans| => spans[k].at)
  }

  ghost predicate OnlyOurs(marks: seq<Mark>) {
    forall i | 0 <= i < |marks| :: marks[i].ours
  }

  /** Between own messages a span begins where the search for it does. */
  lemma SpanResumes(marks: seq<Mark>, spans: seq<Span>, k: nat)
    requires IsCut(marks, spans) && OnlyOurs(marks) && k < |spans|
    ensures spans[k].at == Resume(marks, spans, k)
  {
    assert IsSpan(marks, spans, k);
    SomeOurs(marks, Resume(marks, spans, k), spans[k].at);
  }

  lemma SomeOurs(marks: seq<Mark>, from: nat, to: nat)
    requires OnlyOurs(marks) && to <= |marks|
    ensures NoneOurs(marks, from, to) <==> to <= from
  {
    if from < to {
      assert marks[from].ours;
    }
  }

  lemma SpanIsPeriod(marks: seq<Mark>, spans: seq<Span>, k: nat)
    requires IsCut(marks, spans) && OnlyOurs(marks) && k + 1 < |spans|
    ensures spans[k] == Closed(spans[k].at, spans[k + 1].at) && IsPeriod(SlotsOf(marks), spans[k].at, spans[k + 1].at)
  {
    SpanResumes(marks, spans, k + 1);
    assert IsSpan(marks, spans, k);
  }

  lemma LastSpanIsOpen(marks: seq<Mark>, spans: seq<Span>)
    requires IsCut(marks, spans) && OnlyOurs(marks)
    ensures spans == [] <==> marks == []
    ensures spans != [] ==> spans[|spans| - 1].Open?
  {
    SomeOurs(marks, Resume(marks, spans, |spans|), |marks|);
    if spans != [] {
      assert IsSpan(marks, spans, |spans| - 1);
    }
  }

  lemma OwnSpansAreCuts(marks: seq<Mark>, spans: seq<Span>)
    requires IsCut(marks, spans) && OnlyOurs(marks)
    ensures AreCuts(SlotsOf(marks), Beginnings(spans))
  {
    LastSpanIsOpen(marks, spans);
    var cuts, slots := Beginnings(spans), SlotsOf(marks);
    forall k | 0 <= k < |cuts| - 1
      ensures IsPeriod(slots, cuts[k], cuts[k + 1])
    {
      SpanIsPeriod(marks, spans, k);
    }
    if spans != [] {
      SpanResumes(marks, spans, 0);
      assert IsSpan(marks, spans, |spans| - 1);
    }
  }

  lemma {:induction false} AllAreOurs<P>(ticks: seq<Tick<P>>)
    requires forall i | 0 <= i < |ticks| :: ticks[i].ours
    ensures Ours(ticks) == ticks
  {
    if ticks != [] {
      var n := |ticks| - 1;
      AllAreOurs(ticks[..n]);
      assert ticks == ticks[..n] + [ticks[n]];
    }
  }

  /** The bucket of the own messages from one cut to the next. */
  ghost predicate IsOwnBucket<P>(interval: int, ticks: seq<Tick<P>>, from: nat, until: nat, b: Bucket<P>)
    requires interval > 0
  {
    from < until < |ticks| && b == ClosedBucket(interval, ticks[from..until], ticks[until])
  }

  lemma OwnBucketIs<P>(interval: int, ticks: seq<Tick<P>>, b: Bucket<P>, s: Span)
    requires interval > 0 && AllOurs(ticks) && IsBucketOf(interval, ticks, b, s)
    ensures IsOwnBucket(interval, ticks, s.at, s.until, b)
  {
    AllAreOurs(ticks[s.at..s.until]);
  }

  lemma OwnBucketsAre<P>(interval: int, clear: P -> P, initial: P, ticks: seq<Tick<P>>) returns (cuts: seq<nat>)
    requires interval > 0 && AllOurs(ticks)
    ensures AreCuts(SlotsOf(Marks(interval, ticks)), cuts)
    ensures var bs := Run(interval, clear, initial, ticks).1;
      && |bs| == (if ticks == [] then 0 else |cuts| - 1)
      && forall k | 0 <= k < |bs| :: IsOwnBucket(interval, ticks, cuts[k], cuts[k + 1], bs[k])
  {
    var marks := Marks(interval, ticks);
    var spans := Cut(marks);
    var bs := Run(interval, clear, initial, ticks).1;
    RunIsStamped(interval, clear, initial, ticks);
    CutIsCut(marks);
    OwnSpansAreCuts(marks, spans);
    LastSpanIsOpen(marks, spans);
    cuts := Beginnings(spans);
    forall k | 0 <= k < |bs|
      ensures IsOwnBucket(interval, ticks, cuts[k], cuts[k + 1], bs[k])
    {
      SpanIsPeriod(marks, spans, k);
      OwnBucketIs(interval, ticks, bs[k], spans[k]);
    }
  }

  /** An option bucket: symbol, exchange and local time of the summary that closed it, and the rest of
      the last summary in it. */
  ghost predicate IsOptionBucket(interval: int, os: seq<OptionSummary>, from: nat, until: nat, b: Bucket<OptionFields>)
    requires interval > 0
  {
    from < until < |os| &&
    var first, last, closing := os[from], os[until - 1], os[until];
    && b.symbol == closing.symbol && b.exchange == closing.exchange && b.localTimestamp == closing.localTimestamp
    && b.id == Some(last.symbol) && b.count == until - from
    && b.openTimestamp == first.timestamp && b.closeTimestamp == last.timestamp
    && b.timestamp == (first.timestamp / interval + 1) * interval
    && ReadsAs(last.underlyingPrice, b.payload.underlyingPrice) && ReadsAs(last.lastPrice, b.payload.lastPrice)
    && b.payload.strikePrice == last.strikePrice && b.payload.expirationDate == last.expirationDate
    && b.payload.optionType == Some(last.optionType)
    && ReadsAs(last.delta, b.payload.delta) && ReadsAs(last.markIV, b.payload.markIV)
  }

  /** The same for trades. */
  ghost predicate IsTradeBucket(interval: int, ts: seq<Trade>, from: nat, until: nat, b: Bucket<real>)
    requires interval > 0
  {
    from < until < |ts| &&
    var first, last, closing := ts[from], ts[until - 1], ts[until];
    && b.symbol == closing.symbol && b.exchange == closing.exchange && b.localTimestamp == closing.localTimestamp
    && b.id == last.id && b.count == until - from && b.payload == last.price
    && b.openTimestamp == first.timestamp && b.closeTimestamp == last.timestamp
    && b.timestamp == (first.timestamp / interval + 1) * interval
  }

  lemma OptionBucketIs(interval: int, os: seq<OptionSummary>, from: nat, until: nat, b: Bucket<OptionFields>)
    requires interval > 0 && IsOwnBucket(interval, OptionTicks(os), from, until, b)
    ensures IsOptionBucket(interval, os, from, until, b)
  {
    var group := OptionTicks(os)[from..until];
    assert group[0] == OptionTick(os[from]) && group[|group| - 1] == OptionTick(os[until - 1]);
  }

  lemma TradeBucketIs(interval: int, ts: seq<Trade>, from: nat, until: nat, b: Bucket<real>)
    requires interval > 0 && IsOwnBucket(interval, TradeTicks(ts), from, until, b)
    ensures IsTradeBucket(interval, ts, from, until, b)
  {
    var group := TradeTicks(ts)[from..until];
    assert group[0] == TradeTick(ts[from]) && group[|group| - 1] == TradeTick(ts[until - 1]);
  }

  /** The bucket numbers of summaries. */
  function OptionSlots(interval: int, os: seq<OptionSummary>): seq<int>
    requires interval > 0
  {
    seq(|os|, i requires 0 <= i < |os| => os[i].timestamp / interval)
  }

  function TradeSlots(interval: int, ts: seq<Trade>): seq<int>
    requires interval > 0
  {
    seq(|ts|, i requires 0 <= i < |ts| => ts[i].timestamp / interval)
  }

  /** The option computable's buckets, in terms of the summaries alone. */
  method OptionBuckets(interval: int, os: seq<OptionSummary>) returns (buckets: seq<Bucket<OptionFields>>)
    requires interval > 0
    ensures buckets == ClosedBuckets(interval, Groups(interval, OptionTicks(os)))
    ensures exists cuts ::
              && AreCuts(OptionSlots(interval, os), cuts) && |buckets| == (if os == [] then 0 else |cuts| - 1)
              && forall k | 0 <= k < |buckets| :: IsOptionBucket(interval, os, cuts[k], cuts[k + 1], buckets[k])
  {
    var initial := OptionFields(0.0, 0.0, 0.0, DATE_MIN, None, 0.0, 0.0);
    var computable := new BucketComputable(interval, ClearOption, initial);
    buckets := computable.ComputeAll(OptionTicks(os), initial);
    RunRefinesGroups(interval, ClearOption, initial, OptionTicks(os));
    ghost var cuts := OwnBucketsAre(interval, ClearOption, initial, OptionTicks(os));
    assert SlotsOf(Marks(interval, OptionTicks(os))) == OptionSlots(interval, os);
    forall k | 0 <= k < |buckets|
      ensures IsOptionBucket(interval, os, cuts[k], cuts[k + 1], buckets[k])
    {
      OptionBucketIs(interval, os, cuts[k], cuts[k + 1], buckets[k]);
    }
  }

  /** The trade computable's, in terms of the trades. */
  method TradeBuckets(interval: int, ts: seq<Trade>) returns (buckets: seq<Bucket<real>>)
    requires interval > 0
    ensures buckets == ClosedBuckets(interval, Groups(interval, TradeTicks(ts)))
    ensures exists cuts ::
              && AreCuts(TradeSlots(interval, ts), cuts) && |buckets| == (if ts == [] then 0 else |cuts| - 1)
              && forall k | 0 <= k < |buckets| :: IsTradeBucket(interval, ts, cuts[k], cuts[k + 1], buckets[k])
  {
    var computable := new BucketComputable(interval, ClearTrade, 0.0);
    buckets := computable.ComputeAll(TradeTicks(ts), 0.0);
    RunRefinesGroups(interval, ClearTrade, 0.0, TradeTicks(ts));
    ghost var cuts := OwnBucketsAre(interval, ClearTrade, 0.0, TradeTicks(ts));
    assert SlotsOf(Marks(interval, TradeTicks(ts))) == TradeSlots(interval, ts);
    forall k | 0 <= k < |buckets|
      ensures IsTradeBucket(interval, ts, cuts[k], cuts[k + 1], buckets[k])
    {
      TradeBucketIs(interval, ts, cuts[k], cuts[k + 1], buckets[k]);
    }
  }
}
