/** What the message loops of both calculators do over a whole run, in terms of logs: which reference
    date each message met, and after which messages a report was filed. */
module ReportLogs {
  import opened Instants

  /** A consumed message: the reference date and rollover of its stream, its tick, and whether the
      loop goes on to its checks. */
  datatype Arrival = Arrival(refDate: int, rollover: int, tick: int, counts: bool)

  /** A report, made after so many messages. */
  datatype Filed = Filed(refDate: int, at: int, consumed: nat)

  // ----- where a run stands

  predicate Turns(end: int, a: Arrival) {
    a.counts && a.rollover <= a.tick < end
  }

  predicate Ends(end: int, a: Arrival) {
    a.counts && end <= a.tick
  }

  predicate Stops(end: int, a: Arrival) {
    a.counts && (a.rollover <= a.tick || end <= a.tick)
  }

  /** Message `n` is the first of a stream whose tick reaches the rollover or the end. */
  ghost predicate StopsFirst(end: int, arrivals: seq<Arrival>, n: nat) {
    n < |arrivals| && Stops(end, arrivals[n]) && forall i | 0 <= i < n :: !Stops(end, arrivals[i])
  }

  /** A stream turns to the next reference date exactly if that message comes before the end; it has
      consumed the messages up to that one, or all if there is none. */
  ghost predicate ConsumedRight(end: int, arrivals: seq<Arrival>, turned: bool, consumed: nat) {
    && (turned <==> exists n: nat :: StopsFirst(end, arrivals, n) && arrivals[n].tick < end)
    && (forall n: nat | StopsFirst(end, arrivals, n) :: consumed == n + 1)
    && ((forall a | a in arrivals :: !Stops(end, a)) ==> consumed == |arrivals|)
  }

  /** Appending the first message and then some of the rest. */
  lemma Appended<M>(h: seq<M>, messages: seq<M>, n: nat, h': seq<M>)
    requires messages != [] && n < |messages| && h' == (h + [messages[0]]) + messages[1..][..n]
    ensures h' == h + messages[..n + 1]
  {
    assert messages[..n + 1] == [messages[0]] + messages[1..][..n];
  }

  lemma StopsAtOnce(end: int, arrivals: seq<Arrival>)
    requires arrivals != [] && Stops(end, arrivals[0])
    ensures ConsumedRight(end, arrivals, arrivals[0].tick < end, 1)
  {
    assert StopsFirst(end, arrivals, 0);
  }

  lemma StopsLater(end: int, arrivals: seq<Arrival>, turned: bool, consumed: nat)
    requires arrivals != [] && !Stops(end, arrivals[0]) && ConsumedRight(end, arrivals[1..], turned, consumed)
    ensures ConsumedRight(end, arrivals, turned, consumed + 1)
  {
    var rest := arrivals[1..];
    forall n: nat
      ensures StopsFirst(end, arrivals, n) <==> n > 0 && StopsFirst(end, rest, n - 1)
    {
      assert n > 0 && n < |arrivals| ==> rest[n - 1] == arrivals[n];
      assert forall i | 0 < i < |arrivals| :: arrivals[i] == rest[i - 1];
    }
    if n: nat :| StopsFirst(end, rest, n) && rest[n].tick < end {
      assert StopsFirst(end, arrivals, n + 1);
    }
    assert forall a | a in rest :: a in arrivals;
  }

  /** The reference date after these messages. */
  function NextRef(start: int, end: int, arrivals: seq<Arrival>): int {
    if arrivals == [] then start
    else
      var last := arrivals[|arrivals| - 1];
      if Turns(end, last) then last.rollover else last.refDate
  }

  /** Every message met the reference date that the ones before it lead to, and none came after a
      message that ends the run. */
  ghost predicate Chained(start: int, end: int, arrivals: seq<Arrival>) {
    && (forall n | 0 <= n < |arrivals| :: arrivals[n].refDate == NextRef(start, end, arrivals[..n]))
    && (forall n | 0 <= n < |arrivals| - 1 :: !Ends(end, arrivals[n]))
  }

  lemma ChainExtends(start: int, end: int, arrivals: seq<Arrival>, a: Arrival)
    requires Chained(start, end, arrivals) && a.refDate == NextRef(start, end, arrivals)
    requires arrivals != [] ==> !Ends(end, arrivals[|arrivals| - 1])
    ensures Chained(start, end, arrivals + [a])
  {
    var more := arrivals + [a];
    assert more[..|arrivals|] == arrivals;
    assert forall n | 0 <= n < |arrivals| :: more[..n] == arrivals[..n];
  }

  // ----- due reports

  /** When the last report of the stream was made before message `n`; a minute before the reference
      date if there is none. */
  function LastAt(filed: seq<Filed>, refDate: int, n: nat): int {
    if filed == [] then refDate - MS_PER_MINUTE
    else
      var last := filed[|filed| - 1];
      if last.refDate == refDate && last.consumed <= n then last.at else LastAt(filed[..|filed| - 1], refDate, n)
  }

  /** Each report belongs to one message, in the order of the messages, with its tick. */
  ghost predicate WellFiled(arrivals: seq<Arrival>, filed: seq<Filed>) {
    && (forall k | 0 <= k < |filed| ::
          && 0 < filed[k].consumed <= |arrivals|
          && filed[k].refDate == arrivals[filed[k].consumed - 1].refDate
          && filed[k].at == arrivals[filed[k].consumed - 1].tick)
    && (forall j, k | 0 <= j < k < |filed| :: filed[j].consumed < filed[k].consumed)
  }

  ghost predicate IsFiled(filed: seq<Filed>, n: nat) {
    exists k :: 0 <= k < |filed| && filed[k].consumed == n + 1
  }

  /** The tick of message `n` is at least the report frequency after the last report of its stream. */
  predicate IsDueAt(frequency: int, arrivals: seq<Arrival>, filed: seq<Filed>, n: nat)
    requires n < |arrivals|
  {
    arrivals[n].counts && arrivals[n].tick - LastAt(filed, arrivals[n].refDate, n) >= frequency
  }

  /** A message makes a report if and only if one is due. */
  ghost predicate Complete(frequency: int, arrivals: seq<Arrival>, filed: seq<Filed>) {
    forall n: nat | n < |arrivals| :: IsFiled(filed, n) <==> IsDueAt(frequency, arrivals, filed, n)
  }

  lemma LastAtIgnoresLater(filed: seq<Filed>, f: Filed, refDate: int, n: nat)
    requires n < f.consumed
    ensures LastAt(filed + [f], refDate, n) == LastAt(filed, refDate, n)
  {
    assert (filed + [f])[..|filed|] == filed;
  }

  lemma {:induction false} LastAtIsStable(filed: seq<Filed>, refDate: int, n: nat, n': nat)
    requires n <= n' && forall k | 0 <= k < |filed| :: filed[k].consumed <= n
    ensures LastAt(filed, refDate, n') == LastAt(filed, refDate, n)
  {
    if filed != [] {
      LastAtIsStable(filed[..|filed| - 1], refDate, n, n');
    }
  }

  /** The report of a message, if one is due. */
  function FileFor(frequency: int, arrivals: seq<Arrival>, filed: seq<Filed>, a: Arrival): seq<Filed> {
    if a.counts && a.tick - LastAt(filed, a.refDate, |arrivals|) >= frequency then [Filed(a.refDate, a.tick, |arrivals| + 1)] else []
  }

  lemma LogExtends(frequency: int, arrivals: seq<Arrival>, filed: seq<Filed>, a: Arrival)
    requires WellFiled(arrivals, filed) && Complete(frequency, arrivals, filed)
    ensures var filed' := filed + FileFor(frequency, arrivals, filed, a);
      && WellFiled(arrivals + [a], filed') && Complete(frequency, arrivals + [a], filed')
      && LastAt(filed', a.refDate, |arrivals| + 1) ==
         if FileFor(frequency, arrivals, filed, a) != [] then a.tick else LastAt(filed, a.refDate, |arrivals|)
  {
    var n := |arrivals|;
    var f := Filed(a.refDate, a.tick, n + 1);
    LastAtIsStable(filed, a.refDate, n, n + 1);
    assert filed + [] == filed;
    if FileFor(frequency, arrivals, filed, a) != [] {
      assert (filed + [f])[|filed|] == f;
      FiledIsComplete(frequency, arrivals, filed, a);
    } else {
      UnfiledIsComplete(frequency, arrivals, filed, a);
    }
  }

  lemma UnfiledIsComplete(frequency: int, arrivals: seq<Arrival>, filed: seq<Filed>, a: Arrival)
    requires WellFiled(arrivals, filed) && Complete(frequency, arrivals, filed)
    requires FileFor(frequency, arrivals, filed, a) == []
    ensures Complete(frequency, arrivals + [a], filed)
  {
    var more := arrivals + [a];
    forall i: nat | i < |more|
      ensures IsFiled(filed, i) <==> IsDueAt(frequency, more, filed, i)
    {
      assert i < |arrivals| ==> more[i] == arrivals[i];
    }
  }

  lemma FiledExtends(filed: seq<Filed>, f: Filed, n: nat)
    requires f.consumed != n + 1
    ensures IsFiled(filed + [f], n) <==> IsFiled(filed, n)
  {
    if k :| 0 <= k < |filed| && filed[k].consumed == n + 1 {
      assert (filed + [f])[k].consumed == n + 1;
    }
  }

  lemma FiledIsComplete(frequency: int, arrivals: seq<Arrival>, filed: seq<Filed>, a: Arrival)
    requires WellFiled(arrivals, filed) && Complete(frequency, arrivals, filed)
    requires FileFor(frequency, arrivals, filed, a) != []
    ensures Complete(frequency, arrivals + [a], filed + [Filed(a.refDate, a.tick, |arrivals| + 1)])
  {
    var n, more, f := |arrivals|, arrivals + [a], Filed(a.refDate, a.tick, |arrivals| + 1);
    var filed' := filed + [f];
    forall i: nat | i < |more|
      ensures IsFiled(filed', i) <==> IsDueAt(frequency, more, filed', i)
    {
      LastAtIgnoresLater(filed, f, more[i].refDate, i);
      if i == n {
        assert filed'[|filed|].consumed == i + 1;
      } else {
        assert more[i] == arrivals[i];
        FiledExtends(filed, f, i);
      }
    }
  }

  /** A stream that has made no report yet counts from a minute before its reference date. */
  lemma {:induction false} NoneFiled(filed: seq<Filed>, refDate: int, n: nat)
    requires forall k | 0 <= k < |filed| :: filed[k].refDate != refDate
    ensures LastAt(filed, refDate, n) == refDate - MS_PER_MINUTE
  {
    if filed != [] {
      NoneFiled(filed[..|filed| - 1], refDate, n);
    }
  }

  // ----- the spacing that follows

  /** Messages of an earlier stream have ticks up to the later reference date. */
  ghost predicate Bounded(arrivals: seq<Arrival>) {
    forall i, j | 0 <= i < j < |arrivals| && arrivals[i].refDate != arrivals[j].refDate :: arrivals[i].tick <= arrivals[j].refDate
  }

  lemma LastBefore(filed: seq<Filed>, k: nat, refDate: int, n: nat)
    requires k <= |filed| && forall i | k <= i < |filed| :: filed[i].consumed > n
    ensures LastAt(filed, refDate, n) == LastAt(filed[..k], refDate, n)
    decreases |filed|
  {
    if k < |filed| {
      LastBefore(filed[..|filed| - 1], k, refDate, n);
      assert filed[..|filed| - 1][..k] == filed[..k];
    } else {
      assert filed[..k] == filed;
    }
  }

  lemma LastOfStream(frequency: int, arrivals: seq<Arrival>, filed: seq<Filed>, k: nat)
    requires WellFiled(arrivals, filed) && Complete(frequency, arrivals, filed) && k < |filed|
    ensures filed[k].at - LastAt(filed[..k], filed[k].refDate, filed[k].consumed - 1) >= frequency
  {
    var n := filed[k].consumed - 1;
    assert IsFiled(filed, n);
    assert IsDueAt(frequency, arrivals, filed, n);
    LastBefore(filed, k, filed[k].refDate, n);
  }

  /** No stream counts from an instant before its start. */
  lemma {:induction false} LastAtIsLate(frequency: int, arrivals: seq<Arrival>, filed: seq<Filed>, k: nat, refDate: int, n: nat)
    requires WellFiled(arrivals, filed) && Complete(frequency, arrivals, filed) && frequency >= 0 && k <= |filed|
    ensures LastAt(filed[..k], refDate, n) >= refDate - MS_PER_MINUTE
  {
    if k > 0 {
      LastAtIsLate(frequency, arrivals, filed, k - 1, refDate, n);
      assert filed[..k][..k - 1] == filed[..k - 1];
      LastOfStream(frequency, arrivals, filed, k - 1);
      LastAtIsLate(frequency, arrivals, filed, k - 1, filed[k - 1].refDate, filed[k - 1].consumed - 1);
    }
  }

  /** Successive reports of one stream are at least the frequency apart; from one stream to the next
      at most a minute is missing, if messages are bounded. */
  lemma ReportsAreSpaced(frequency: int, arrivals: seq<Arrival>, filed: seq<Filed>, k: nat)
    requires WellFiled(arrivals, filed) && Complete(frequency, arrivals, filed) && frequency >= 0 && 0 < k < |filed|
    ensures filed[k - 1].refDate == filed[k].refDate ==> filed[k].at - filed[k - 1].at >= frequency
    ensures Bounded(arrivals) ==> filed[k].at - filed[k - 1].at >= frequency - MS_PER_MINUTE
  {
    LastOfStream(frequency, arrivals, filed, k);
    LastAtIsLate(frequency, arrivals, filed, k, filed[k].refDate, filed[k].consumed - 1);
    assert filed[..k][..k - 1] == filed[..k - 1];
  }

  // ----- both logs together, message by message

  ghost predicate Fits(start: int, end: int, frequency: int, arrivals: seq<Arrival>, filed: seq<Filed>) {
    Chained(start, end, arrivals) && WellFiled(arrivals, filed) && Complete(frequency, arrivals, filed)
  }

  ghost predicate NotBeyond(arrivals: seq<Arrival>, refDate: int) {
    forall a | a in arrivals :: a.refDate <= refDate
  }

  /** The run has come to this reference date, `turned` if its last message leads beyond that of the
      stream `from`; or it has ended. */
  ghost predicate Leads(start: int, end: int, arrivals: seq<Arrival>, from: int, turned: bool, to: int) {
    && NotBeyond(arrivals, from) && NextRef(start, end, arrivals) == to
    && (turned ==> arrivals != [] && !Ends(end, arrivals[|arrivals| - 1]))
  }

  /** A stream is going on: nothing has ended the run, and the clock is that of its last report. */
  ghost predicate GoesOn(start: int, end: int, arrivals: seq<Arrival>, filed: seq<Filed>, refDate: int, clock: int) {
    && NotBeyond(arrivals, refDate) && NextRef(start, end, arrivals) == refDate
    && (arrivals != [] ==> !Ends(end, arrivals[|arrivals| - 1]))
    && LastAt(filed, refDate, |arrivals|) == clock
  }

  lemma NothingArrived(start: int, end: int, frequency: int)
    ensures Fits(start, end, frequency, [], []) && GoesOn(start, end, [], [], start, start - MS_PER_MINUTE)
  {
  }

  lemma Arrives(start: int, end: int, frequency: int, arrivals: seq<Arrival>, filed: seq<Filed>, a: Arrival, clock: int)
    requires Fits(start, end, frequency, arrivals, filed) && GoesOn(start, end, arrivals, filed, a.refDate, clock)
    ensures var arrivals', more := arrivals + [a], FileFor(frequency, arrivals, filed, a);
      && Fits(start, end, frequency, arrivals', filed + more)
      && (!Stops(end, a) ==> GoesOn(start, end, arrivals', filed + more, a.refDate, if more != [] then a.tick else clock))
      && (Stops(end, a) ==> Leads(start, end, arrivals', a.refDate, Turns(end, a), if Turns(end, a) then a.rollover else a.refDate))
  {
    ChainExtends(start, end, arrivals, a);
    LogExtends(frequency, arrivals, filed, a);
  }

  /** The next stream has made no report yet. */
  lemma Turned(start: int, end: int, frequency: int, arrivals: seq<Arrival>, filed: seq<Filed>, from: int, to: int)
    requires Fits(start, end, frequency, arrivals, filed) && Leads(start, end, arrivals, from, true, to) && from < to
    ensures GoesOn(start, end, arrivals, filed, to, to - MS_PER_MINUTE)
  {
    forall k | 0 <= k < |filed|
      ensures filed[k].refDate != to
    {
      assert arrivals[filed[k].consumed - 1] in arrivals;
    }
    NoneFiled(filed, to, |arrivals|);
  }
}
