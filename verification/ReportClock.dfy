/** What both calculators' stream loops share: the clock of their reports, and how a pass of the
    loop goes on. */
module ReportClock {
  import opened Instants

  datatype Verdict = Continue | Done | RollOver

  /** The report clock: the start of the second, moved on to the next multiple of five seconds. */
  function Tick(timestamp: int): int {
    var second := timestamp / MS_PER_SECOND * MS_PER_SECOND;
    second + (5 - second / MS_PER_SECOND % 60 % 5) * MS_PER_SECOND
  }

  /** The report clock runs on multiples of five seconds, at most five seconds ahead of the message. */
  lemma TickIsNextMultiple(timestamp: int, bound: int)
    ensures Tick(timestamp) == (timestamp / (5 * MS_PER_SECOND) + 1) * (5 * MS_PER_SECOND)
    ensures bound % (5 * MS_PER_SECOND) == 0 && timestamp < bound ==> Tick(timestamp) <= bound
  {
    var q, r := timestamp / MS_PER_SECOND, timestamp / MS_PER_SECOND % 5;
    assert q % 60 % 5 == r;
    assert q == 5 * (q / 5) + r;
    assert timestamp / (5 * MS_PER_SECOND) == q / 5;
  }
}
