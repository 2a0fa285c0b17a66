/** The life of one forwarded message that keeps failing: the chain of records its attempts publish. */
module Retries {
  import opened Wrappers
  import opened Messages

  /** The clock, in nanoseconds, when an attempt starts (after its delay), is marked failed, and is checked for timeout. */
  datatype Attempt = Attempt(start: nat, marked: nat, checked: nat)

  /** The delay at the top of forwardMessage: wait out what is left of the minimum retry interval. */
  function DelayedStart(record: Forwarded, now: nat, minInterval: nat): nat {
    if record.lastFailed != 0 && DurationSinceLastFailure(record, now) < minInterval
    then now + (minInterval - DurationSinceLastFailure(record, now))
    else now
  }

  /** An attempt starts at once, or exactly one interval after the last failure if that has not passed yet. */
  lemma DelayExact(record: Forwarded, now: nat, minInterval: nat)
    ensures var due := record.lastFailed * 1_000_000 + minInterval;
            DelayedStart(record, now, minInterval) == if record.lastFailed == 0 || due <= now then now else due
  {}

  /**
  A failing record is given up exactly when its first failure, this one included, lies
  more than the timeout in the past; otherwise it is retried with this failure as its
  last and the first one unchanged.
  */
  lemma GivenUpIff(record: Forwarded, marked: nat, checked: nat, timeout: nat)
    requires marked >= 1_000_000
    ensures var first := if record.firstFailed == 0 then marked / 1_000_000 else record.firstFailed;
            AfterFailure(record, marked, checked, timeout) ==
            if checked > first * 1_000_000 + timeout then None
            else Some(Forwarded(record.message, first, marked / 1_000_000))
  {}

  /**
  A chain of failing attempts: attempt i starts from records[i], no earlier than the
  delay demands, on a clock that does not run backwards and reads at least one
  millisecond; all but the last are retried.
  */
  ghost predicate IsChain(records: seq<Forwarded>, attempts: seq<Attempt>, minInterval: nat, timeout: nat) {
    && |records| == |attempts|
    && (records != [] ==> records[0] == NewRecord(records[0].message))
    && (forall i :: 0 <= i < |attempts| ==>
          NANOS_PER_MILLI <= attempts[i].start <= attempts[i].marked <= attempts[i].checked)
    && (forall i :: 0 <= i < |attempts| - 1 ==> attempts[i].checked <= attempts[i + 1].start)
    && (forall i :: 0 <= i < |attempts| ==>
          exists now: nat :: now <= attempts[i].start && DelayedStart(records[i], now, minInterval) <= attempts[i].start)
    && (forall i :: 0 <= i < |attempts| - 1 ==>
          AfterFailure(records[i], attempts[i].marked, attempts[i].checked, timeout) == Some(records[i + 1]))
  }

  /** The first failure is remembered unchanged, and consecutive failures are a whole interval apart. */
  lemma {:induction false} ChainSpacing(records: seq<Forwarded>, attempts: seq<Attempt>, minInterval: nat, timeout: nat, k: nat)
    requires IsChain(records, attempts, minInterval, timeout) && 1 <= k < |records|
    ensures records[k].message == records[0].message
    ensures records[k].firstFailed == records[1].firstFailed == records[1].lastFailed > 0
    ensures k > 1 ==> records[k].lastFailed >= records[k - 1].lastFailed + UnixMillis(minInterval)
    ensures records[k].lastFailed >= records[1].firstFailed + (k - 1) * UnixMillis(minInterval)
    ensures (records[k].lastFailed - records[k].firstFailed) * NANOS_PER_MILLI <= timeout
  {
    var r, a := records[k - 1], attempts[k - 1];
    assert AfterFailure(r, a.marked, a.checked, timeout) == Some(records[(k - 1) + 1]);
    assert UnixMillis(a.marked) >= 1;
    if k > 1 {
      ChainSpacing(records, attempts, minInterval, timeout, k - 1);
      assert r.lastFailed != 0;
      MillisAfterDelay(r.lastFailed, minInterval, a.marked);
      OneMore(k - 2, UnixMillis(minInterval));
    }
  }

  lemma OneMore(k: nat, m: nat)
    ensures (k + 1) * m == k * m + m
  {}

  lemma MillisAfterDelay(millis: nat, interval: nat, now: nat)
    requires now >= millis * NANOS_PER_MILLI + interval
    ensures UnixMillis(now) >= millis + UnixMillis(interval)
  {}

  /** Attempts and timeout, multiplied out. */
  lemma ChainFitsTimeout(records: seq<Forwarded>, attempts: seq<Attempt>, minInterval: nat, timeout: nat, m: nat)
    requires IsChain(records, attempts, minInterval, timeout) && m == UnixMillis(minInterval)
    ensures |attempts| >= 2 ==> Fits(|attempts| - 2, m, timeout)
  {
    var n := |attempts|;
    if n >= 2 {
      ChainSpacing(records, attempts, minInterval, timeout, n - 1);
      SpanFits(n - 2, m, records[n - 1].firstFailed, records[n - 1].lastFailed, timeout);
    }
  }

  /** k intervals of m milliseconds fit into a span of milliseconds, and the span into the timeout. */
  ghost predicate Fits(k: nat, m: nat, timeout: nat) {
    exists span: nat :: k * m <= span && span * NANOS_PER_MILLI <= timeout
  }

  lemma SpanFits(k: nat, m: nat, first: nat, last: nat, timeout: nat)
    requires last >= first + k * m && (last - first) * NANOS_PER_MILLI <= timeout
    ensures Fits(k, m, timeout)
  {
    var span := last - first;
    assert k * m <= span;
  }

  /** A message is attempted at most timeout / interval + 2 times, the interval counted in whole milliseconds m. */
  lemma RetryBound(records: seq<Forwarded>, attempts: seq<Attempt>, minInterval: nat, timeout: nat, m: nat)
    requires IsChain(records, attempts, minInterval, timeout) && m == UnixMillis(minInterval) && m >= 1
    ensures |attempts| <= timeout / (m * NANOS_PER_MILLI) + 2
  {
    ChainFitsTimeout(records, attempts, minInterval, timeout, m);
    AttemptsBound(|attempts|, m, timeout);
  }

  lemma AttemptsBound(n: nat, m: nat, timeout: nat)
    requires m >= 1
    requires n >= 2 ==> Fits(n - 2, m, timeout)
    ensures n <= timeout / (m * NANOS_PER_MILLI) + 2
  {
    if n >= 2 {
      var span: nat :| (n - 2) * m <= span && span * NANOS_PER_MILLI <= timeout;
      QuotientBound(n - 2, m, span, timeout);
    } else {
      QuotientBound(0, m, 0, timeout);
    }
  }

  lemma QuotientBound(k: nat, m: nat, span: nat, timeout: nat)
    requires m > 0 && k * m <= span && span * NANOS_PER_MILLI <= timeout
    ensures k <= timeout / (m * NANOS_PER_MILLI)
  {
    var d := m * NANOS_PER_MILLI;
    assert k * d == (k * m) * NANOS_PER_MILLI <= timeout;
    Quotient(k, d, timeout);
  }

  lemma Quotient(k: nat, d: nat, t: nat)
    requires d > 0 && k * d <= t
    ensures k <= t / d
  {
    var q := t / d;
    assert t - q * d < d;
    assert (k - q) * d == k * d - q * d;
    NotPositive(k - q, d);
  }

  lemma NotPositive(x: int, d: nat)
    requires x * d < d
    ensures x <= 0
  {}
}
