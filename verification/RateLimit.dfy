/**
 The fixed-window attempt limiter over expiring Redis counters.

 `LimiterStore` is the imperative limiter; `RunCounters` replays any history of calls.
 The lemmas compare the expiring counters with the number of calls that really fell into
 a window. All instants are Unix milliseconds of one non-decreasing clock.
 */
module RateLimit {
  import opened Arithmetic
  import opened Options
  import opened Texts

  const NANOS_PER_MILLI := 1_000_000
  /** Extra life of a counter after its window has ended. */
  const GRACE_MS := 1000

  datatype Counter = Counter(count: nat, expiresAt: Option<int>)

  /** A counter is named by the limiter key and the start of its window. */
  type Counters = map<(string, int), Counter>

  datatype Call = Call(key: string, now: nat)

  function WindowStart(now: nat, windowMs: int): int
    requires windowMs > 0
  {
    now / windowMs * windowMs
  }

  /** Redis drops a key once its expiry has been reached. */
  function Live(counters: Counters, now: int): Counters {
    map k | k in counters && (counters[k].expiresAt.None? || now < counters[k].expiresAt.value) :: counters[k]
  }

  /** INCR followed by PEXPIRE to one second after the end of the window. */
  function Hit(counters: Counters, key: string, now: nat, windowMs: int): Counters
    requires windowMs > 0
  {
    var live := Live(counters, now);
    var bucket := (key, WindowStart(now, windowMs));
    var count := if bucket in live then live[bucket].count + 1 else 1;
    live[bucket := Counter(count, Some(bucket.1 + windowMs + GRACE_MS))]
  }

  function HitCount(counters: Counters, key: string, now: nat, windowMs: int): nat
    requires windowMs > 0
  {
    Hit(counters, key, now, windowMs)[(key, WindowStart(now, windowMs))].count
  }

  /** `DividesByZero` is the run-time panic on a positive window shorter than a millisecond. */
  datatype Verdict = Admitted | Limited | DividesByZero

  class LimiterStore {
    var counters: Counters

    method Increment(bucket: (string, int), now: nat) returns (count: nat)
      modifies this
      ensures var live := Live(old(counters), now);
              && count == (if bucket in live then live[bucket].count + 1 else 1)
              && counters == live[bucket := Counter(count, if bucket in live then live[bucket].expiresAt else None)]
    {
      counters := map k | k in counters && (counters[k].expiresAt.None? || now < counters[k].expiresAt.value)
        :: counters[k];
      count := 1;
      var expiresAt: Option<int> := None;
      if bucket in counters {
        count := counters[bucket].count + 1;
        expiresAt := counters[bucket].expiresAt;
      }
      counters := counters[bucket := Counter(count, expiresAt)];
    }

    /** The window is a duration in nanoseconds, as callers pass it. */
    method EnforceSlidingWindowLimit(key: string, window: int, maxAttempts: int, now: nat) returns (verdict: Verdict)
      modifies this
      ensures var limited := TrimSpace(key) != "" && window > 0 && maxAttempts > 0;
              && (!limited ==> verdict == Admitted && counters == old(counters))
              && (limited && window < NANOS_PER_MILLI ==> verdict == DividesByZero && counters == old(counters))
              && (limited && window >= NANOS_PER_MILLI ==>
                   && counters == Hit(old(counters), key, now, window / NANOS_PER_MILLI)
                   && verdict ==
                        if HitCount(old(counters), key, now, window / NANOS_PER_MILLI) <= maxAttempts then Admitted
                        else Limited)
    {
      if TrimSpace(key) == "" || window <= 0 || maxAttempts <= 0 {
        return Admitted;
      }
      var windowMs := window / NANOS_PER_MILLI;
      if windowMs == 0 {
        return DividesByZero;
      }
      var windowStart := now / windowMs * windowMs;
      var windowEnd := windowStart + windowMs;
      var count := Increment((key, windowStart), now);
      var ttl := windowEnd - now + GRACE_MS;
      if ttl > 0 {
        counters := counters[(key, windowStart) := Counter(count, Some(now + ttl))];
      }
      InsideWindow(now, windowMs);
      verdict := if count > maxAttempts then Limited else Admitted;
    }
  }

  // ---------------------------------------------------------------- histories

  ghost predicate Monotone(calls: seq<Call>) {
    forall i, j :: 0 <= i <= j < |calls| ==> calls[i].now <= calls[j].now
  }

  /** The expiring counters after a whole history of calls. */
  function RunCounters(calls: seq<Call>, windowMs: int): Counters
    requires windowMs > 0
  {
    if calls == [] then map[]
    else
      var last := calls[|calls| - 1];
      Hit(RunCounters(calls[..|calls| - 1], windowMs), last.key, last.now, windowMs)
  }

  /** Whether the limiter admits call number i of the history. */
  predicate Admits(calls: seq<Call>, windowMs: int, maxAttempts: int, i: nat)
    requires windowMs > 0 && i < |calls|
  {
    HitCount(RunCounters(calls[..i], windowMs), calls[i].key, calls[i].now, windowMs) <= maxAttempts
  }

  /** The permanent counter: how many calls of the history fell into the window. */
  function CallsIn(calls: seq<Call>, windowMs: int, bucket: (string, int)): nat
    requires windowMs > 0
  {
    if calls == [] then 0
    else
      var last := calls[|calls| - 1];
      CallsIn(calls[..|calls| - 1], windowMs, bucket)
      + (if (last.key, WindowStart(last.now, windowMs)) == bucket then 1 else 0)
  }

  lemma InsideWindow(now: nat, windowMs: int)
    requires windowMs > 0
    ensures WindowStart(now, windowMs) <= now < WindowStart(now, windowMs) + windowMs
  {
  }

  /** Refinement: every counter that is still alive holds exactly the permanent count, and a window
      whose counter is gone is over, or was never hit. */
  lemma {:induction false} CountersRefineHistory(calls: seq<Call>, windowMs: int, bucket: (string, int))
    requires windowMs > 0 && Monotone(calls) && calls != []
    ensures var counters := RunCounters(calls, windowMs);
            if bucket in counters then
              counters[bucket] == Counter(CallsIn(calls, windowMs, bucket), Some(bucket.1 + windowMs + GRACE_MS))
            else
              CallsIn(calls, windowMs, bucket) == 0 || bucket.1 + windowMs + GRACE_MS <= calls[|calls| - 1].now
    decreases |calls|
  {
    var before, last := calls[..|calls| - 1], calls[|calls| - 1];
    InsideWindow(last.now, windowMs);
    if before != [] {
      assert before[|before| - 1].now <= last.now;
      CountersRefineHistory(before, windowMs, bucket);
    }
  }

  /** The limiter admits exactly the first maxAttempts calls of each aligned window. */
  lemma AdmitsFirstOfWindow(calls: seq<Call>, windowMs: int, maxAttempts: int, i: nat)
    requires windowMs > 0 && Monotone(calls) && i < |calls|
    ensures Admits(calls, windowMs, maxAttempts, i) <==>
      CallsIn(calls[..i + 1], windowMs, (calls[i].key, WindowStart(calls[i].now, windowMs))) <= maxAttempts
  {
    var prefix := calls[..i + 1];
    assert prefix[..|prefix| - 1] == calls[..i];
    InsideWindow(calls[i].now, windowMs);
    CountersRefineHistory(prefix, windowMs, (calls[i].key, WindowStart(calls[i].now, windowMs)));
  }

  /** How many of the first n calls for the key were admitted at instants in [from, from + span]. */
  function AdmittedWithin(
    calls: seq<Call>, windowMs: int, maxAttempts: int, key: string, from: int, span: int, n: nat): nat
    requires windowMs > 0 && n <= |calls|
  {
    if n == 0 then 0
    else
      AdmittedWithin(calls, windowMs, maxAttempts, key, from, span, n - 1)
      + (if calls[n - 1].key == key && from <= calls[n - 1].now <= from + span
            && Admits(calls, windowMs, maxAttempts, n - 1)
         then 1 else 0)
  }

  function Min(a: int, b: int): int {
    if a < b then a else b
  }

  /** An instant in [from, from + windowMs] lies in the window of `from` or in the next one. */
  lemma TwoWindows(from: nat, now: nat, windowMs: int)
    requires windowMs > 0 && from <= now <= from + windowMs
    ensures WindowStart(now, windowMs) == WindowStart(from, windowMs)
         || WindowStart(now, windowMs) == WindowStart(from, windowMs) + windowMs
  {
    DivMonotone(from, now, windowMs);
    DivMonotone(now, from + windowMs, windowMs);
    DivPlusOne(from, windowMs);
    assert (from / windowMs + 1) * windowMs == from / windowMs * windowMs + windowMs;
  }

  lemma {:induction false} AdmittedPerWindow(
    calls: seq<Call>, windowMs: int, maxAttempts: nat, key: string, from: nat, n: nat)
    requires windowMs > 0 && Monotone(calls) && n <= |calls|
    ensures var first := (key, WindowStart(from, windowMs));
            var second := (key, WindowStart(from, windowMs) + windowMs);
            AdmittedWithin(calls, windowMs, maxAttempts, key, from, windowMs, n)
            <= Min(CallsIn(calls[..n], windowMs, first), maxAttempts) +
                Min(CallsIn(calls[..n], windowMs, second), maxAttempts)
  {
    hide WindowStart, Admits;
    if n > 0 {
      AdmittedPerWindow(calls, windowMs, maxAttempts, key, from, n - 1);
      assert calls[..n][..n - 1] == calls[..n - 1];
      AdmitsFirstOfWindow(calls, windowMs, maxAttempts, n - 1);
      if from <= calls[n - 1].now <= from + windowMs {
        TwoWindows(from, calls[n - 1].now, windowMs);
      }
    }
  }

  /** Any interval as long as the window holds at most twice the allowance. */
  lemma AtMostTwiceTheLimit(calls: seq<Call>, windowMs: int, maxAttempts: nat, key: string, from: nat)
    requires windowMs > 0 && Monotone(calls)
    ensures AdmittedWithin(calls, windowMs, maxAttempts, key, from, windowMs, |calls|) <= 2 * maxAttempts
  {
    AdmittedPerWindow(calls, windowMs, maxAttempts, key, from, |calls|);
  }

  // ---------------------------------------------------------------- the bound is reached

  /** maxAttempts calls in the last millisecond of a window, then maxAttempts in the first of the next. */
  function Burst(key: string, windowMs: nat, maxAttempts: nat): seq<Call>
    requires windowMs > 0
  {
    seq(2 * maxAttempts, i => Call(key, if i < maxAttempts then windowMs - 1 else windowMs))
  }

  lemma BurstWindows(windowMs: nat)
    requires windowMs > 0
    ensures WindowStart(windowMs - 1, windowMs) == 0 && WindowStart(windowMs, windowMs) == windowMs
  {
    DivUnique(windowMs - 1, windowMs, 0, windowMs - 1);
    DivUnique(windowMs, windowMs, 1, 0);
  }

  lemma {:induction false} BurstCounts(key: string, windowMs: nat, maxAttempts: nat, n: nat)
    requires windowMs > 0 && n <= 2 * maxAttempts
    ensures CallsIn(Burst(key, windowMs, maxAttempts)[..n], windowMs, (key, 0)) == Min(n, maxAttempts)
    ensures CallsIn(Burst(key, windowMs, maxAttempts)[..n], windowMs, (key, windowMs)) == n - Min(n, maxAttempts)
  {
    if n > 0 {
      var calls := Burst(key, windowMs, maxAttempts);
      BurstCounts(key, windowMs, maxAttempts, n - 1);
      assert calls[..n][..n - 1] == calls[..n - 1];
      BurstWindows(windowMs);
    }
  }

  /** The limiter is a fixed window, not a sliding one: for every limit and window the factor two is
      attained, by 2 * maxAttempts admitted calls within one millisecond. */
  lemma {:induction false} BurstIsAdmitted(key: string, windowMs: nat, maxAttempts: nat, n: nat)
    requires windowMs > 0 && n <= 2 * maxAttempts
    ensures AdmittedWithin(Burst(key, windowMs, maxAttempts), windowMs, maxAttempts, key, windowMs - 1, 1, n) == n
    ensures Monotone(Burst(key, windowMs, maxAttempts))
  {
    hide WindowStart, Admits;
    if n > 0 {
      BurstIsAdmitted(key, windowMs, maxAttempts, n - 1);
      BurstCounts(key, windowMs, maxAttempts, n);
      BurstWindows(windowMs);
      AdmitsFirstOfWindow(Burst(key, windowMs, maxAttempts), windowMs, maxAttempts, n - 1);
    }
  }

  /** A counter is live until the instant of its expiry, and is not changed by living. */
  lemma LiveIff(counters: Counters, now: int, bucket: (string, int))
    ensures bucket in Live(counters, now) <==>
              bucket in counters && forall at :: counters[bucket].expiresAt == Some(at) ==> now < at
    ensures bucket in Live(counters, now) ==> Live(counters, now)[bucket] == counters[bucket]
  {
  }
}
