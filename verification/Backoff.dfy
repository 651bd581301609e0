/** Exponential backoff with 20% jitter either way, and how long it keeps a failing event away. */
module Backoff {
  import opened Prelude
  import opened EventTable

  const MAX_EXPONENT := 30

  function Pow2(n: nat): (r: nat)
    ensures r >= 1
  {
    if n == 0 then 1 else 2 * Pow2(n - 1)
  }

  /** `Math.round`: half rounds up. */
  function Round(x: real): int {
    (x + 0.5).Floor
  }

  /** The delay before jitter. */
  function RawMs(attempts: nat, baseMs: nat, capMs: nat): nat {
    Min(baseMs * Pow2(Min(attempts, MAX_EXPONENT)), capMs)
  }

  function Scaled(ms: nat, factor: real): int {
    Round(ms as real * factor)
  }

  /** `random` is `Math.random()`, in [0, 1). */
  function Jitter(random: real): real {
    0.8 + random * 0.4
  }

  function BackoffMs(attempts: nat, baseMs: nat, capMs: nat, random: real): int {
    Scaled(RawMs(attempts, baseMs, capMs), Jitter(random))
  }

  function NextAttemptAt(now: Time, attempts: nat, baseMs: nat, capMs: nat, random: real): Time {
    now + BackoffMs(attempts, baseMs, capMs, random)
  }

  /** The shortest delay an event with so many attempts can get. */
  function LeastMs(attempts: nat, baseMs: nat, capMs: nat): int {
    Scaled(RawMs(attempts, baseMs, capMs), 0.8)
  }

  /** The longest delay anyone can get. */
  function MostMs(capMs: nat): int {
    Scaled(capMs, 1.2)
  }

  lemma ScaleMonotone(a: real, b: real, x: real, y: real)
    requires 0.0 <= a <= b && 0.0 <= x <= y
    ensures 0.0 <= a * x <= b * y
  {
    assert a * x <= a * y;
    assert a * y <= b * y;
  }

  lemma ScaledMonotone(a: nat, b: nat, x: real, y: real)
    requires a <= b && 0.0 <= x <= y
    ensures 0 <= Scaled(a, x) <= Scaled(b, y)
  {
    ScaleMonotone(a as real, b as real, x, y);
  }

  lemma {:induction false} Pow2Monotone(a: nat, b: nat)
    requires a <= b
    ensures Pow2(a) <= Pow2(b)
  {
    if a < b {
      Pow2Monotone(a, b - 1);
    }
  }

  lemma ProductMonotone(a: nat, x: nat, y: nat)
    requires x <= y
    ensures a * x <= a * y
  {
  }

  lemma RawMonotone(a: nat, b: nat, baseMs: nat, capMs: nat)
    requires a <= b
    ensures RawMs(a, baseMs, capMs) <= RawMs(b, baseMs, capMs)
  {
    Pow2Monotone(Min(a, MAX_EXPONENT), Min(b, MAX_EXPONENT));
    ProductMonotone(baseMs, Pow2(Min(a, MAX_EXPONENT)), Pow2(Min(b, MAX_EXPONENT)));
  }

  /**
   A batch is delayed by its largest attempt count: every event of it waits at least its own shortest
   delay and nobody waits longer than 1.2 times the cap.
   */
  lemma DelayBounds(own: nat, most: nat, baseMs: nat, capMs: nat, random: real)
    requires own <= most && 0.0 <= random < 1.0
    ensures LeastMs(own, baseMs, capMs) <= BackoffMs(most, baseMs, capMs, random) <= MostMs(capMs)
    ensures 0 <= LeastMs(own, baseMs, capMs)
  {
    RawMonotone(own, most, baseMs, capMs);
    RawAtMostCap(most, baseMs, capMs);
    JitterBounds(RawMs(own, baseMs, capMs), RawMs(most, baseMs, capMs), capMs, Jitter(random));
  }

  lemma JitterBounds(least: nat, raw: nat, capMs: nat, jitter: real)
    requires least <= raw <= capMs && 0.8 <= jitter <= 1.2
    ensures 0 <= Scaled(least, 0.8) <= Scaled(raw, jitter) <= Scaled(capMs, 1.2)
  {
    ScaledMonotone(least, raw, 0.8, jitter);
    ScaledMonotone(raw, capMs, jitter, 1.2);
  }

  lemma RawAtMostCap(attempts: nat, baseMs: nat, capMs: nat)
    ensures RawMs(attempts, baseMs, capMs) <= capMs
  {
  }

  // ---- how delays grow ----

  /** Two to a number of attempts: one for none, two for one, and a product for a sum. */
  lemma {:induction false} Pow2Sum(a: nat, b: nat)
    ensures Pow2(0) == 1 && Pow2(1) == 2 && Pow2(a + b) == Pow2(a) * Pow2(b)
    decreases b
  {
    if b > 0 {
      Pow2Sum(a, b - 1);
      TwiceProduct(Pow2(a), Pow2(b - 1));
    }
  }

  lemma TwiceProduct(x: nat, y: nat)
    ensures x * (2 * y) == 2 * (x * y)
  {
  }

  lemma RoundIsNearest(x: real)
    ensures x - 0.5 < Round(x) as real <= x + 0.5
  {
  }

  lemma ScaledBetween(ms: nat, jitter: real)
    requires 0.8 <= jitter < 1.2
    ensures Round(0.8 * ms as real) <= Scaled(ms, jitter) <= Round(1.2 * ms as real)
  {
    ScaledMonotone(ms, ms, 0.8, jitter);
    ScaledMonotone(ms, ms, jitter, 1.2);
  }

  /**
   From the base delay on each further attempt doubles the delay, up to the thirtieth and as long as it stays within the
   cap, and jitter moves it by a fifth either way.
   */
  lemma DelayDoubles(attempts: nat, baseMs: nat, capMs: nat, random: real)
    requires attempts <= 30 && baseMs * Pow2(attempts) <= capMs && 0.0 <= random < 1.0
    ensures var ms := (baseMs * Pow2(attempts)) as real;
            Round(0.8 * ms) <= BackoffMs(attempts, baseMs, capMs, random) <= Round(1.2 * ms)
  {
    RawIs(attempts, baseMs, capMs);
    ScaledBetween(RawMs(attempts, baseMs, capMs), Jitter(random));
  }

  lemma RawIs(attempts: nat, baseMs: nat, capMs: nat)
    requires attempts <= 30 && baseMs * Pow2(attempts) <= capMs
    ensures RawMs(attempts, baseMs, capMs) == baseMs * Pow2(attempts)
  {
  }

  /** Past the cap, or the thirtieth attempt, the delay no longer grows. */
  lemma DelayIsCapped(attempts: nat, baseMs: nat, capMs: nat, random: real)
    requires 0.0 <= random < 1.0
    ensures attempts <= 30 && baseMs * Pow2(attempts) >= capMs ==>
              Round(0.8 * capMs as real) <= BackoffMs(attempts, baseMs, capMs, random) <= Round(1.2 * capMs as real)
    ensures attempts >= 30 ==> BackoffMs(attempts, baseMs, capMs, random) == BackoffMs(30, baseMs, capMs, random)
  {
    ScaledBetween(capMs, Jitter(random));
  }

  /** The jitter takes every value from 0.8 up to, but not including, 1.2. */
  lemma JitterCovers(factor: real) returns (random: real)
    requires 0.8 <= factor < 1.2
    ensures 0.0 <= random < 1.0 && Jitter(random) == factor
  {
    random := (factor - 0.8) / 0.4;
  }

  // ---- one event through its failures ----

  /** A claim and the markFailed that ended it. */
  datatype Failure = Failure(claimedAt: Time, failedAt: Time, batchAttempts: nat, random: real, error: string)

  function AfterFailure(r: EventRow, f: Failure, baseMs: nat, capMs: nat): EventRow {
    FailedRow(r, NextAttemptAt(f.failedAt, f.batchAttempts, baseMs, capMs, f.random), f.error)
  }

  /** The row after a sequence of claims, each of a due row and each ended by markFailed. */
  function RowAfterFailures(r: EventRow, fs: seq<Failure>, baseMs: nat, capMs: nat): EventRow
    decreases |fs|
  {
    if fs == [] then r
    else AfterFailure(RowAfterFailures(r, fs[..|fs| - 1], baseMs, capMs), fs[|fs| - 1], baseMs, capMs)
  }

  /** Each claim found the row due, ended after it began, and used at least the row's own attempt count. */
  ghost predicate FailureHistory(r: EventRow, fs: seq<Failure>, baseMs: nat, capMs: nat)
    decreases |fs|
  {
    fs != [] ==>
      var before := RowAfterFailures(r, fs[..|fs| - 1], baseMs, capMs);
      var f := fs[|fs| - 1];
      && FailureHistory(r, fs[..|fs| - 1], baseMs, capMs)
      && IsDue(before, f.claimedAt) && f.claimedAt <= f.failedAt
      && before.attempts <= f.batchAttempts && 0.0 <= f.random < 1.0
  }

  function LeastWait(k: nat, baseMs: nat, capMs: nat): int {
    if k == 0 then 0 else LeastWait(k - 1, baseMs, capMs) + LeastMs(k - 1, baseMs, capMs)
  }

  /**
   An event whose failures all went through markFailed is claimed for its k-th retry no earlier than the
   sum of the k shortest delays after it was received.
   */
  lemma {:induction false} RetriesKeepTheirDistance(id: Id, e: NewEvent, fs: seq<Failure>, baseMs: nat, capMs: nat, claimedAt: Time)
    requires e.status == Pending
    requires FailureHistory(NewRow(id, e), fs, baseMs, capMs)
    requires IsDue(RowAfterFailures(NewRow(id, e), fs, baseMs, capMs), claimedAt)
    ensures RowAfterFailures(NewRow(id, e), fs, baseMs, capMs).attempts == |fs|
    ensures claimedAt >= e.info.receivedAt + LeastWait(|fs|, baseMs, capMs)
    decreases |fs|
  {
    if fs != [] {
      var last := |fs| - 1;
      var f := fs[last];
      RetriesKeepTheirDistance(id, e, fs[..last], baseMs, capMs, f.claimedAt);
      DelayBounds(last, f.batchAttempts, baseMs, capMs, f.random);
    }
  }
}
