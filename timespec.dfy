/**
 * `time_diff` of the capture program: the difference of two `struct
 * timespec` values, borrowing one second when the nanoseconds would go
 * negative.
 */
module Timespec {

  import Common

  const NanosPerSecond: int := 1_000_000_000

  /** `struct timespec`: seconds and nanoseconds, not necessarily normalised. */
  datatype Timespec = Timespec(sec: int, nsec: int)

  /** A timespec as the clock delivers it: `0 <= tv_nsec < 10^9`. */
  predicate Normalised(t: Timespec) {
    0 <= t.nsec < NanosPerSecond
  }

  /** The instant a timespec stands for, in nanoseconds. */
  function TotalNanos(t: Timespec): int {
    t.sec * NanosPerSecond + t.nsec
  }

  /** The normalised timespec of a number of nanoseconds. */
  function FromNanos(n: int): (t: Timespec)
    ensures Normalised(t) && TotalNanos(t) == n
  {
    Timespec(n / NanosPerSecond, n % NanosPerSecond)
  }

  /** A normalised timespec is determined by the instant it stands for. */
  lemma NormalisedUnique(t: Timespec)
    requires Normalised(t)
    ensures FromNanos(TotalNanos(t)) == t
  {
    Common.DivModUnique(TotalNanos(t), NanosPerSecond, t.sec, t.nsec);
  }

  /**
   * `time_diff(start, end, result)`: the elapsed time from `start` to
   * `end`. Whatever the inputs, it is exact in nanoseconds; from normalised
   * inputs it is normalised, and it is not negative when `end` is not
   * earlier than `start`.
   */
  function TimeDiff(start: Timespec, end: Timespec): (result: Timespec)
    ensures TotalNanos(result) == TotalNanos(end) - TotalNanos(start)
    ensures Normalised(start) && Normalised(end) ==> Normalised(result)
    ensures Normalised(start) && Normalised(end) && TotalNanos(start) <= TotalNanos(end) ==> result.sec >= 0
  {
    if end.nsec < start.nsec then
      Timespec(end.sec - start.sec - 1, NanosPerSecond - start.nsec + end.nsec)
    else
      Timespec(end.sec - start.sec, end.nsec - start.nsec)
  }

  /** From normalised inputs, `time_diff` computes the normalised form of the elapsed nanoseconds. */
  lemma TimeDiffIsElapsed(start: Timespec, end: Timespec)
    requires Normalised(start) && Normalised(end)
    ensures TimeDiff(start, end) == FromNanos(TotalNanos(end) - TotalNanos(start))
  {
    NormalisedUnique(TimeDiff(start, end));
  }
}
