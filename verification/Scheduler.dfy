/** When the next background refresh of a freshly committed configuration is planned. */
module Scheduler {
  import opened Basics
  import opened Durations
  import opened CertCache

  const FALLBACK: Duration := 5 * SECOND

  /** How long the refresh goroutine asks the timer to sleep. */
  function TimeToRefresh(notAfter: int, now: int, buffer: Duration): Duration {
    var t := Minus(Sub(notAfter, now), buffer);
    if t <= 0 then Minus(Sub(notAfter, now), FALLBACK) else t
  }

  /** A timer set for a non-positive duration fires at once. */
  function WakeUp(notAfter: int, now: int, buffer: Duration): (wake: int)
    ensures now <= wake
  {
    var t := TimeToRefresh(notAfter, now, buffer);
    if t <= 0 then now else now + t
  }

  function Min(a: int, b: int): int { if a < b then a else b }
  function Max(a: int, b: int): int { if a < b then b else a }

  /** The latest acceptable wake-up. */
  function Deadline(notAfter: int, now: int, buffer: Duration): int {
    Max(now, notAfter - Min(buffer, FALLBACK))
  }

  /** None of the 64-bit subtractions saturates or wraps around. */
  predicate StaysInRange(notAfter: int, now: int, buffer: Duration) {
    var left := notAfter - now;
    && MIN_DURATION <= left <= MAX_DURATION
    && MIN_DURATION <= left - buffer <= MAX_DURATION
    && MIN_DURATION <= left - FALLBACK
  }

  /**
   * In range, the wake-up is a buffer before expiry if that lies ahead, else five seconds before
   * expiry if that lies ahead, else at once.
   */
  lemma {:induction false} WakeUpIsExact(notAfter: int, now: int, buffer: Duration)
    requires StaysInRange(notAfter, now, buffer)
    ensures WakeUp(notAfter, now, buffer) ==
      if now < notAfter - buffer then notAfter - buffer
      else if now < notAfter - 5 * SECOND then notAfter - 5 * SECOND
      else now
  {
  }

  /** With the default settings a certificate of one hour is renewed after 55 minutes. */
  lemma {:induction false} HourlyCertificate(now: int, dialsAnyAddress: bool)
    ensures WakeUp(now + 60 * MINUTE, now, Settings(0, 0, dialsAnyAddress).Buffer()) == now + 55 * MINUTE
  {
  }

  /** No wake-up at or after `wake` can find the configuration still too fresh to be renewed. */
  ghost predicate NeverTooEarly(e: Entry, buffer: Duration, wake: int) {
    forall t: int :: wake <= t ==> NeedsRefresh(e, buffer, t, true)
  }

  /**
   * The wake-up meets its deadline exactly when the certificate did not expire so long ago that
   * one of the two 64-bit subtractions wraps around.
   */
  lemma {:induction false} WakeUpMeetsDeadline(notAfter: int, now: int, buffer: Duration)
    requires buffer > 0
    ensures WakeUp(notAfter, now, buffer) <= Deadline(notAfter, now, buffer)
       <==> notAfter - now >= MIN_DURATION + Max(buffer, FALLBACK)
  {
  }

  /**
   * A wake-up is never too early, in either branch, exactly when the remaining lifetime fits a
   * 64-bit duration (or the buffer is the longest duration, so that everything is refreshed).
   */
  lemma {:induction false} WakeUpNeverTooEarly(e: Entry, now: int, buffer: Duration)
    requires buffer > 0 && IsValid(e) && e.done.Some?
    ensures var notAfter := e.cfg.value.notAfter;
      NeverTooEarly(e, buffer, WakeUp(notAfter, now, buffer))
      <==> (notAfter - now <= MAX_DURATION || buffer == MAX_DURATION)
  {
    var notAfter := e.cfg.value.notAfter;
    var wake := WakeUp(notAfter, now, buffer);
    if notAfter - now <= MAX_DURATION || buffer == MAX_DURATION {
      forall t: int | wake <= t
        ensures NeedsRefresh(e, buffer, t, true)
      {
      }
    } else {
      assert !NeedsRefresh(e, buffer, wake, true);
    }
  }
}
