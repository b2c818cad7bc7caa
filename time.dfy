/**
 * Points in time as JavaScript `Date` values: a millisecond count, or the
 * "Invalid Date" that `new Date(text)` yields for text it cannot parse.
 * A calendar day is taken to be a fixed 86 400 000 ms, starting where the
 * millisecond count is a multiple of it.
 */
module Time {

  const DayMs: int := 86_400_000

  /** The last millisecond of a day, counted from its start (23:59:59.999). */
  const LastMsOfDay: int := 86_399_999

  datatype JsDate = Date(ms: int) | InvalidDate

  /** `d.setHours(0, 0, 0, 0)` on a valid date: the start of its day. */
  function DayStart(ms: int): (r: int)
    ensures r <= ms < r + DayMs
    ensures r % DayMs == 0
  {
    ms - ms % DayMs
  }

  /**
   * The storage layer's window: between `setHours(0, 0, 0, 0)` and
   * `setHours(23, 59, 59, 999)` of `d`, both ends included. Every comparison
   * with an Invalid Date is false, so such a date selects nothing.
   */
  predicate InClosedDay(ts: int, d: JsDate) {
    d.Date? && DayStart(d.ms) <= ts <= DayStart(d.ms) + LastMsOfDay
  }

  /**
   * The admin dashboard's window: from midnight of `d` up to, but not
   * including, midnight of the next day.
   */
  predicate InHalfOpenDay(ts: int, d: JsDate) {
    d.Date? && DayStart(d.ms) <= ts < DayStart(d.ms) + DayMs
  }

  /** On whole milliseconds the two windows are the same: both are the day of `d`. */
  lemma WindowsAgree(ts: int, d: JsDate)
    ensures InClosedDay(ts, d) <==> InHalfOpenDay(ts, d)
    ensures InClosedDay(ts, d) <==> d.Date? && DayStart(ts) == DayStart(d.ms)
  {
    if d.Date? {
      var a, b := DayStart(ts), DayStart(d.ms);
      if a < b { assert ts < b; }
      if b < a { assert a >= b + DayMs; }
    }
  }

  /** The day starting at `k` whole days contains every offset below one day. */
  lemma DayStartOfOffset(k: int, offset: int)
    requires 0 <= offset < DayMs
    ensures DayStart(k * DayMs + offset) == k * DayMs
  {
    var m := k * DayMs + offset;
    var q, r := m / DayMs, m % DayMs;
    assert m == q * DayMs + r;
    assert (q - k) * DayMs == offset - r;
  }
}
