// Instants are integer milliseconds on the server's or browser's local
// clock. Time zones and daylight-saving shifts are not modelled: every day
// is 86,400,000 ms long.
module Clock {

  const MinuteMs: int := 60_000
  const DayMs: int := 86_400_000

  /** `d.setHours(0, 0, 0, 0)`: the start of the day holding instant t. */
  function Midnight(t: int): (d: int)
    ensures d <= t < d + DayMs
    ensures d % DayMs == 0
  {
    t - t % DayMs
  }

  predicate IsMidnight(t: int) { t % DayMs == 0 }

  /** Two instants of the same day map to the same midnight, and a midnight
      is its own day key. */
  lemma SameDaySameMidnight(t1: int, t2: int)
    requires Midnight(t1) <= t2 < Midnight(t1) + DayMs
    ensures Midnight(t2) == Midnight(t1)
  {
    var d := Midnight(t1);
    assert (t2 - d) % DayMs == t2 - d;
    assert t2 % DayMs == t2 - d by {
      assert t2 == d / DayMs * DayMs + (t2 - d);
    }
  }

  lemma MidnightOfMidnight(t: int)
    ensures Midnight(Midnight(t)) == Midnight(t)
  {
    SameDaySameMidnight(t, Midnight(t));
  }

  /** Instants on different sides of a midnight get different day keys. */
  lemma NextDayIsDifferentDay(t: int)
    ensures Midnight(t + DayMs) == Midnight(t) + DayMs
  {
    SameDaySameMidnight(Midnight(t) + DayMs, t + DayMs);
  }

  /** An instant `off` milliseconds into a day, or into the day after,
      keeps `off` as its time of day. */
  lemma OffsetIntoDay(d: int, off: int)
    requires d % DayMs == 0 && 0 <= off < DayMs
    ensures (d + off) % DayMs == off
    ensures (d + DayMs + off) % DayMs == off
  {
    var q := d / DayMs;
    assert d + off == q * DayMs + off;
    assert d + DayMs + off == (q + 1) * DayMs + off;
  }

  /** `new Date(dayOf(t)).setHours(h, m, 0, 0)`: hh:mm on the day of t. */
  function AtTimeOfDay(t: int, h: nat, m: nat): (r: int)
    requires h < 24 && m < 60
    ensures Midnight(t) <= r < Midnight(t) + DayMs
    ensures r % MinuteMs == 0
    ensures r % DayMs == (h * 60 + m) * MinuteMs
  {
    var minutes := h * 60 + m;
    OffsetIntoDay(Midnight(t), minutes * MinuteMs);
    WholeMinutes(Midnight(t), minutes);
    Midnight(t) + minutes * MinuteMs
  }

  /** A whole number of minutes after a midnight is a whole minute. */
  lemma WholeMinutes(d: int, minutes: int)
    requires d % DayMs == 0
    ensures (d + minutes * MinuteMs) % MinuteMs == 0
  {
    var q := d / DayMs * 1440 + minutes;
    assert d + minutes * MinuteMs == q * MinuteMs;
  }
}
