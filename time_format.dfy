// The `HH:MM` time-of-day format that the medication schema validates with
// `^([01]\d|2[0-3]):([0-5]\d)$` and that the reminder routes take apart with
// `split(':').map(Number)`.
module TimeFormat {
  import opened Common
  import opened JsText

  /** The schema's regular expression, read character by character: `[01]\d`
      or `2[0-3]`, a colon, `[0-5]\d`, and nothing before or after. */
  predicate IsValidTime(s: string) {
    && |s| == 5
    && (((s[0] == '0' || s[0] == '1') && IsDigit(s[1])) || (s[0] == '2' && '0' <= s[1] <= '3'))
    && s[2] == ':'
    && '0' <= s[3] <= '5' && IsDigit(s[4])
  }

  /** A time that passed the validator. */
  type TimeString = s: string | IsValidTime(s) witness "00:00"

  /** The clock reading hh:mm printed with two digits each. */
  function FormatTime(h: nat, m: nat): string
    requires h < 24 && m < 60
  {
    TwoDigits(h) + ":" + TwoDigits(m)
  }

  /** What the validator is meant to accept: a 24-hour clock reading,
      hour 00–23 and minute 00–59, each as two digits. */
  ghost predicate IsClockReading(s: string) {
    exists h: nat, m: nat :: h < 24 && m < 60 && s == FormatTime(h, m)
  }

  /** `Number(hh)` of a validated time. */
  function Hour(s: string): (h: nat)
    requires IsValidTime(s)
    ensures h < 24
  {
    DigitValue(s[0]) * 10 + DigitValue(s[1])
  }

  /** `Number(mm)` of a validated time. */
  function Minute(s: string): (m: nat)
    requires IsValidTime(s)
    ensures m < 60
  {
    DigitValue(s[3]) * 10 + DigitValue(s[4])
  }

  /** Printing a clock reading gives a string the validator accepts, and
      reading it back gives the same hour and minute. */
  lemma FormatThenParse(h: nat, m: nat)
    requires h < 24 && m < 60
    ensures IsValidTime(FormatTime(h, m))
    ensures Hour(FormatTime(h, m)) == h && Minute(FormatTime(h, m)) == m
  {
    var s := FormatTime(h, m);
    assert s[0] == TwoDigits(h)[0] && s[1] == TwoDigits(h)[1];
    assert s[3] == TwoDigits(m)[0] && s[4] == TwoDigits(m)[1];
  }

  /** A validated time is exactly the printing of its hour and minute. */
  lemma ParseThenFormat(s: string)
    requires IsValidTime(s)
    ensures FormatTime(Hour(s), Minute(s)) == s
  {
    var t := FormatTime(Hour(s), Minute(s));
    assert TwoDigits(Hour(s)) == s[..2];
    assert TwoDigits(Minute(s)) == s[3..];
    assert t == s[..2] + [':'] + s[3..];
  }

  /** The regular expression accepts exactly the two-digit clock readings
      00:00 through 23:59. */
  lemma ValidTimeIsClockReading(s: string)
    ensures IsValidTime(s) <==> IsClockReading(s)
  {
    if IsValidTime(s) {
      ParseThenFormat(s);
    }
    if IsClockReading(s) {
      var h: nat, m: nat :| h < 24 && m < 60 && s == FormatTime(h, m);
      FormatThenParse(h, m);
    }
  }

  /** Examples the validator turns down: an hour past 23, a one-digit hour,
      a missing colon. */
  lemma RejectedExamples()
    ensures !IsValidTime("25:00") && !IsValidTime("9:30") && !IsValidTime("0960")
    ensures IsValidTime("00:00") && IsValidTime("23:59")
  {
  }

  /** On a validated time, `parseInt(time.split(':')[0], 10)` (how the
      dashboard reads the hour) agrees with the validator's hour. */
  lemma ParsedHourOfValidTime(s: string)
    requires IsValidTime(s)
    ensures ParseInt(BeforeColon(s)) == Some(Hour(s))
  {
    var b := BeforeColon(s);
    assert s[0] != ':' && s[1] != ':';
    assert |b| == 2;
    assert b == s[..2] == TwoDigits(Hour(s));
    TwoDigitsValue(Hour(s));
  }
}
