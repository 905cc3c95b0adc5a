// The hour bands the dashboards and the add-medication wizard sort a
// medication into: `getTimeOfDay` in medalert-assist/src/components/MedicationDashboard.tsx
// and the same classification inside `handleTimeChange` in
// src/components/AddMedicationForm.tsx.
module DayParts {
  import opened Common
  import opened JsText
  import opened TimeFormat

  datatype TimeOfDay = Morning | Afternoon | Evening | Night

  /** The band of a parsed hour; NaN (None) fails every comparison and
      falls through to night, like any hour outside 5..20. */
  function Band(hour: Option<int>): TimeOfDay {
    if hour.None? then Night
    else if 5 <= hour.value < 12 then Morning
    else if 12 <= hour.value < 17 then Afternoon
    else if 17 <= hour.value < 21 then Evening
    else Night
  }

  /** `parseInt(time.split(':')[0], 10)` followed by the band checks. */
  function GetTimeOfDay(time: string): TimeOfDay {
    Band(ParseInt(BeforeColon(time)))
  }

  /** On a validated time the band is decided by its hour alone:
      05–11 morning, 12–16 afternoon, 17–20 evening, 21–04 night. */
  lemma TimeOfDayOfValidTime(time: string)
    requires IsValidTime(time)
    ensures GetTimeOfDay(time) == Morning <==> 5 <= Hour(time) < 12
    ensures GetTimeOfDay(time) == Afternoon <==> 12 <= Hour(time) < 17
    ensures GetTimeOfDay(time) == Evening <==> 17 <= Hour(time) < 21
    ensures GetTimeOfDay(time) == Night <==> Hour(time) < 5 || 21 <= Hour(time)
  {
    ParsedHourOfValidTime(time);
  }

  /** The same, stated for the printed clock reading hh:mm. */
  lemma TimeOfDayOfClock(h: nat, m: nat)
    requires h < 24 && m < 60
    ensures GetTimeOfDay(FormatTime(h, m)) == Band(Some(h))
  {
    FormatThenParse(h, m);
    TimeOfDayOfValidTime(FormatTime(h, m));
  }

  /** A time whose hour part holds no digits is filed under night. */
  lemma NonNumericIsNight(time: string)
    requires forall k :: 0 <= k < |time| ==> !IsDigit(time[k])
    ensures GetTimeOfDay(time) == Night
  {
    var b := BeforeColon(time);
    var t := b[LeadingSpace(b)..];
    var rest := if |t| > 0 && (t[0] == '-' || t[0] == '+') then t[1..] else t;
    assert forall k :: 0 <= k < |b| ==> !IsDigit(b[k]) by {
      forall k | 0 <= k < |b| ensures !IsDigit(b[k]) { assert b[k] == time[k]; }
    }
    assert forall k :: 0 <= k < |rest| ==> !IsDigit(rest[k]);
    assert DigitPrefix(rest) == [];
  }

  /** The times of the demo and initial dashboard lists land in the four
      bands in order. */
  lemma BandExamples()
    ensures GetTimeOfDay("08:00") == Morning && GetTimeOfDay("12:00") == Afternoon
    ensures GetTimeOfDay("18:00") == Evening && GetTimeOfDay("22:00") == Night
  {
    TimeOfDayOfValidTime("08:00");
    TimeOfDayOfValidTime("12:00");
    TimeOfDayOfValidTime("18:00");
    TimeOfDayOfValidTime("22:00");
  }
}
