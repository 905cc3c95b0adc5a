// The reminder projection of medalert-backend/src/routes/reminder.routes.ts:
// the next occurrence of a time of day, and the `/upcoming` and `/today`
// lists built from every (medication, scheduled time) pair and sorted by
// instant. `now` is the one reading of the server clock the request uses.
module Reminders {
  import opened Clock
  import opened TimeFormat
  import opened Sorting

  /** A medication as the reminder routes read it: `_id`, `name`, `dose` and
      a `schedule` of validated HH:MM times. */
  datatype ScheduledMedication = ScheduledMedication(
    id: nat, name: string, dose: string, schedule: seq<TimeString>)

  datatype UpcomingReminder = UpcomingReminder(
    medicationId: nat, medicationName: string, dose: string, time: string, nextOccurrence: int)

  datatype TodayReminder = TodayReminder(
    medicationId: nat, medicationName: string, dose: string, time: string,
    reminderTime: int, isPast: bool)

  /** Today's slot for `time`: hh:mm with zero seconds on the day of `now`. */
  function TodaySlot(time: TimeString, now: int): int {
    AtTimeOfDay(now, Hour(time), Minute(time))
  }

  /** getNextOccurrence: today at hh:mm, or tomorrow when that is not after
      now. The result is the one instant after now and at most a day later
      whose time of day is hh:mm:00.000. */
  function NextOccurrence(time: TimeString, now: int): (r: int)
    ensures now < r <= now + DayMs
    ensures r % DayMs == (Hour(time) * 60 + Minute(time)) * MinuteMs
  {
    var slot := TodaySlot(time, now);
    OffsetIntoDay(Midnight(now), (Hour(time) * 60 + Minute(time)) * MinuteMs);
    if slot <= now then slot + DayMs else slot
  }

  /** When today's slot is exactly now, the comparison `<=` sends it to
      tomorrow. */
  lemma SlotAtNowMovesToTomorrow(time: TimeString, now: int)
    requires TodaySlot(time, now) == now
    ensures NextOccurrence(time, now) == now + DayMs
  {
  }

  /** The contract of NextOccurrence fixes its result: no other instant in
      (now, now + 1 day] has the same time of day. */
  lemma NextOccurrenceUnique(time: TimeString, now: int, r: int)
    requires now < r <= now + DayMs
    requires r % DayMs == (Hour(time) * 60 + Minute(time)) * MinuteMs
    ensures r == NextOccurrence(time, now)
  {
    var n := NextOccurrence(time, now);
    var off := (Hour(time) * 60 + Minute(time)) * MinuteMs;
    assert r == r / DayMs * DayMs + off;
    assert n == n / DayMs * DayMs + off;
    var d := r / DayMs - n / DayMs;
    assert r - n == d * DayMs;
  }

  // ----- /upcoming -----

  function UpcomingEntry(m: ScheduledMedication, time: TimeString, now: int): UpcomingReminder {
    UpcomingReminder(m.id, m.name, m.dose, time, NextOccurrence(time, now))
  }

  /** The entries the inner loop pushes for one medication's times. */
  function UpcomingFor(m: ScheduledMedication, times: seq<TimeString>, now: int): seq<UpcomingReminder> {
    if times == [] then []
    else
      var t := times[|times| - 1];
      UpcomingFor(m, times[..|times| - 1], now)
        + (if NextOccurrence(t, now) <= now + DayMs then [UpcomingEntry(m, t, now)] else [])
  }

  /** The entries both loops push, before sorting. */
  function UpcomingList(meds: seq<ScheduledMedication>, now: int): seq<UpcomingReminder> {
    if meds == [] then []
    else
      var m := meds[|meds| - 1];
      UpcomingList(meds[..|meds| - 1], now) + UpcomingFor(m, m.schedule, now)
  }

  /** Total number of (medication, scheduled time) pairs. */
  function SlotCount(meds: seq<ScheduledMedication>): nat {
    if meds == [] then 0 else SlotCount(meds[..|meds| - 1]) + |meds[|meds| - 1].schedule|
  }

  /** With a single clock reading the 24-hour filter never drops anything:
      every pair yields one entry, in loop order, at its next occurrence. */
  lemma {:induction false} UpcomingForIsEveryTime(m: ScheduledMedication, times: seq<TimeString>, now: int)
    ensures |UpcomingFor(m, times, now)| == |times|
    ensures forall k :: 0 <= k < |times| ==> UpcomingFor(m, times, now)[k] == UpcomingEntry(m, times[k], now)
  {
    if times != [] {
      UpcomingForIsEveryTime(m, times[..|times| - 1], now);
    }
  }

  lemma {:induction false} UpcomingListCoversAllSlots(meds: seq<ScheduledMedication>, now: int)
    ensures |UpcomingList(meds, now)| == SlotCount(meds)
    ensures forall x :: x in UpcomingList(meds, now) ==> now < x.nextOccurrence <= now + DayMs
  {
    if meds != [] {
      var m := meds[|meds| - 1];
      UpcomingListCoversAllSlots(meds[..|meds| - 1], now);
      UpcomingForIsEveryTime(m, m.schedule, now);
    }
  }

  function NextOccurrenceKey(r: UpcomingReminder): int { r.nextOccurrence }

  /** GET /upcoming: one entry per pushed reminder, sorted by next occurrence. */
  method Upcoming(meds: seq<ScheduledMedication>, now: int) returns (r: seq<UpcomingReminder>)
    ensures multiset(r) == multiset(UpcomingList(meds, now))
    ensures SortedBy(r, NextOccurrenceKey)
    ensures |r| == SlotCount(meds)
    ensures forall x :: x in r ==> now < x.nextOccurrence <= now + DayMs
  {
    var tomorrow := now + DayMs;
    var list: seq<UpcomingReminder> := [];
    var i := 0;
    while i < |meds|
      invariant 0 <= i <= |meds|
      invariant list == UpcomingList(meds[..i], now)
    {
      var m := meds[i];
      var j := 0;
      while j < |m.schedule|
        invariant 0 <= j <= |m.schedule|
        invariant list == UpcomingList(meds[..i], now) + UpcomingFor(m, m.schedule[..j], now)
      {
        var t := m.schedule[j];
        var next := NextOccurrence(t, now);
        if next <= tomorrow {
          list := list + [UpcomingReminder(m.id, m.name, m.dose, t, next)];
        }
        assert m.schedule[..j + 1][..j] == m.schedule[..j];
        j := j + 1;
      }
      assert meds[..i + 1][..i] == meds[..i];
      assert m.schedule[..j] == m.schedule;
      i := i + 1;
    }
    assert meds[..i] == meds;
    r := SortedCopy(list, NextOccurrenceKey);
    UpcomingListCoversAllSlots(meds, now);
    assert |r| == |list| by { assert |multiset(r)| == |multiset(list)|; }
    forall x | x in r ensures now < x.nextOccurrence <= now + DayMs {
      assert x in multiset(list);
    }
  }

  // ----- /today -----

  /** An entry of `/today` on now's day at its own hh:mm with zero seconds,
      past exactly when that instant is before now. */
  predicate PlacedToday(x: TodayReminder, now: int) {
    && IsValidTime(x.time)
    && Midnight(x.reminderTime) == Midnight(now)
    && x.reminderTime % DayMs == (Hour(x.time) * 60 + Minute(x.time)) * MinuteMs
    && (x.isPast <==> x.reminderTime < now)
  }

  /** The entry carries the fields of a medication of the list and one of its
      scheduled times. */
  ghost predicate FromSchedule(x: TodayReminder, meds: seq<ScheduledMedication>) {
    exists k :: 0 <= k < |meds| && x.medicationId == meds[k].id && x.medicationName == meds[k].name
      && x.dose == meds[k].dose && x.time in meds[k].schedule
  }

  function TodayEntry(m: ScheduledMedication, time: TimeString, now: int): (e: TodayReminder)
    ensures e.medicationId == m.id && e.medicationName == m.name && e.dose == m.dose && e.time == time
    ensures PlacedToday(e, now)
  {
    var at := TodaySlot(time, now);
    SameDaySameMidnight(now, at);
    TodayReminder(m.id, m.name, m.dose, time, at, at < now)
  }

  function TodayFor(m: ScheduledMedication, times: seq<TimeString>, now: int): seq<TodayReminder> {
    if times == [] then []
    else TodayFor(m, times[..|times| - 1], now) + [TodayEntry(m, times[|times| - 1], now)]
  }

  function TodayList(meds: seq<ScheduledMedication>, now: int): seq<TodayReminder> {
    if meds == [] then []
    else
      var m := meds[|meds| - 1];
      TodayList(meds[..|meds| - 1], now) + TodayFor(m, m.schedule, now)
  }

  /** The inner loop pushes one entry per scheduled time, in schedule order. */
  lemma {:induction false} TodayForIsEveryTime(m: ScheduledMedication, times: seq<TimeString>, now: int)
    ensures |TodayFor(m, times, now)| == |times|
    ensures forall k :: 0 <= k < |times| ==> TodayFor(m, times, now)[k] == TodayEntry(m, times[k], now)
  {
    if times != [] {
      TodayForIsEveryTime(m, times[..|times| - 1], now);
    }
  }

  /** Every entry for one medication is placed today at one of its times. */
  lemma TodayForShape(m: ScheduledMedication, times: seq<TimeString>, now: int)
    ensures |TodayFor(m, times, now)| == |times|
    ensures forall x :: x in TodayFor(m, times, now) ==>
      && PlacedToday(x, now) && x.time in times
      && x.medicationId == m.id && x.medicationName == m.name && x.dose == m.dose
  {
    TodayForIsEveryTime(m, times, now);
    var r := TodayFor(m, times, now);
    forall x | x in r
      ensures PlacedToday(x, now) && x.time in times
      ensures x.medicationId == m.id && x.medicationName == m.name && x.dose == m.dose
    {
      var k :| 0 <= k < |r| && r[k] == x;
      assert x == TodayEntry(m, times[k], now);
    }
  }

  /** Every (medication, time) pair yields one entry, each placed today at
      its hh:mm and carrying its medication's fields. */
  lemma {:induction false} TodayListShape(meds: seq<ScheduledMedication>, now: int)
    ensures |TodayList(meds, now)| == SlotCount(meds)
    ensures forall x :: x in TodayList(meds, now) ==> PlacedToday(x, now) && FromSchedule(x, meds)
  {
    if meds != [] {
      var init := meds[..|meds| - 1];
      var m := meds[|meds| - 1];
      TodayListShape(init, now);
      TodayForShape(m, m.schedule, now);
      forall x | x in TodayList(meds, now) ensures PlacedToday(x, now) && FromSchedule(x, meds) {
        if x in TodayList(init, now) {
          var k :| 0 <= k < |init| && x.medicationId == init[k].id && x.medicationName == init[k].name
            && x.dose == init[k].dose && x.time in init[k].schedule;
          assert init[k] == meds[k];
        } else {
          assert x in TodayFor(m, m.schedule, now);
          assert meds[|meds| - 1] == m;
        }
      }
    }
  }

  function ReminderTimeKey(r: TodayReminder): int { r.reminderTime }

  /** GET /today: one entry per (medication, time) on today's date, sorted by
      reminder time. */
  method Today(meds: seq<ScheduledMedication>, now: int) returns (r: seq<TodayReminder>)
    ensures multiset(r) == multiset(TodayList(meds, now))
    ensures SortedBy(r, ReminderTimeKey)
    ensures |r| == SlotCount(meds)
    ensures forall x :: x in r ==> PlacedToday(x, now) && FromSchedule(x, meds)
  {
    var today := Midnight(now);
    var list: seq<TodayReminder> := [];
    var i := 0;
    while i < |meds|
      invariant 0 <= i <= |meds|
      invariant list == TodayList(meds[..i], now)
    {
      var m := meds[i];
      var j := 0;
      while j < |m.schedule|
        invariant 0 <= j <= |m.schedule|
        invariant list == TodayList(meds[..i], now) + TodayFor(m, m.schedule[..j], now)
      {
        var t := m.schedule[j];
        var at := today + (Hour(t) * 60 + Minute(t)) * MinuteMs;
        list := list + [TodayReminder(m.id, m.name, m.dose, t, at, at < now)];
        assert m.schedule[..j + 1][..j] == m.schedule[..j];
        j := j + 1;
      }
      assert meds[..i + 1][..i] == meds[..i];
      assert m.schedule[..j] == m.schedule;
      i := i + 1;
    }
    assert meds[..i] == meds;
    r := SortedCopy(list, ReminderTimeKey);
    TodayListShape(meds, now);
    assert |r| == |list| by { assert |multiset(r)| == |multiset(list)|; }
    forall x | x in r ensures PlacedToday(x, now) && FromSchedule(x, meds) {
      assert x in multiset(list);
    }
  }

  /** `list.sort(...)` on a fresh array holding the list. */
  method SortedCopy<T>(list: seq<T>, key: T -> int) returns (r: seq<T>)
    ensures multiset(r) == multiset(list)
    ensures SortedBy(r, key)
  {
    var a := new T[|list|](k requires 0 <= k < |list| => list[k]);
    assert a[..] == list;
    SortByKey(a, key);
    r := a[..];
  }
}
