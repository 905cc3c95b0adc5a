// The status handlers of medalert-backend/src/routes/medicationStatus.routes.ts:
// GET /:date? merges the caller's medications with the day's rows, POST
// /toggle finds or creates a row and flips it, PUT /:medicationId finds or
// creates a row and sets it. Requests run one after another.
module StatusRoutes {
  import opened Common
  import opened Clock
  import opened Api
  import opened MedicationModel
  import opened MedicationRoutes
  import opened StatusModel

  /** The `status` half of a GET entry and the body of toggle/PUT replies. */
  datatype StatusView = StatusView(taken: bool, takenAt: Option<int>)

  /** The `medication` half of a GET entry. */
  datatype MedicationSummary = MedicationSummary(
    id: MedId, name: string, dosage: string, time: string, frequency: string, notes: Option<string>)

  datatype StatusEntry = StatusEntry(medication: MedicationSummary, status: StatusView)

  datatype StatusReply = StatusReply(medicationId: MedId, taken: bool, takenAt: Option<int>)

  function Summary(m: Medication): MedicationSummary {
    MedicationSummary(m.id, m.name, m.dosage, m.time, m.frequency, m.notes)
  }

  /** The day a request addresses: its date, or now, set to 00:00:00.000. */
  function DayKey(user: UserId, medication: MedId, date: Option<int>, now: int): (k: StatusKey)
    ensures IsMidnight(k.date) && k.user == user && k.medication == medication
    ensures k.date <= date.GetOr(now) < k.date + DayMs
  {
    StatusKey(user, medication, Midnight(date.GetOr(now)))
  }

  /** Any two instants of one day address the same row. */
  lemma SameDaySameKey(user: UserId, medication: MedId, t1: int, t2: int, now1: int, now2: int)
    requires Midnight(t1) <= t2 < Midnight(t1) + DayMs
    ensures DayKey(user, medication, Some(t1), now1) == DayKey(user, medication, Some(t2), now2)
  {
    SameDaySameMidnight(t1, t2);
  }

  /** `findOne(...)` with the unsaved default for a missing row. */
  function StoredStatus(rows: map<StatusKey, StatusRow>, k: StatusKey): StatusView {
    if k in rows then StatusView(rows[k].taken, rows[k].takenAt)
    else
      var d := NewStatusRow(k.user, k.medication, Some(k.date), Some(false), None, k.date);
      StatusView(d.taken, d.takenAt)
  }

  function Lookup(rows: map<StatusKey, StatusRow>, k: StatusKey): Option<StatusRow> {
    if k in rows then Some(rows[k]) else None
  }

  /** The row POST /toggle leaves for key k: a new row taken now, or the
      existing row flipped, with `takenAt` set exactly when it becomes taken. */
  function ToggledRow(prior: Option<StatusRow>, k: StatusKey, now: int): (row: StatusRow)
    requires prior.Some? ==> KeyOf(prior.value) == k
    ensures KeyOf(row) == k
    ensures row.taken <==> prior.None? || !prior.value.taken
    ensures row.takenAt.Some? <==> row.taken
    ensures row.taken ==> row.takenAt == Some(now)
  {
    match prior
    case None => NewStatusRow(k.user, k.medication, Some(k.date), Some(true), Some(now), now)
    case Some(p) =>
      var taken := !p.taken;
      p.(taken := taken, takenAt := if taken then Some(now) else None)
  }

  /** The row PUT leaves for key k: exactly the requested `taken`, with
      `takenAt` present exactly when taken. */
  function SetRow(prior: Option<StatusRow>, k: StatusKey, taken: bool, now: int): (row: StatusRow)
    requires prior.Some? ==> KeyOf(prior.value) == k
    ensures KeyOf(row) == k && row.taken == taken
    ensures row.takenAt.Some? <==> taken
    ensures taken ==> row.takenAt == Some(now)
  {
    match prior
    case None => NewStatusRow(k.user, k.medication, Some(k.date), Some(taken),
                              if taken then Some(now) else None, now)
    case Some(p) => p.(taken := taken, takenAt := if taken then Some(now) else None)
  }

  /** What every stored row satisfies: filed under its own key, dated at a
      midnight, and `takenAt` present exactly when `taken`. */
  ghost predicate StoreInvariant(rows: map<StatusKey, StatusRow>) {
    && UniqueIndex(rows)
    && (forall k :: k in rows ==> IsMidnight(k.date))
    && (forall k :: k in rows ==> (rows[k].takenAt.Some? <==> rows[k].taken))
  }

  /** Toggling key k through a series of requests at the given instants. */
  function ToggleSeries(rows: map<StatusKey, StatusRow>, k: StatusKey, nows: seq<int>): map<StatusKey, StatusRow>
    requires k in rows ==> KeyOf(rows[k]) == k
    ensures var r := ToggleSeries(rows, k, nows); k in r ==> KeyOf(r[k]) == k
  {
    if nows == [] then rows
    else
      var before := ToggleSeries(rows, k, nows[..|nows| - 1]);
      before[k := ToggledRow(Lookup(before, k), k, nows[|nows| - 1])]
  }

  /** From an absent row, an odd number of toggles leaves it taken and an
      even number (at least two) leaves it not taken with no `takenAt`;
      rows under other keys never change. */
  lemma {:induction false} ToggleParity(rows: map<StatusKey, StatusRow>, k: StatusKey, nows: seq<int>)
    requires k !in rows
    ensures var r := ToggleSeries(rows, k, nows);
      && (k in r <==> nows != [])
      && (k in r ==> (r[k].taken <==> |nows| % 2 == 1) && (r[k].takenAt.Some? <==> r[k].taken))
      && (forall k' :: k' != k ==> (k' in r <==> k' in rows) && (k' in rows ==> r[k'] == rows[k']))
  {
    if nows != [] {
      ToggleParity(rows, k, nows[..|nows| - 1]);
    }
  }

  /** Two toggles from an absent row: not taken, no `takenAt`. */
  lemma ToggleTwiceFromAbsent(rows: map<StatusKey, StatusRow>, k: StatusKey, t1: int, t2: int)
    requires k !in rows
    ensures var r := ToggleSeries(rows, k, [t1, t2]);
      k in r && !r[k].taken && r[k].takenAt.None?
  {
    ToggleParity(rows, k, [t1, t2]);
  }

  /** A toggle on one day leaves the next day's status of the same
      medication as it was: a new day starts from its own row or default. */
  lemma ToggleLeavesNextDay(rows: map<StatusKey, StatusRow>, user: UserId, medication: MedId,
                            t: int, now: int)
    requires StoreInvariant(rows)
    ensures var k := DayKey(user, medication, Some(t), now);
      var next := DayKey(user, medication, Some(t + DayMs), now);
      StoredStatus(rows[k := ToggledRow(Lookup(rows, k), k, now)], next) == StoredStatus(rows, next)
  {
    NextDayIsDifferentDay(t);
  }

  /** Repeating a PUT with the same value stores the same `taken`, and a
      `takenAt` again exactly when taken. */
  lemma SetTwiceSameTaken(prior: Option<StatusRow>, k: StatusKey, taken: bool, t1: int, t2: int)
    requires prior.Some? ==> KeyOf(prior.value) == k
    ensures var once := SetRow(prior, k, taken, t1);
      var twice := SetRow(Some(once), k, taken, t2);
      twice.taken == once.taken == taken && (twice.takenAt.Some? <==> once.takenAt.Some?)
      && twice.(takenAt := None) == once.(takenAt := None)
  {
  }

  class StatusStore {
    /** The medicationstatuses collection, by its unique index. */
    var rows: map<StatusKey, StatusRow>

    ghost predicate Valid()
      reads this
    {
      StoreInvariant(rows)
    }

    constructor ()
      ensures Valid() && rows == map[]
    {
      rows := map[];
    }

    /** GET /:date?: one entry per medication of the caller, in the order
        the medication query returns them, with the stored row's status or
        the unsaved default. Nothing is written. */
    method GetForDay(registry: Registry, user: UserId, date: Option<int>, now: int)
      returns (r: seq<StatusEntry>)
      ensures |r| == |OwnedBy(registry.records, user)|
      ensures forall i :: 0 <= i < |r| ==>
        var m := OwnedBy(registry.records, user)[i];
        var k := DayKey(user, m.id, date, now);
        && r[i].medication == Summary(m)
        && (k in rows ==> r[i].status == StatusView(rows[k].taken, rows[k].takenAt))
        && (k !in rows ==> r[i].status == StatusView(false, None))
      ensures Valid() ==> forall i :: 0 <= i < |r| ==> (r[i].status.takenAt.Some? <==> r[i].status.taken)
    {
      var day := Midnight(date.GetOr(now));
      var meds := OwnedBy(registry.records, user);
      r := [];
      var i := 0;
      while i < |meds|
        invariant 0 <= i <= |meds| && |r| == i
        invariant forall j :: 0 <= j < i ==>
          r[j] == StatusEntry(Summary(meds[j]), StoredStatus(rows, DayKey(user, meds[j].id, date, now)))
      {
        var m := meds[i];
        var k := StatusKey(user, m.id, day);
        var status: StatusView;
        if k in rows {
          status := StatusView(rows[k].taken, rows[k].takenAt);
        } else {
          var d := NewStatusRow(user, m.id, Some(day), Some(false), None, now);
          status := StatusView(d.taken, d.takenAt);
        }
        r := r + [StatusEntry(Summary(m), status)];
        i := i + 1;
      }
    }

    /** POST /toggle: 400 without a medication id (nothing written);
        otherwise the day's row for (caller, medication) is created taken or
        flipped, every other row is kept, and the reply echoes the id and
        the stored row. The medication id is not checked against the
        registry. */
    method Toggle(user: UserId, medicationId: Option<MedId>, date: Option<int>, now: int)
      returns (r: Reply<StatusReply>)
      requires Valid()
      modifies this
      ensures Valid()
      ensures medicationId.None? ==> r == Failed(MissingMedicationId) && rows == old(rows)
      ensures medicationId.Some? ==>
        var k := DayKey(user, medicationId.value, date, now);
        var row := ToggledRow(Lookup(old(rows), k), k, now);
        && rows == old(rows)[k := row]
        && r == Ok(200, StatusReply(medicationId.value, row.taken, row.takenAt))
    {
      if medicationId.None? {
        return Failed(MissingMedicationId);
      }
      var k := StatusKey(user, medicationId.value, Midnight(date.GetOr(now)));
      var row: StatusRow;
      if k in rows {
        var status := rows[k];
        var taken := !status.taken;
        row := status.(taken := taken, takenAt := if taken then Some(now) else None);
      } else {
        row := NewStatusRow(user, medicationId.value, Some(k.date), Some(true), Some(now), now);
      }
      rows := rows[k := row];
      return Ok(200, StatusReply(medicationId.value, row.taken, row.takenAt));
    }

    /** PUT /:medicationId: the day's row for (caller, medication) is
        created or overwritten with exactly `taken`; every other row is kept.
        The medication id is not checked against the registry. */
    method Put(user: UserId, medicationId: MedId, taken: bool, date: Option<int>, now: int)
      returns (r: Reply<StatusReply>)
      requires Valid()
      modifies this
      ensures Valid()
      ensures var k := DayKey(user, medicationId, date, now);
        var row := SetRow(Lookup(old(rows), k), k, taken, now);
        && rows == old(rows)[k := row]
        && r == Ok(200, StatusReply(medicationId, row.taken, row.takenAt))
    {
      var k := StatusKey(user, medicationId, Midnight(date.GetOr(now)));
      var row: StatusRow;
      if k in rows {
        row := rows[k].(taken := taken, takenAt := if taken then Some(now) else None);
      } else {
        row := NewStatusRow(user, medicationId, Some(k.date), Some(taken),
                            if taken then Some(now) else None, now);
      }
      rows := rows[k := row];
      return Ok(200, StatusReply(medicationId, row.taken, row.takenAt));
    }
  }
}
