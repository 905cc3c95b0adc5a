// The per-day status document of medalert-backend/src/models/medicationStatus.model.ts:
// user, medication and date, the `taken` flag with its default, the
// optional `takenAt`, and the unique compound index on (user, medication, date).
module StatusModel {
  import opened Common
  import opened Clock
  import opened MedicationModel

  /** The fields of the unique compound index. */
  datatype StatusKey = StatusKey(user: UserId, medication: MedId, date: int)

  datatype StatusRow = StatusRow(
    user: UserId, medication: MedId, date: int, taken: bool, takenAt: Option<int>)

  function KeyOf(row: StatusRow): StatusKey {
    StatusKey(row.user, row.medication, row.date)
  }

  /** `new MedicationStatus({...})`: a missing `date` defaults to today at
      midnight, a missing `taken` to false; `takenAt` stays absent unless
      given. */
  function NewStatusRow(user: UserId, medication: MedId, date: Option<int>,
                        taken: Option<bool>, takenAt: Option<int>, now: int): (row: StatusRow)
    ensures row.user == user && row.medication == medication && row.takenAt == takenAt
    ensures date.None? ==> IsMidnight(row.date) && row.date <= now < row.date + DayMs
    ensures date.Some? ==> row.date == date.value
    ensures row.taken <==> taken == Some(true)
  {
    StatusRow(user, medication, date.GetOr(Midnight(now)), taken.GetOr(false), takenAt)
  }

  /** The unique index: every row is filed under its own (user, medication,
      date), so no two stored rows share that triple. */
  ghost predicate UniqueIndex(rows: map<StatusKey, StatusRow>) {
    forall k :: k in rows ==> KeyOf(rows[k]) == k
  }
}
