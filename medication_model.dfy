// The medication document of medalert-backend/src/models/medication.model.ts:
// required fields, the `trim` setters, the HH:MM validator and the
// timestamps; and `Medication.find({ user })` over the collection.
module MedicationModel {
  import opened Common
  import opened JsText
  import opened TimeFormat

  type UserId = nat
  type MedId = nat

  /** A stored medication. `createdAt`/`updatedAt` come from the schema's
      `timestamps` option. */
  datatype Medication = Medication(
    id: MedId, user: UserId,
    name: string, dosage: string, time: string, frequency: string, notes: Option<string>,
    createdAt: int, updatedAt: int)

  /** The fields of a request body; None is a field that is absent (undefined). */
  datatype MedicationFields = MedicationFields(
    name: Option<string>, dosage: Option<string>, time: Option<string>,
    frequency: Option<string>, notes: Option<string>)

  /** What the schema guarantees of every stored document: name, dosage and
      frequency are non-empty and trimmed, the time passes the HH:MM
      validator, and notes (optional) are trimmed. */
  predicate WellFormed(m: Medication) {
    && m.name != [] && IsTrimmed(m.name)
    && m.dosage != [] && IsTrimmed(m.dosage)
    && m.frequency != [] && IsTrimmed(m.frequency)
    && IsValidTime(m.time)
    && (m.notes.Some? ==> IsTrimmed(m.notes.value))
  }

  /** A `required: true, trim: true` string: present, and not empty once
      the trim setter has run. */
  predicate RequiredTrimmed(v: Option<string>) {
    v.Some? && !AllWhitespace(v.value)
  }

  /** The `time` path: required, and accepted by the HH:MM validator. */
  predicate ValidTimeField(v: Option<string>) {
    v.Some? && IsValidTime(v.value)
  }

  function TrimOption(v: Option<string>): (r: Option<string>)
    ensures r.Some? <==> v.Some?
    ensures r.Some? ==> IsTrimmed(r.value)
  {
    match v
    case None => None
    case Some(s) => Some(Trim(s))
  }

  /** `Medication.create(...)`: the trim setters run, then the required and
      time validators; None is the ValidationError the store throws. */
  function NewMedication(id: MedId, user: UserId, f: MedicationFields, now: int): (r: Option<Medication>)
    ensures r.Some? ==> WellFormed(r.value) && r.value.id == id && r.value.user == user
  {
    if RequiredTrimmed(f.name) && RequiredTrimmed(f.dosage) && RequiredTrimmed(f.frequency)
       && ValidTimeField(f.time)
    then
      Some(Medication(id, user, Trim(f.name.value), Trim(f.dosage.value), f.time.value,
                      Trim(f.frequency.value), TrimOption(f.notes), now, now))
    else None
  }

  /** Creation succeeds exactly when the required fields are non-blank and
      the time is valid; the document then holds the trimmed fields, the
      time as given, and `now` as both timestamps. */
  lemma NewMedicationFields(id: MedId, user: UserId, f: MedicationFields, now: int)
    ensures var r := NewMedication(id, user, f, now);
      && (r.Some? <==>
        RequiredTrimmed(f.name) && RequiredTrimmed(f.dosage) && RequiredTrimmed(f.frequency)
        && ValidTimeField(f.time))
      && (r.Some? ==>
        && r.value.name == Trim(f.name.value) && r.value.dosage == Trim(f.dosage.value)
        && r.value.time == f.time.value && r.value.frequency == Trim(f.frequency.value)
        && r.value.notes == TrimOption(f.notes)
        && r.value.createdAt == now && r.value.updatedAt == now)
  {
  }

  /** A supplied field replaces the stored one; an absent one keeps it. */
  function Replace(current: string, v: Option<string>): (r: string)
    ensures IsTrimmed(current) ==> IsTrimmed(r)
    ensures v.Some? ==> (r == [] <==> AllWhitespace(v.value))
  {
    match v
    case None => current
    case Some(s) => Trim(s)
  }

  /** `findByIdAndUpdate(id, fields, { runValidators: true })`: undefined
      fields are dropped from the update, supplied ones pass through the trim
      setters and the validators of their path; None is the ValidationError. */
  function UpdatedMedication(m: Medication, f: MedicationFields, now: int): (r: Option<Medication>)
    requires WellFormed(m)
    ensures r.Some? <==>
      && (f.name.Some? ==> RequiredTrimmed(f.name))
      && (f.dosage.Some? ==> RequiredTrimmed(f.dosage))
      && (f.frequency.Some? ==> RequiredTrimmed(f.frequency))
      && (f.time.Some? ==> ValidTimeField(f.time))
    ensures r.Some? ==> WellFormed(r.value)
    ensures r.Some? ==>
      && r.value.id == m.id && r.value.user == m.user
      && r.value.createdAt == m.createdAt && r.value.updatedAt == now
    ensures r.Some? ==>
      && r.value.name == Replace(m.name, f.name)
      && r.value.dosage == Replace(m.dosage, f.dosage)
      && r.value.frequency == Replace(m.frequency, f.frequency)
      && r.value.time == f.time.GetOr(m.time)
      && r.value.notes == (if f.notes.Some? then TrimOption(f.notes) else m.notes)
  {
    if && (f.name.Some? ==> RequiredTrimmed(f.name))
       && (f.dosage.Some? ==> RequiredTrimmed(f.dosage))
       && (f.frequency.Some? ==> RequiredTrimmed(f.frequency))
       && (f.time.Some? ==> ValidTimeField(f.time))
    then
      Some(Medication(m.id, m.user, Replace(m.name, f.name), Replace(m.dosage, f.dosage),
                      f.time.GetOr(m.time), Replace(m.frequency, f.frequency),
                      if f.notes.Some? then TrimOption(f.notes) else m.notes,
                      m.createdAt, now))
    else None
  }

  /** `Medication.find({ user })`: the caller's documents in collection order. */
  function OwnedBy(records: seq<Medication>, user: UserId): (r: seq<Medication>)
    ensures |r| <= |records|
    ensures forall m :: m in r <==> m in records && m.user == user
  {
    if records == [] then []
    else
      var rest := OwnedBy(records[..|records| - 1], user);
      var last := records[|records| - 1];
      assert records == records[..|records| - 1] + [last];
      if last.user == user then rest + [last] else rest
  }
}
