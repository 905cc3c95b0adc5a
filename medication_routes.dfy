// The medication registry behind medalert-backend/src/routes/medication.routes.ts:
// the caller-scoped list, create, get, update and delete handlers over the
// medications collection, with their checks in the order the handlers make
// them.
module MedicationRoutes {
  import opened Common
  import opened JsText
  import opened TimeFormat
  import opened Api
  import opened Sorting
  import opened MedicationModel

  /** The express-validator chain of POST /api/meds, in declaration order:
      `notEmpty` on name and dosage, the HH:MM pattern on time, `notEmpty`
      on frequency. An absent field is checked as the empty string. */
  function RequestErrors(f: MedicationFields): (errs: seq<Field>)
    ensures NameField in errs <==> f.name.GetOr("") == ""
    ensures DosageField in errs <==> f.dosage.GetOr("") == ""
    ensures TimeField in errs <==> !IsValidTime(f.time.GetOr(""))
    ensures FrequencyField in errs <==> f.frequency.GetOr("") == ""
  {
    (if f.name.GetOr("") == "" then [NameField] else [])
    + (if f.dosage.GetOr("") == "" then [DosageField] else [])
    + (if IsValidTime(f.time.GetOr("")) then [] else [TimeField])
    + (if f.frequency.GetOr("") == "" then [FrequencyField] else [])
  }

  /** A create request that passes the validator chain still fails in the
      store exactly when name, dosage or frequency is only white space: the
      chain's `notEmpty` accepts "  ", the schema's trim then leaves "". */
  lemma CreateAcceptedIff(f: MedicationFields)
    ensures (RequestErrors(f) == [] && NewMedication(0, 0, f, 0).Some?) <==>
      RequiredTrimmed(f.name) && RequiredTrimmed(f.dosage) && RequiredTrimmed(f.frequency)
      && ValidTimeField(f.time)
  {
    if RequiredTrimmed(f.name) && RequiredTrimmed(f.dosage) && RequiredTrimmed(f.frequency)
       && ValidTimeField(f.time) {
      assert f.name.value != "" by { assert !AllWhitespace(f.name.value); }
      assert f.dosage.value != "" by { assert !AllWhitespace(f.dosage.value); }
      assert f.frequency.value != "" by { assert !AllWhitespace(f.frequency.value); }
      var errs := RequestErrors(f);
      assert forall x :: x !in errs by {
        forall x ensures x !in errs { match x case NameField => case DosageField => case TimeField => case FrequencyField => }
      }
      assert errs == [];
    }
  }

  /** Sort key for `.sort({ createdAt: -1 })`: newest first. */
  function NewestFirst(m: Medication): int { -m.createdAt }

  /** Ids are unique (the `_id` index), all below the next id to hand out,
      and every document satisfies the schema. */
  ghost predicate CollectionInvariant(records: seq<Medication>, nextId: MedId) {
    && (forall i, j :: 0 <= i < j < |records| ==> records[i].id != records[j].id)
    && (forall i :: 0 <= i < |records| ==> records[i].id < nextId)
    && (forall i :: 0 <= i < |records| ==> WellFormed(records[i]))
  }

  lemma AppendKeepsInvariant(records: seq<Medication>, nextId: MedId, m: Medication)
    requires CollectionInvariant(records, nextId)
    requires m.id == nextId && WellFormed(m)
    ensures CollectionInvariant(records + [m], nextId + 1)
  {
    var rs := records + [m];
    forall i | 0 <= i < |rs| ensures rs[i].id < nextId + 1 && WellFormed(rs[i]) {
      if i < |records| { assert rs[i] == records[i]; }
    }
    forall i, j | 0 <= i < j < |rs| ensures rs[i].id != rs[j].id {
      assert rs[i] == records[i];
      if j < |records| { assert rs[j] == records[j]; }
    }
  }

  lemma ReplaceKeepsInvariant(records: seq<Medication>, nextId: MedId, i: nat, m: Medication)
    requires CollectionInvariant(records, nextId)
    requires i < |records| && m.id == records[i].id && WellFormed(m)
    ensures CollectionInvariant(records[i := m], nextId)
  {
  }

  /** The collection without its i-th document. */
  function RemoveAt(records: seq<Medication>, i: nat): (rs: seq<Medication>)
    requires i < |records|
    ensures |rs| == |records| - 1
    ensures forall k :: 0 <= k < i ==> rs[k] == records[k]
    ensures forall k :: i <= k < |rs| ==> rs[k] == records[k + 1]
  {
    records[..i] + records[i + 1..]
  }

  lemma RemoveKeepsInvariant(records: seq<Medication>, nextId: MedId, i: nat)
    requires CollectionInvariant(records, nextId)
    requires i < |records|
    ensures CollectionInvariant(RemoveAt(records, i), nextId)
    ensures forall k :: 0 <= k < |records| - 1 ==> RemoveAt(records, i)[k].id != records[i].id
  {
    var rs := RemoveAt(records, i);
    forall p, q | 0 <= p < q < |rs| ensures rs[p].id != rs[q].id {
      var p', q' := if p < i then p else p + 1, if q < i then q else q + 1;
      assert rs[p] == records[p'] && rs[q] == records[q'];
    }
  }

  /** With unique ids, at most one position holds a given id. */
  lemma IdPosition(records: seq<Medication>, nextId: MedId, i: nat)
    requires CollectionInvariant(records, nextId)
    requires i < |records|
    ensures forall k :: 0 <= k < |records| && records[k].id == records[i].id ==> k == i
  {
  }

  class Registry {
    /** The medications collection, in insertion order. */
    var records: seq<Medication>
    /** The id the next created document receives. */
    var nextId: MedId

    ghost predicate Valid()
      reads this
    {
      CollectionInvariant(records, nextId)
    }

    constructor ()
      ensures Valid() && records == [] && nextId == 0
    {
      records := [];
      nextId := 0;
    }

    /** `Medication.findById(id)`: the position of the document with that id. */
    method FindById(id: MedId) returns (idx: Option<nat>)
      ensures idx.Some? ==> idx.value < |records| && records[idx.value].id == id
      ensures idx.None? ==> forall i :: 0 <= i < |records| ==> records[i].id != id
    {
      var i := 0;
      while i < |records|
        invariant 0 <= i <= |records|
        invariant forall k :: 0 <= k < i ==> records[k].id != id
      {
        if records[i].id == id {
          return Some(i);
        }
        i := i + 1;
      }
      return None;
    }

    /** GET /api/meds: the caller's medications, newest first. */
    method List(user: UserId) returns (r: seq<Medication>)
      ensures multiset(r) == multiset(OwnedBy(records, user))
      ensures SortedBy(r, NewestFirst)
      ensures forall m :: m in r ==> m.user == user && m in records
    {
      var mine: seq<Medication> := [];
      var i := 0;
      while i < |records|
        invariant 0 <= i <= |records|
        invariant mine == OwnedBy(records[..i], user)
      {
        assert records[..i + 1][..i] == records[..i];
        if records[i].user == user {
          mine := mine + [records[i]];
        }
        i := i + 1;
      }
      assert records[..i] == records;
      var a := new Medication[|mine|](k requires 0 <= k < |mine| => mine[k]);
      assert a[..] == mine;
      SortByKey(a, NewestFirst);
      r := a[..];
      forall m | m in r ensures m.user == user && m in records {
        assert m in multiset(mine);
      }
    }

    /** GET /api/meds/:id: 404 for an unknown id, then 401 for another
        user's medication; the document itself only for its owner. */
    method Get(user: UserId, id: MedId) returns (r: Reply<Medication>)
      requires Valid()
      ensures (forall i :: 0 <= i < |records| ==> records[i].id != id) ==> r == Failed(NotFound)
      ensures forall i :: 0 <= i < |records| && records[i].id == id && records[i].user != user ==>
        r == Failed(NotAuthorized)
      ensures forall i :: 0 <= i < |records| && records[i].id == id && records[i].user == user ==>
        r == Ok(200, records[i])
      ensures r.Ok? ==> r.code == 200 && r.body in records && r.body.id == id && r.body.user == user
    {
      var idx := FindById(id);
      if idx.None? {
        return Failed(NotFound);
      }
      var m := records[idx.value];
      IdPosition(records, nextId, idx.value);
      if m.user != user {
        return Failed(NotAuthorized);
      }
      return Ok(200, m);
    }

    /** POST /api/meds. */
    method Create(user: UserId, f: MedicationFields, now: int) returns (r: Reply<Medication>)
      requires Valid()
      modifies this
      ensures Valid()
      ensures RequestErrors(f) != [] ==>
        r == Failed(Invalid(RequestErrors(f))) && records == old(records) && nextId == old(nextId)
      ensures RequestErrors(f) == [] && NewMedication(old(nextId), user, f, now).None? ==>
        r == Failed(ServerError) && records == old(records) && nextId == old(nextId)
      ensures RequestErrors(f) == [] && NewMedication(old(nextId), user, f, now).Some? ==>
        var m := NewMedication(old(nextId), user, f, now).value;
        && r == Ok(201, m) && m.user == user
        && records == old(records) + [m] && nextId == old(nextId) + 1
    {
      var errs := RequestErrors(f);
      if errs != [] {
        return Failed(Invalid(errs));
      }
      var created := NewMedication(nextId, user, f, now);
      if created.None? {
        return Failed(ServerError);
      }
      var m := created.value;
      assert m.id == nextId && m.user == user && WellFormed(m);
      AppendKeepsInvariant(records, nextId, m);
      records := records + [m];
      nextId := nextId + 1;
      return Ok(201, m);
    }

    /** PUT /api/meds/:id: 404, then 401, then 400 for a supplied time that
        fails the pattern; only then the update, which the store can still
        reject. Every rejection leaves the collection as it was. */
    method Update(user: UserId, id: MedId, f: MedicationFields, now: int) returns (r: Reply<Medication>)
      requires Valid()
      modifies this
      ensures Valid() && nextId == old(nextId)
      ensures r.Failed? ==> records == old(records)
      ensures (forall i :: 0 <= i < |old(records)| ==> old(records)[i].id != id) ==> r == Failed(NotFound)
      ensures forall i :: 0 <= i < |old(records)| && old(records)[i].id == id ==>
        var m := old(records)[i];
        if m.user != user then r == Failed(NotAuthorized)
        else if f.time.Some? && f.time.value != "" && !IsValidTime(f.time.value) then r == Failed(BadTimeFormat)
        else if UpdatedMedication(m, f, now).None? then r == Failed(ServerError)
        else
          var m' := UpdatedMedication(m, f, now).value;
          r == Ok(200, m') && records == old(records)[i := m']
    {
      var idx := FindById(id);
      if idx.None? {
        return Failed(NotFound);
      }
      var i := idx.value;
      var m := records[i];
      IdPosition(records, nextId, i);
      if m.user != user {
        return Failed(NotAuthorized);
      }
      if f.time.Some? && f.time.value != "" && !IsValidTime(f.time.value) {
        return Failed(BadTimeFormat);
      }
      var updated := UpdatedMedication(m, f, now);
      if updated.None? {
        return Failed(ServerError);
      }
      ReplaceKeepsInvariant(records, nextId, i, updated.value);
      records := records[i := updated.value];
      return Ok(200, updated.value);
    }

    /** DELETE /api/meds/:id: 404, then 401; the owner's request removes
        exactly that document, so a repeated delete answers 404. */
    method Delete(user: UserId, id: MedId) returns (r: Reply<string>)
      requires Valid()
      modifies this
      ensures Valid() && nextId == old(nextId)
      ensures r.Failed? ==> records == old(records)
      ensures (forall i :: 0 <= i < |old(records)| ==> old(records)[i].id != id) ==> r == Failed(NotFound)
      ensures forall i :: 0 <= i < |old(records)| && old(records)[i].id == id ==>
        if old(records)[i].user != user then r == Failed(NotAuthorized)
        else r == Ok(200, "Medication removed") && records == RemoveAt(old(records), i)
      ensures r.Ok? ==> forall i :: 0 <= i < |records| ==> records[i].id != id
    {
      var idx := FindById(id);
      if idx.None? {
        return Failed(NotFound);
      }
      var i := idx.value;
      IdPosition(records, nextId, i);
      if records[i].user != user {
        return Failed(NotAuthorized);
      }
      RemoveKeepsInvariant(records, nextId, i);
      IdPosition(records, nextId, i);
      records := RemoveAt(records, i);
      return Ok(200, "Medication removed");
    }
  }
}
