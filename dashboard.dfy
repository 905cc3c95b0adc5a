// The signed-in dashboard of medalert-assist/src/components/MedicationDashboard.tsx:
// loading the list (status view, plain fallback, demo list, or the guest's
// saved list), the optimistic toggle with its revert, the optimistic
// delete with its refetch, and appending a new medication.
module Dashboard {
  import opened Common
  import opened DayParts
  import opened MedList

  /** A medication as the backend's JSON carries it. */
  datatype ApiMedication = ApiMedication(
    id: Option<string>, name: string, dosage: string, time: string, frequency: string, notes: Option<string>)

  /** One entry of GET /api/medication-status. */
  datatype ApiStatusItem = ApiStatusItem(medication: ApiMedication, taken: bool)

  const LoadError: string := "Failed to load medications. Please try again."

  /** A status entry as a card: the stored `taken`, the band of its time. */
  function FromStatusItem(item: ApiStatusItem): MedView {
    var m := item.medication;
    MedView(m.id.GetOr(""), m.name, m.dosage, m.time, item.taken, GetTimeOfDay(m.time),
            None, m.notes, Some(m.frequency), None, None, None)
  }

  /** A plain medication as a card (fallback fetch, refetch, newly created):
      `id || ''`, not taken, the band of its time. */
  function FromApi(m: ApiMedication): MedView {
    MedView(m.id.GetOr(""), m.name, m.dosage, m.time, false, GetTimeOfDay(m.time),
            None, m.notes, Some(m.frequency), None, None, None)
  }

  function FromStatusList(items: seq<ApiStatusItem>): (r: seq<MedView>)
    ensures |r| == |items|
  {
    seq(|items|, i requires 0 <= i < |items| => FromStatusItem(items[i]))
  }

  function FromApiList(meds: seq<ApiMedication>): (r: seq<MedView>)
    ensures |r| == |meds|
  {
    seq(|meds|, i requires 0 <= i < |meds| => FromApi(meds[i]))
  }

  /** How many status entries are taken. */
  function TakenItems(items: seq<ApiStatusItem>): nat {
    if items == [] then 0
    else TakenItems(items[..|items| - 1]) + (if items[|items| - 1].taken then 1 else 0)
  }

  /** The status view keeps each entry's `taken` and files it under the
      band of its own time. */
  lemma StatusListShape(items: seq<ApiStatusItem>)
    ensures forall i :: 0 <= i < |items| ==>
      && FromStatusList(items)[i].taken == items[i].taken
      && FromStatusList(items)[i].kind == GetTimeOfDay(items[i].medication.time)
  {
  }

  /** So the taken counter over the status view matches the backend's. */
  lemma {:induction false} StatusListTaken(items: seq<ApiStatusItem>)
    ensures TakenCount(FromStatusList(items)) == TakenItems(items)
  {
    if items != [] {
      var init := items[..|items| - 1];
      StatusListTaken(init);
      var r := FromStatusList(items);
      assert forall k :: 0 <= k < |init| ==> r[k] == FromStatusList(init)[k];
      assert r[..|r| - 1] == FromStatusList(init);
      assert r[|r| - 1].taken == items[|items| - 1].taken;
      assert TakenCount(r) == TakenCount(r[..|r| - 1]) + (if r[|r| - 1].taken then 1 else 0);
    }
  }

  /** The fallback list marks nothing taken. */
  lemma ApiListNothingTaken(meds: seq<ApiMedication>)
    ensures TakenCount(FromApiList(meds)) == 0
    ensures Remaining(FromApiList(meds)) == |meds|
  {
    NoneTakenCount(FromApiList(meds));
  }

  function Demo(id: string, name: string, dosage: string, time: string, kind: TimeOfDay,
                notes: Option<string>): MedView {
    MedView(id, name, dosage, time, false, kind, None, notes, Some("Daily"), None, None, None)
  }

  /** `loadDemoMedications`: four daily medications, none taken. */
  function DemoMedications(): seq<MedView> {
    [ Demo("1", "Lisinopril", "10mg", "08:00", Morning, Some("Take with food")),
      Demo("2", "Metformin", "500mg", "12:00", Afternoon, Some("Take with lunch")),
      Demo("3", "Vitamin D3", "2000 IU", "18:00", Evening, None),
      Demo("4", "Melatonin", "3mg", "22:00", Night, Some("30 minutes before bed")) ]
  }

  /** The demo list has four entries with distinct ids and nothing taken. */
  lemma DemoListCounts()
    ensures |DemoMedications()| == 4 && TakenCount(DemoMedications()) == 0
    ensures forall i, j :: 0 <= i < j < 4 ==> DemoMedications()[i].id != DemoMedications()[j].id
  {
    NoneTakenCount(DemoMedications());
  }

  /** An entry holding one of the four demo times carries that time's band. */
  lemma DemoEntryBand(e: MedView)
    requires || (e.time == "08:00" && e.kind == Morning) || (e.time == "12:00" && e.kind == Afternoon)
             || (e.time == "18:00" && e.kind == Evening) || (e.time == "22:00" && e.kind == Night)
    ensures e.kind == GetTimeOfDay(e.time)
  {
    BandExamples();
  }

  /** Each demo entry's band is the one its time would get. */
  lemma DemoListBands()
    ensures forall i :: 0 <= i < |DemoMedications()| ==>
      DemoMedications()[i].kind == GetTimeOfDay(DemoMedications()[i].time)
  {
    var d := DemoMedications();
    forall i | 0 <= i < |d| ensures d[i].kind == GetTimeOfDay(d[i].time) {
      DemoEntryBand(d[i]);
    }
  }

  class Dashboard {
    var medications: seq<MedView>
    var authenticated: bool
    var loading: bool
    var error: Option<string>
    var showAddForm: bool

    constructor (authenticated: bool)
      ensures this.authenticated == authenticated && medications == [] && loading
      ensures error.None? && !showAddForm
    {
      this.authenticated := authenticated;
      medications := [];
      loading := true;
      error := None;
      showAddForm := false;
    }

    /** `fetchMedications`. A guest gets the saved list, or the demo list when
        there is none or it does not parse (`saved` None). Signed in, the
        status view is used; when it fails the error is set and the plain
        list is used with nothing taken, or the demo list when that fails
        too. */
    method Fetch(saved: Option<seq<MedView>>, status: Option<seq<ApiStatusItem>>,
                 fallback: Option<seq<ApiMedication>>)
      modifies this
      ensures !authenticated ==> error == old(error) && medications == saved.GetOr(DemoMedications())
      ensures authenticated && status.Some? ==> error.None? && medications == FromStatusList(status.value)
      ensures authenticated && status.None? ==> error == Some(LoadError)
      ensures authenticated && status.None? && fallback.Some? ==> medications == FromApiList(fallback.value)
      ensures authenticated && status.None? && fallback.None? ==> medications == DemoMedications()
      ensures !loading && authenticated == old(authenticated) && showAddForm == old(showAddForm)
    {
      if !authenticated {
        if saved.Some? {
          medications := saved.value;
        } else {
          medications := DemoMedications();
        }
        loading := false;
        return;
      }
      loading := true;
      if status.Some? {
        medications := FromStatusList(status.value);
        error := None;
      } else {
        error := Some(LoadError);
        if fallback.Some? {
          medications := FromApiList(fallback.value);
        } else {
          medications := DemoMedications();
        }
      }
      loading := false;
    }

    /** `toggleMedication`. An unknown id changes nothing. Otherwise the
        entries with that id are flipped; no backend call is made. When the
        rest of the handler throws (`failed`), the same id is flipped again,
        which restores the list. */
    method Toggle(id: string, failed: bool)
      modifies this
      ensures !HasId(old(medications), id) ==> medications == old(medications)
      ensures HasId(old(medications), id) && !failed ==> medications == FlipById(old(medications), id)
      ensures failed ==> medications == old(medications)
      ensures authenticated == old(authenticated) && showAddForm == old(showAddForm)
      ensures error == old(error) && loading == old(loading)
    {
      if !HasId(medications, id) {
        return;
      }
      medications := FlipById(medications, id);
      if failed {
        medications := FlipById(medications, id);
        FlipTwice(old(medications), id);
      }
    }

    /** `deleteMedication`. The entries with that id are removed at once.
        When the handler throws (`failed`, the backend delete when signed
        in) and the refetch succeeds, the list is replaced by the refetched
        one with nothing taken; otherwise the removal stands. */
    method Delete(id: string, failed: bool, refetch: Option<seq<ApiMedication>>)
      modifies this
      ensures failed && authenticated && refetch.Some? ==> medications == FromApiList(refetch.value)
      ensures !(failed && authenticated && refetch.Some?) ==> medications == RemoveById(old(medications), id)
      ensures authenticated == old(authenticated) && showAddForm == old(showAddForm)
      ensures error == old(error) && loading == old(loading)
    {
      medications := RemoveById(medications, id);
      if failed && authenticated && refetch.Some? {
        medications := FromApiList(refetch.value);
      }
    }

    /** `handleAddMedicationSubmit`. Signed in, the record the backend
        created (`created`, None when the call fails) is appended as a card
        not taken, filed under its time's band; a guest's medication is
        appended as given. The form closes unless the call failed. */
    method AddSubmit(m: MedView, created: Option<ApiMedication>)
      modifies this
      ensures authenticated && created.None? ==> medications == old(medications) && showAddForm == old(showAddForm)
      ensures authenticated && created.Some? ==> medications == old(medications) + [FromApi(created.value)] && !showAddForm
      ensures !authenticated ==> medications == old(medications) + [m] && !showAddForm
      ensures authenticated == old(authenticated) && error == old(error) && loading == old(loading)
    {
      if authenticated {
        if created.None? {
          return;
        }
        medications := medications + [FromApi(created.value)];
      } else {
        medications := medications + [m];
      }
      showAddForm := false;
    }

    /** `handleAddMedication` / `handleCancelAddMedication`. */
    method SetFormOpen(open: bool)
      modifies this
      ensures showAddForm == open && medications == old(medications)
      ensures authenticated == old(authenticated) && error == old(error) && loading == old(loading)
    {
      showAddForm := open;
    }
  }

  /** A card appended from the backend is pending, so the taken counter
      stays and the remaining counter grows by one. */
  lemma AddedFromApiIsPending(meds: seq<MedView>, created: ApiMedication)
    ensures TakenCount(meds + [FromApi(created)]) == TakenCount(meds)
    ensures Remaining(meds + [FromApi(created)]) == Remaining(meds) + 1
  {
    TakenCountAppend(meds, FromApi(created));
  }
}
