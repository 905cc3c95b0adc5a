// The dashboard of src/components/MedicationDashboard.tsx: a list held in
// component state only, starting from four fixed entries, rewritten by the
// toggle, delete and add handlers.
module LocalDashboard {
  import opened Common
  import opened DayParts
  import opened MedList

  function Initial(id: string, name: string, dosage: string, time: string, taken: bool,
                   kind: TimeOfDay, instructions: Option<string>): MedView {
    MedView(id, name, dosage, time, taken, kind, instructions, None, None, None, None, None)
  }

  /** The initial state of the list. */
  function InitialMedications(): seq<MedView> {
    [ Initial("1", "Lisinopril", "10mg", "08:00", true, Morning, Some("Take with food")),
      Initial("2", "Metformin", "500mg", "12:00", false, Afternoon, Some("Take with lunch")),
      Initial("3", "Vitamin D3", "2000 IU", "18:00", false, Evening, None),
      Initial("4", "Melatonin", "3mg", "22:00", false, Night, Some("30 minutes before bed")) ]
  }

  /** Four entries with distinct ids, exactly one of them (the first) taken:
      the counters start at 1 taken and 3 remaining. */
  lemma InitialCounts()
    ensures |InitialMedications()| == 4
    ensures forall i, j :: 0 <= i < j < 4 ==> InitialMedications()[i].id != InitialMedications()[j].id
    ensures TakenCount(InitialMedications()) == 1 && Remaining(InitialMedications()) == 3
  {
    var d := InitialMedications();
    NoneTakenCount(d[1..]);
    assert d == [d[0]] + d[1..];
    TakenCountPrepend(d[0], d[1..]);
  }

  /** A taken entry in front adds one to the count. */
  lemma {:induction false} TakenCountPrepend(m: MedView, meds: seq<MedView>)
    ensures TakenCount([m] + meds) == TakenCount(meds) + (if m.taken then 1 else 0)
    decreases |meds|
  {
    if meds == [] {
      assert [m] + meds == [m];
      assert [m][..0] == [];
    } else {
      var init := meds[..|meds| - 1];
      assert ([m] + meds)[..|meds|] == [m] + init;
      TakenCountPrepend(m, init);
    }
  }

  class LocalDashboard {
    var medications: seq<MedView>
    var showAddForm: bool

    constructor ()
      ensures medications == InitialMedications() && !showAddForm
    {
      medications := InitialMedications();
      showAddForm := false;
    }

    /** `toggleMedication`: the entries with that id flip `taken`. */
    method Toggle(id: string)
      modifies this
      ensures medications == FlipById(old(medications), id) && showAddForm == old(showAddForm)
    {
      medications := FlipById(medications, id);
    }

    /** `deleteMedication`: the entries with that id are dropped. */
    method Delete(id: string)
      modifies this
      ensures medications == RemoveById(old(medications), id) && showAddForm == old(showAddForm)
    {
      medications := RemoveById(medications, id);
    }

    /** `handleAddMedicationSubmit`: the new entry goes last and the form
        closes. */
    method AddSubmit(m: MedView)
      modifies this
      ensures medications == old(medications) + [m] && !showAddForm
    {
      medications := medications + [m];
      showAddForm := false;
    }

    /** `handleAddMedication` / `handleCancelAddMedication`. */
    method SetFormOpen(open: bool)
      modifies this
      ensures showAddForm == open && medications == old(medications)
    {
      showAddForm := open;
    }
  }
}
