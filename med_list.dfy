// The medication list the two dashboards hold in React state
// (medalert-assist/src/components/MedicationDashboard.tsx and
// src/components/MedicationDashboard.tsx), and the `map`/`filter`/append
// updaters they rewrite it with.
module MedList {
  import opened Common
  import opened DayParts

  /** One card of the dashboard; the optional fields are the union of the
      two trees' `Medication` interfaces and the wizard's output. */
  datatype MedView = MedView(
    id: string, name: string, dosage: string, time: string, taken: bool, kind: TimeOfDay,
    instructions: Option<string>, notes: Option<string>, frequency: Option<string>,
    startDate: Option<string>, endDate: Option<string>, daysOfWeek: Option<seq<string>>)

  /** `meds.map(med => med.id === id ? { ...med, taken: !med.taken } : med)` */
  function FlipById(meds: seq<MedView>, id: string): (r: seq<MedView>)
    ensures |r| == |meds|
  {
    seq(|meds|, i requires 0 <= i < |meds| =>
      if meds[i].id == id then meds[i].(taken := !meds[i].taken) else meds[i])
  }

  /** `meds.filter(med => med.id !== id)` */
  function RemoveById(meds: seq<MedView>, id: string): (r: seq<MedView>)
    ensures |r| <= |meds|
    ensures forall m :: m in r <==> m in meds && m.id != id
  {
    if meds == [] then []
    else
      var last := meds[|meds| - 1];
      RemoveById(meds[..|meds| - 1], id) + (if last.id != id then [last] else [])
  }

  /** `meds.filter(med => med.taken).length` */
  function TakenCount(meds: seq<MedView>): (n: nat)
    ensures n <= |meds|
  {
    if meds == [] then 0
    else TakenCount(meds[..|meds| - 1]) + (if meds[|meds| - 1].taken then 1 else 0)
  }

  /** The entries not yet taken, counted on their own. */
  function PendingCount(meds: seq<MedView>): nat {
    if meds == [] then 0
    else PendingCount(meds[..|meds| - 1]) + (if meds[|meds| - 1].taken then 0 else 1)
  }

  /** `totalCount - takenCount`, the "Remaining" counter: the entries not
      taken, and never negative. */
  function Remaining(meds: seq<MedView>): (n: int)
    ensures n == PendingCount(meds) && 0 <= n <= |meds|
  {
    TakenPlusPending(meds);
    |meds| - TakenCount(meds)
  }

  predicate HasId(meds: seq<MedView>, id: string) {
    exists i :: 0 <= i < |meds| && meds[i].id == id
  }

  predicate NoneWithId(meds: seq<MedView>, id: string) {
    forall i :: 0 <= i < |meds| ==> meds[i].id != id
  }

  /** Flipping entries with the given id changes only their `taken`: ids,
      order and every other field stay as they were. */
  lemma FlipByIdOnlyFlips(meds: seq<MedView>, id: string)
    ensures forall i :: 0 <= i < |meds| ==>
      && FlipById(meds, id)[i].(taken := meds[i].taken) == meds[i]
      && (FlipById(meds, id)[i].taken <==> (meds[i].taken != (meds[i].id == id)))
  {
  }

  /** An id no entry carries leaves the list as it is. */
  lemma FlipUnknownId(meds: seq<MedView>, id: string)
    requires NoneWithId(meds, id)
    ensures FlipById(meds, id) == meds
  {
    assert forall i :: 0 <= i < |meds| ==> FlipById(meds, id)[i] == meds[i];
  }

  /** Flipping the same id twice restores the list. */
  lemma FlipTwice(meds: seq<MedView>, id: string)
    ensures FlipById(FlipById(meds, id), id) == meds
  {
    assert forall i :: 0 <= i < |meds| ==> FlipById(FlipById(meds, id), id)[i] == meds[i];
  }

  /** Filtering keeps the order of what it keeps: it splits over a
      concatenation. */
  lemma {:induction false} RemoveByIdSplits(a: seq<MedView>, b: seq<MedView>, id: string)
    ensures RemoveById(a + b, id) == RemoveById(a, id) + RemoveById(b, id)
    decreases |b|
  {
    if b == [] {
      assert a + b == a;
    } else {
      var b' := b[..|b| - 1];
      assert (a + b)[..|a + b| - 1] == a + b';
      assert (a + b)[|a + b| - 1] == b[|b| - 1];
      RemoveByIdSplits(a, b', id);
    }
  }

  /** A list with no entry of that id is left unchanged. */
  lemma {:induction false} RemoveUnknownId(meds: seq<MedView>, id: string)
    requires NoneWithId(meds, id)
    ensures RemoveById(meds, id) == meds
  {
    if meds != [] {
      var init := meds[..|meds| - 1];
      RemoveUnknownId(init, id);
      assert meds == init + [meds[|meds| - 1]];
    }
  }

  /** A second delete of the same id changes nothing. */
  lemma RemoveTwice(meds: seq<MedView>, id: string)
    ensures RemoveById(RemoveById(meds, id), id) == RemoveById(meds, id)
  {
    var r := RemoveById(meds, id);
    assert NoneWithId(r, id) by {
      forall i | 0 <= i < |r| ensures r[i].id != id {
        assert r[i] in r;
      }
    }
    RemoveUnknownId(r, id);
  }

  /** Taken and remaining always add up to the list length. */
  lemma {:induction false} TakenPlusPending(meds: seq<MedView>)
    ensures TakenCount(meds) + PendingCount(meds) == |meds|
  {
    if meds != [] {
      TakenPlusPending(meds[..|meds| - 1]);
    }
  }

  /** A list with nothing taken counts zero taken. */
  lemma {:induction false} NoneTakenCount(meds: seq<MedView>)
    requires forall i :: 0 <= i < |meds| ==> !meds[i].taken
    ensures TakenCount(meds) == 0
  {
    if meds != [] {
      NoneTakenCount(meds[..|meds| - 1]);
    }
  }

  /** The counters over an appended entry. */
  lemma {:induction false} TakenCountAppend(meds: seq<MedView>, m: MedView)
    ensures TakenCount(meds + [m]) == TakenCount(meds) + (if m.taken then 1 else 0)
  {
    assert (meds + [m])[..|meds + [m]| - 1] == meds;
  }

  /** Flipping an id carried by exactly one entry moves the taken count by
      one, up when that entry was pending and down when it was taken. */
  lemma {:induction false} FlipUniqueIdCount(meds: seq<MedView>, id: string, k: nat)
    requires k < |meds| && meds[k].id == id
    requires forall i :: 0 <= i < |meds| && i != k ==> meds[i].id != id
    ensures TakenCount(FlipById(meds, id)) == TakenCount(meds) + (if meds[k].taken then -1 else 1)
    decreases |meds|
  {
    var init := meds[..|meds| - 1];
    var r := FlipById(meds, id);
    assert r[..|r| - 1] == FlipById(init, id);
    if k == |meds| - 1 {
      FlipUnknownId(init, id);
    } else {
      FlipUniqueIdCount(init, id, k);
    }
  }
}
