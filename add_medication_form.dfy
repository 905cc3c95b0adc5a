// The four-step wizard of src/components/AddMedicationForm.tsx: the step
// counter, the form record, the dosage picker, the selected week days and
// the medication handed to the dashboard on submit. The new medication's
// id (`Date.now()`) and the start date (today, formatted) are inputs.
module AddMedicationForm {
  import opened Common
  import opened JsText
  import opened DayParts
  import opened MedList

  datatype FormData = FormData(
    name: string, dosage: string, time: string, kind: TimeOfDay, instructions: string,
    frequency: string, startDate: string, endDate: Option<string>)

  /** The text inputs wired to `handleInputChange` by their `name`. */
  datatype TextInput = NameInput | InstructionsInput | StartDateInput | EndDateInput

  const AllDays: seq<string> :=
    ["monday", "tuesday", "wednesday", "thursday", "friday", "saturday", "sunday"]

  /** The amounts and units the dosage pickers offer. */
  const DosageAmounts: seq<string> := ["0.5", "1", "2", "5", "10", "15", "20"]
  const DosageUnits: seq<string> := ["tablet", "capsule", "pill", "ml", "mg", "g", "spray", "drop"]

  function InitialForm(today: string): FormData {
    FormData("", "", "08:00", Morning, "", "daily", today, None)
  }

  /** `parseInt(dosageAmount) > 1`. */
  predicate Plural(amount: string) {
    var n := ParseInt(amount);
    n.Some? && n.value > 1
  }

  /** `${dosageAmount} ${dosageType}` with an "s" when the amount is plural. */
  function DosageText(amount: string, unit: string): string {
    amount + " " + unit + (if Plural(amount) then "s" else "")
  }

  /** The dosage text begins with the amount, a space and the unit, and
      carries one more character, an "s", exactly when the amount parses to
      more than one. */
  lemma DosageTextShape(amount: string, unit: string)
    ensures var r := DosageText(amount, unit);
      && r[..|amount| + 1 + |unit|] == amount + " " + unit
      && (|r| == |amount| + 1 + |unit| + 1 <==> Plural(amount))
      && (Plural(amount) ==> r[|r| - 1] == 's')
      && (!Plural(amount) ==> |r| == |amount| + 1 + |unit|)
  {
  }

  /** parseInt stops at the decimal point: "0.5" reads as 0. */
  lemma ParsedHalf()
    ensures ParseInt("0.5") == Some(0)
  {
    ParseLeadingDigits("0.5");
    assert DigitPrefix("0.5") == "0" by { assert DigitPrefix(".5") == []; }
  }

  /** parseInt over the whole offered amounts. */
  lemma ParsedAmounts()
    ensures ParseInt("1") == Some(1) && ParseInt("2") == Some(2) && ParseInt("10") == Some(10)
  {
    ParseOneDigit('1');
    ParseOneDigit('2');
    ParseTwoDigits('1', '0');
  }

  /** So half a tablet and one tablet stay singular… */
  lemma SingularDosages()
    ensures DosageText("0.5", "tablet") == "0.5 tablet"
    ensures DosageText("1", "tablet") == "1 tablet"
  {
    ParsedHalf();
    ParsedAmounts();
    assert !Plural("0.5") && !Plural("1");
  }

  /** …and larger amounts take the plural. */
  lemma PluralDosages()
    ensures DosageText("2", "capsule") == "2 capsules"
    ensures DosageText("10", "ml") == "10 mls"
  {
    ParsedAmounts();
    assert Plural("2") && Plural("10");
  }

  /** `days.filter(d => d !== day)` */
  function Without(days: seq<string>, day: string): (r: seq<string>)
    ensures forall x :: x in r <==> x in days && x != day
  {
    if days == [] then []
    else
      var last := days[|days| - 1];
      Without(days[..|days| - 1], day) + (if last != day then [last] else [])
  }

  /** `handleDayToggle`'s updater: drop a selected day, append one that is
      not selected. */
  function ToggledDays(days: seq<string>, day: string): seq<string> {
    if day in days then Without(days, day) else days + [day]
  }

  /** Toggling a day flips its membership and keeps every other day's. */
  lemma ToggledDaysMembership(days: seq<string>, day: string)
    ensures day in ToggledDays(days, day) <==> day !in days
    ensures forall x :: x != day ==> (x in ToggledDays(days, day) <==> x in days)
  {
  }

  /** Toggling the same day twice gives back the same set of days. */
  lemma ToggledDaysTwice(days: seq<string>, day: string)
    ensures forall x :: x in ToggledDays(ToggledDays(days, day), day) <==> x in days
  {
    ToggledDaysMembership(days, day);
    ToggledDaysMembership(ToggledDays(days, day), day);
  }

  /** `handleSubmit`: nothing without a name and a dosage; otherwise a
      medication not taken, with the form's fields and the week days only
      for the "specific-days" frequency. */
  function Submission(form: FormData, days: seq<string>, id: string): (r: Option<MedView>)
    ensures r.None? <==> form.name == [] || form.dosage == []
    ensures r.Some? ==>
      && r.value.id == id && !r.value.taken
      && r.value.name == form.name && r.value.dosage == form.dosage
      && r.value.time == form.time && r.value.kind == form.kind
      && r.value.instructions == Some(form.instructions) && r.value.notes.None?
      && r.value.frequency == Some(form.frequency) && r.value.startDate == Some(form.startDate)
      && r.value.endDate == form.endDate
      && (r.value.daysOfWeek.Some? <==> form.frequency == "specific-days")
      && (r.value.daysOfWeek.Some? ==> r.value.daysOfWeek.value == days)
  {
    if form.name == [] || form.dosage == [] then None
    else Some(MedView(id, form.name, form.dosage, form.time, false, form.kind,
                      Some(form.instructions), None, Some(form.frequency), Some(form.startDate),
                      form.endDate, if form.frequency == "specific-days" then Some(days) else None))
  }

  class Wizard {
    var step: int
    var form: FormData
    var dosageType: string
    var dosageAmount: string
    var selectedDays: seq<string>

    /** The step counter stays on one of the four pages. */
    ghost predicate Valid()
      reads this
    {
      1 <= step <= 4
    }

    constructor (today: string)
      ensures Valid() && step == 1 && form == InitialForm(today)
      ensures dosageType == "tablet" && dosageAmount == "1" && selectedDays == AllDays
    {
      step := 1;
      form := InitialForm(today);
      dosageType := "tablet";
      dosageAmount := "1";
      selectedDays := AllDays;
    }

    /** `handleInputChange`: the named field takes the typed value. */
    method HandleInputChange(field: TextInput, value: string)
      requires Valid()
      modifies this
      ensures Valid() && step == old(step) && selectedDays == old(selectedDays)
      ensures dosageType == old(dosageType) && dosageAmount == old(dosageAmount)
      ensures form == match field
        case NameInput => old(form).(name := value)
        case InstructionsInput => old(form).(instructions := value)
        case StartDateInput => old(form).(startDate := value)
        case EndDateInput => old(form).(endDate := Some(value))
    {
      match field
      case NameInput => form := form.(name := value);
      case InstructionsInput => form := form.(instructions := value);
      case StartDateInput => form := form.(startDate := value);
      case EndDateInput => form := form.(endDate := Some(value));
    }

    /** Picking a common medicine or a frequency sets that field. */
    method PickName(value: string)
      requires Valid()
      modifies this
      ensures Valid() && step == old(step) && form == old(form).(name := value)
      ensures selectedDays == old(selectedDays) && dosageType == old(dosageType) && dosageAmount == old(dosageAmount)
    {
      form := form.(name := value);
    }

    method PickFrequency(value: string)
      requires Valid()
      modifies this
      ensures Valid() && step == old(step) && form == old(form).(frequency := value)
      ensures selectedDays == old(selectedDays) && dosageType == old(dosageType) && dosageAmount == old(dosageAmount)
    {
      form := form.(frequency := value);
    }

    /** The dosage pickers: only the picker state changes; the form's dosage
        is recomputed when leaving step 2. */
    method PickDosage(amount: string, unit: string)
      requires Valid()
      modifies this
      ensures Valid() && step == old(step) && form == old(form) && selectedDays == old(selectedDays)
      ensures dosageAmount == amount && dosageType == unit
    {
      dosageAmount := amount;
      dosageType := unit;
    }

    /** `handleTimeChange`: the time and its band. */
    method HandleTimeChange(time: string)
      requires Valid()
      modifies this
      ensures Valid() && step == old(step) && form == old(form).(time := time, kind := GetTimeOfDay(time))
      ensures selectedDays == old(selectedDays) && dosageType == old(dosageType) && dosageAmount == old(dosageAmount)
    {
      form := form.(time := time, kind := GetTimeOfDay(time));
    }

    /** `handleDayToggle` */
    method HandleDayToggle(day: string)
      requires Valid()
      modifies this
      ensures Valid() && step == old(step) && form == old(form)
      ensures selectedDays == ToggledDays(old(selectedDays), day)
      ensures dosageType == old(dosageType) && dosageAmount == old(dosageAmount)
    {
      if day in selectedDays {
        selectedDays := Without(selectedDays, day);
      } else {
        selectedDays := selectedDays + [day];
      }
    }

    /** `nextStep`: on page 1 without a name nothing moves; leaving page 2
        fixes the dosage text; pages 1 to 3 advance by one; page 4 submits
        and stays. The submitted medication (if any) is returned. */
    method NextStep(id: string) returns (submitted: Option<MedView>)
      requires Valid()
      modifies this
      ensures Valid()
      ensures selectedDays == old(selectedDays) && dosageType == old(dosageType) && dosageAmount == old(dosageAmount)
      ensures old(step) == 1 && old(form).name == [] ==>
        step == 1 && form == old(form) && submitted.None?
      ensures old(step) == 1 && old(form).name != [] ==>
        step == 2 && form == old(form) && submitted.None?
      ensures old(step) == 2 ==>
        step == 3 && form == old(form).(dosage := DosageText(dosageAmount, dosageType)) && submitted.None?
      ensures old(step) == 3 ==> step == 4 && form == old(form) && submitted.None?
      ensures old(step) == 4 ==>
        step == 4 && form == old(form) && submitted == Submission(form, selectedDays, id)
    {
      submitted := None;
      if step == 1 && form.name == [] {
        return;
      }
      if step == 2 {
        form := form.(dosage := DosageText(dosageAmount, dosageType));
      }
      if step < 4 {
        step := step + 1;
      } else {
        submitted := Submission(form, selectedDays, id);
      }
    }

    /** `prevStep`: back one page, never below the first. */
    method PrevStep()
      requires Valid()
      modifies this
      ensures Valid() && step == (if old(step) > 1 then old(step) - 1 else 1)
      ensures form == old(form) && selectedDays == old(selectedDays)
      ensures dosageType == old(dosageType) && dosageAmount == old(dosageAmount)
    {
      if step > 1 {
        step := step - 1;
      }
    }
  }
}
