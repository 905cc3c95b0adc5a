# Medalert business rules in Dafny

Medalert is a medication-reminder application: an Express/Mongoose backend
plus React front ends. This project models the rules the application
enforces as sequential operations over integers, sequences and maps, and
proves properties about them.

The backend parts:

- **Per-day status store.** It holds one row per (user, medication, day at
  midnight). GET merges the caller's medications with that day's rows.
  POST `/toggle` finds or creates a row and flips it. PUT finds or creates a
  row and sets it. It is modelled as the class `StatusRoutes.StatusStore`
  over a `map<StatusKey, StatusRow>`.
- **Medication registry.** An owner-scoped collection with list, create,
  get, update and delete. It checks errors in the code's order: 404, then
  401, then a 400 for a bad time. It is modelled as the class
  `MedicationRoutes.Registry` over a sequence in insertion order. The
  Mongoose schema rules are pure predicates in `MedicationModel`: required
  fields, trimming, and the `^([01]\d|2[0-3]):([0-5]\d)$` time validator
  (`TimeFormat`).
- **Reminder projection.** `NextOccurrence` gives today at hh:mm, or
  tomorrow when that is not after now. The `/upcoming` and `/today` handlers
  are methods with nested loops that push entries and then sort them in
  place (`Sorting.SortByKey`). Each is proved against a specification list
  function.

The client parts:

- **Dashboard medication lists.** `MedList` holds the map, filter and
  append updaters and the counters. `Dashboard.Dashboard` models the
  signed-in variant, `LocalDashboard.LocalDashboard` the component-state
  variant. `DayParts.GetTimeOfDay` gives the hour bands.
- **Notification inbox.** `NotificationInbox.Inbox`.
- **Four-step add-medication wizard.** `AddMedicationForm.Wizard`.
- **Sign-in dialog.** `AuthDialog.Dialog`: the CAPTCHA generator, the
  email check, and the login and signup check chains.
- **Settings record.** `Settings.SettingsPage`.

Modelling choices:

- Instants are integers counting milliseconds of local time. A day is
  86 400 000 of them, and `Clock.Midnight(t)` is `setHours(0, 0, 0, 0)`.
- Each request reads the clock once (`now`). The `/upcoming` helper
  `getNextOccurrence` reads it a second time in the source; see "Left out".
- Ids are naturals. New medication ids come from a counter.
- Things the code gets from outside are parameters: the CAPTCHA's random
  draws, `Date.now()` ids, and backend replies the client receives (`None`
  when the call fails). So is the exception that triggers a client rollback
  (`failed`).

Where the code and the design description of the system disagree, the
model follows the code:

- The design describes ownership failures as 403 Forbidden. The handlers
  answer 401 (`medication.routes.ts:77-79, 103-105, 138-140`), and
  `Api.StatusCode` maps `NotAuthorized` to 401.
- The design says toggling a status rejects a medication the caller does
  not own. The toggle and PUT handlers never look the medication up
  (`medicationStatus.routes.ts:80-101, 125-144`). So `StatusStore.Toggle`
  and `StatusStore.Put` accept any id.
- The design says a status-key race falls back to an update. The code has
  no fallback: a duplicate create fails on the unique index and answers
  500. The model runs requests one after another, so it has no race.
- The design says the dashboard toggle calls the status service and rolls
  back on failure. In the signed-in dashboard that call is commented out
  (`MedicationDashboard.tsx:196-199`). The rollback runs only when the rest
  of the handler throws.
- The design says update follows the same validation rules as create. The
  handler checks only a supplied, non-empty `time`. The schema's required
  validators then turn a blank supplied field into a 500.

## Model

| member | source | states |
|---|---|---|
| Clock.Midnight | medalert-backend/src/routes/medicationStatus.routes.ts:17-18 | the start of t's day: a multiple of a day, at most t and less than a day before it |
| Clock.SameDaySameMidnight | medalert-backend/src/routes/medicationStatus.routes.ts:77-78 | two instants of the same day truncate to the same midnight |
| Clock.NextDayIsDifferentDay | medalert-backend/src/routes/reminder.routes.ts:84-85 | one day later truncates to the next midnight |
| Clock.AtTimeOfDay | medalert-backend/src/routes/reminder.routes.ts:94-95 | hh:mm:00.000 on t's day lies within that day, on a whole minute, and its time of day is exactly h hours m minutes |
| JsText.Trim | medalert-backend/src/models/medication.model.ts:24 | what trim removes is white space on both sides; the result is the rest, with no white space at either end; empty iff the input is all white space |
| JsText.TrimmedIffFixed | medalert-backend/src/models/medication.model.ts:24 | trim leaves a string unchanged exactly when it has no white space at either end |
| JsText.TrimIdempotent | medalert-backend/src/models/medication.model.ts:24 | trimming twice is trimming once |
| JsText.BeforeColon | medalert-assist/src/components/MedicationDashboard.tsx:112 | split(':')[0]: the prefix before the first colon, or the whole string |
| TimeFormat.ValidTimeIsClockReading | medalert-backend/src/models/medication.model.ts:35-38 | the time validator accepts exactly the two-digit readings 00:00 through 23:59 |
| TimeFormat.FormatThenParse | medalert-backend/src/models/medication.model.ts:35-38 | a printed clock reading passes the validator and reads back to the same hour and minute |
| TimeFormat.ParseThenFormat | medalert-backend/src/models/medication.model.ts:35-38 | a validated time is the printing of its hour and minute |
| TimeFormat.RejectedExamples | medalert-backend/src/models/medication.model.ts:37 | "25:00", "9:30" and "0960" are rejected; "00:00" and "23:59" accepted |
| JsText.ParseOneDigit | src/components/AddMedicationForm.tsx:74 | parseInt reads a one-digit string as that digit |
| JsText.ParseTwoDigits | src/components/AddMedicationForm.tsx:74 | parseInt reads a two-digit string as its decimal value |
| TimeFormat.ParsedHourOfValidTime | medalert-assist/src/components/MedicationDashboard.tsx:112 | parseInt of the part before ':' is the validated hour |
| Sorting.SortByKey | medalert-backend/src/routes/reminder.routes.ts:62 | the array ends sorted ascending by the key and is a permutation of its old contents |
| Reminders.NextOccurrence | medalert-backend/src/routes/reminder.routes.ts:11-24 | strictly after now, at most a day after now, at hh:mm:00.000 |
| Reminders.SlotAtNowMovesToTomorrow | medalert-backend/src/routes/reminder.routes.ts:19-21 | a slot exactly at now moves a full day later |
| Reminders.NextOccurrenceUnique | medalert-backend/src/routes/reminder.routes.ts:11-24 | no other instant in (now, now + 1 day] has that time of day |
| Reminders.UpcomingForIsEveryTime | medalert-backend/src/routes/reminder.routes.ts:45-58 | one upcoming entry per scheduled time, each for its medication and at that time's next occurrence |
| Reminders.UpcomingListCoversAllSlots | medalert-backend/src/routes/reminder.routes.ts:44-59 | one upcoming entry per (medication, schedule time) pair, each within the next 24 hours |
| Reminders.Upcoming | medalert-backend/src/routes/reminder.routes.ts:29-64 | a permutation of the full pair list, sorted ascending by occurrence, every entry in (now, now + 24h] |
| Reminders.TodayEntry | medalert-backend/src/routes/reminder.routes.ts:92-104 | the entry carries the medication's id, name and dose and the scheduled time; its instant is on now's day at exactly that hh:mm, and isPast holds iff that instant is before now |
| Reminders.TodayForIsEveryTime | medalert-backend/src/routes/reminder.routes.ts:91-105 | the inner loop makes exactly one entry per scheduled time, in schedule order, each the entry for that time |
| Reminders.TodayListShape | medalert-backend/src/routes/reminder.routes.ts:90-106 | one entry per (medication, schedule time) pair; every entry comes from a scheduled pair, lies on today's date at its own hh:mm, and is past iff before now |
| Reminders.TodayForShape | medalert-backend/src/routes/reminder.routes.ts:91-105 | one entry per scheduled time of a medication, each carrying that medication's fields and one of its times, on today's date at that hh:mm, past iff before now |
| Reminders.Today | medalert-backend/src/routes/reminder.routes.ts:74-111 | a permutation of the full pair list, sorted ascending by reminder time, one entry per pair; each entry comes from a scheduled pair and lies on today's date at its own hh:mm, isPast iff before now |
| Reminders.SortedCopy | medalert-backend/src/routes/reminder.routes.ts:109 | a sorted permutation of the pushed list |
| MedicationModel.TrimOption | medalert-backend/src/models/medication.model.ts:49 | an optional field is stored trimmed when present |
| MedicationModel.NewMedication | medalert-backend/src/models/medication.model.ts:14-53 | a created document is well formed (required fields non-empty and trimmed, valid time) and carries the given id and owner |
| MedicationModel.NewMedicationFields | medalert-backend/src/models/medication.model.ts:14-53 | creation succeeds iff the required fields are non-blank after trimming and the time is valid; the document holds the trimmed fields, the time as given and both timestamps at now |
| MedicationModel.Replace | medalert-backend/src/routes/medication.routes.ts:113-117 | a stored trimmed value stays trimmed; a supplied value leaves the field empty iff it is all white space |
| MedicationModel.UpdatedMedication | medalert-backend/src/routes/medication.routes.ts:113-117 | update succeeds iff every supplied required field is non-blank and a supplied time is valid; id, owner and createdAt kept, updatedAt now, result well formed |
| MedicationModel.OwnedBy | medalert-backend/src/routes/medication.routes.ts:16 | find({user}): exactly the caller's records, never more than the collection holds |
| MedicationRoutes.RequestErrors | medalert-backend/src/routes/medication.routes.ts:29-43 | a field error is reported iff name, dosage or frequency is empty or the time fails the pattern |
| MedicationRoutes.CreateAcceptedIff | medalert-backend/src/routes/medication.routes.ts:29-43 | the request validators accept iff the three text fields are non-empty and the time is valid |
| MedicationRoutes.AppendKeepsInvariant | medalert-backend/src/routes/medication.routes.ts:48-55 | adding a well-formed record under a fresh id keeps ids unique and records well formed |
| MedicationRoutes.ReplaceKeepsInvariant | medalert-backend/src/routes/medication.routes.ts:113-117 | overwriting a record in place with the same id keeps the collection invariant |
| MedicationRoutes.RemoveAt | medalert-backend/src/routes/medication.routes.ts:142 | removing one position keeps every other record in order |
| MedicationRoutes.RemoveKeepsInvariant | medalert-backend/src/routes/medication.routes.ts:142 | removal keeps the invariant and leaves no record with the removed id |
| MedicationRoutes.Registry.FindById | medalert-backend/src/routes/medication.routes.ts:70 | the position of the record with that id, or none when no record has it |
| MedicationRoutes.Registry.List | medalert-backend/src/routes/medication.routes.ts:16 | a permutation of the caller's records, sorted newest first |
| MedicationRoutes.Registry.Get | medalert-backend/src/routes/medication.routes.ts:68-86 | 404 when no record has the id, 401 when the record with the id belongs to another user, and 200 with that record when it belongs to the caller |
| MedicationRoutes.Registry.Create | medalert-backend/src/routes/medication.routes.ts:27-63 | 400 with the field errors, or 500 when the schema rejects, both adding nothing; otherwise 201 and exactly one new record owned by the caller appended |
| MedicationRoutes.Registry.Update | medalert-backend/src/routes/medication.routes.ts:91-124 | 404, then 401, then 400 for a supplied bad time, then 500 for a schema rejection, each leaving the collection unchanged; otherwise only that record is replaced |
| MedicationRoutes.Registry.Delete | medalert-backend/src/routes/medication.routes.ts:129-149 | 404, then 401, each leaving the collection unchanged; otherwise exactly that record is removed, so a repeat delete is 404 |
| StatusModel.NewStatusRow | medalert-backend/src/models/medicationStatus.model.ts:25-40 | a missing date defaults to today's midnight, a missing taken to false; takenAt stays optional |
| StatusRoutes.DayKey | medalert-backend/src/routes/medicationStatus.routes.ts:77-78 | the key uses the supplied date, or now, truncated to midnight |
| StatusRoutes.SameDaySameKey | medalert-backend/src/routes/medicationStatus.routes.ts:77-78 | two instants of the same day address the same row |
| StatusRoutes.ToggledRow | medalert-backend/src/routes/medicationStatus.routes.ts:87-101 | an absent row becomes taken at now; an existing row flips; takenAt present iff taken |
| StatusRoutes.SetRow | medalert-backend/src/routes/medicationStatus.routes.ts:132-144 | the row holds exactly the given taken, with takenAt present iff taken |
| StatusRoutes.ToggleSeries | medalert-backend/src/routes/medicationStatus.routes.ts:81-101 | repeated toggles keep the row filed under its own key |
| StatusRoutes.ToggleParity | medalert-backend/src/routes/medicationStatus.routes.ts:81-101 | from an absent row, an odd number of toggles leaves it taken, an even number not taken; takenAt iff taken; other keys untouched |
| StatusRoutes.ToggleTwiceFromAbsent | medalert-backend/src/routes/medicationStatus.routes.ts:81-101 | two toggles from an absent row leave taken false and no takenAt |
| StatusRoutes.ToggleLeavesNextDay | medalert-backend/src/routes/medicationStatus.routes.ts:77-101 | a toggle on one day leaves the next day's status of that medication as it was |
| StatusRoutes.SetTwiceSameTaken | medalert-backend/src/routes/medicationStatus.routes.ts:132-144 | repeating a PUT with the same value stores the same taken and changes only takenAt's instant |
| StatusRoutes.StatusStore.GetForDay | medalert-backend/src/routes/medicationStatus.routes.ts:14-64 | one entry per medication of the caller, in query order; the stored status, or taken false with no takenAt, and nothing written |
| StatusRoutes.StatusStore.Toggle | medalert-backend/src/routes/medicationStatus.routes.ts:69-112 | 400 without an id, store unchanged; otherwise only the addressed key changes, to the toggled row, and the reply echoes the id and that row |
| StatusRoutes.StatusStore.Put | medalert-backend/src/routes/medicationStatus.routes.ts:117-155 | only the addressed key changes, to exactly the given taken; the reply echoes the id and that row |
| DayParts.TimeOfDayOfValidTime | medalert-assist/src/components/MedicationDashboard.tsx:111-117 | on a valid time: 05-11 morning, 12-16 afternoon, 17-20 evening, otherwise night |
| DayParts.TimeOfDayOfClock | src/components/AddMedicationForm.tsx:56-70 | the band of a printed clock reading is the band of its hour |
| DayParts.NonNumericIsNight | medalert-assist/src/components/MedicationDashboard.tsx:112-116 | a time without digits (parseInt is NaN) is night |
| DayParts.BandExamples | medalert-assist/src/components/MedicationDashboard.tsx:128-158 | 08:00, 12:00, 18:00 and 22:00 fall in the four bands in order |
| MedList.RemoveById | medalert-assist/src/components/MedicationDashboard.tsx:245 | exactly the entries without that id remain |
| MedList.TakenCount | medalert-assist/src/components/MedicationDashboard.tsx:346 | the taken count never exceeds the list length |
| MedList.Remaining | medalert-assist/src/components/MedicationDashboard.tsx:346-347 | total minus taken is the number of pending entries and is never negative |
| MedList.FlipByIdOnlyFlips | medalert-assist/src/components/MedicationDashboard.tsx:185-193 | only taken of entries with that id changes; length, order and other fields kept |
| MedList.FlipUnknownId | medalert-assist/src/components/MedicationDashboard.tsx:181-182 | an id no entry has leaves the list unchanged |
| MedList.FlipTwice | medalert-assist/src/components/MedicationDashboard.tsx:227-235 | flipping the same id again restores the list |
| MedList.RemoveByIdSplits | src/components/MedicationDashboard.tsx:84 | filtering distributes over concatenation, so the kept entries keep their order |
| MedList.RemoveUnknownId | src/components/MedicationDashboard.tsx:84 | deleting an absent id changes nothing |
| MedList.RemoveTwice | src/components/MedicationDashboard.tsx:84 | deleting the same id twice is deleting it once |
| MedList.TakenPlusPending | src/components/MedicationDashboard.tsx:107-108 | taken plus remaining equals the list length |
| MedList.NoneTakenCount | medalert-assist/src/components/MedicationDashboard.tsx:346 | a list with nothing taken counts zero taken |
| MedList.TakenCountAppend | src/components/MedicationDashboard.tsx:97-108 | appending adds one to the taken count iff the new entry is taken |
| MedList.FlipUniqueIdCount | src/components/MedicationDashboard.tsx:66-80 | toggling an id held by one entry moves the taken count by exactly one |
| Dashboard.StatusListShape | medalert-assist/src/components/MedicationDashboard.tsx:67-76 | each card keeps the stored taken and the band of its time |
| Dashboard.StatusListTaken | medalert-assist/src/components/MedicationDashboard.tsx:67-76 | the taken counter equals the number of taken status entries |
| Dashboard.ApiListNothingTaken | medalert-assist/src/components/MedicationDashboard.tsx:87-97 | the fallback list marks nothing taken: all entries remain |
| Dashboard.DemoListCounts | medalert-assist/src/components/MedicationDashboard.tsx:122-164 | four demo entries with distinct ids, none taken |
| Dashboard.DemoListBands | medalert-assist/src/components/MedicationDashboard.tsx:122-164 | each demo entry's band is the band of its time |
| Dashboard.Dashboard.Fetch | medalert-assist/src/components/MedicationDashboard.tsx:41-108 | guest: the saved list or the demo list; signed in: the status view, else the error plus the fallback list, else the demo list |
| Dashboard.Dashboard.Toggle | medalert-assist/src/components/MedicationDashboard.tsx:178-237 | unknown id: nothing changes; otherwise that id flips, and a failure restores the list |
| Dashboard.Dashboard.Delete | medalert-assist/src/components/MedicationDashboard.tsx:239-289 | the id's entries are removed; a failure with a successful refetch replaces the list by the refetched one |
| Dashboard.Dashboard.AddSubmit | medalert-assist/src/components/MedicationDashboard.tsx:297-339 | appends exactly one entry (signed in: the created record, not taken, banded by its time) and closes the form; a failed create changes nothing |
| Dashboard.Dashboard.SetFormOpen | medalert-assist/src/components/MedicationDashboard.tsx:293-295 | opens or closes the add form, list unchanged |
| Dashboard.AddedFromApiIsPending | medalert-assist/src/components/MedicationDashboard.tsx:310-320 | an entry added from the backend leaves taken unchanged and raises remaining by one |
| LocalDashboard.InitialCounts | src/components/MedicationDashboard.tsx:28-64 | four entries with distinct ids, exactly one taken: 1 taken, 3 remaining |
| LocalDashboard.TakenCountPrepend | src/components/MedicationDashboard.tsx:107 | a taken entry in front adds one to the taken count |
| LocalDashboard.LocalDashboard.constructor | src/components/MedicationDashboard.tsx:28-64 | starts from the four fixed entries with the form closed |
| LocalDashboard.LocalDashboard.Toggle | src/components/MedicationDashboard.tsx:66-80 | the list becomes the id-flipped list |
| LocalDashboard.LocalDashboard.Delete | src/components/MedicationDashboard.tsx:82-89 | the list loses exactly the entries with that id |
| LocalDashboard.LocalDashboard.AddSubmit | src/components/MedicationDashboard.tsx:97-100 | one entry appended at the end, form closed |
| LocalDashboard.LocalDashboard.SetFormOpen | src/components/MedicationDashboard.tsx:93-95 | opens or closes the add form, list unchanged |
| NotificationInbox.UnreadCount | medalert-assist/src/contexts/NotificationContext.tsx:50 | the unread count never exceeds the list length |
| NotificationInbox.UnreadWithId | medalert-assist/src/contexts/NotificationContext.tsx:86-92 | unread notices with a given id are among the unread |
| NotificationInbox.PreferenceRoundTrip | medalert-assist/src/contexts/NotificationContext.tsx:35-47 | the stored speech string reads back to the flag it was written from |
| NotificationInbox.UnreadCountPrepend | medalert-assist/src/contexts/NotificationContext.tsx:63 | prepending an unread notice raises the unread count by one |
| NotificationInbox.AllReadNoneUnread | medalert-assist/src/contexts/NotificationContext.tsx:50 | a list of read notices has no unread |
| NotificationInbox.MarkAllClearsUnread | medalert-assist/src/contexts/NotificationContext.tsx:95-99 | after mark-all nothing is unread; each notice is the old one marked read |
| NotificationInbox.MarkReadShape | medalert-assist/src/contexts/NotificationContext.tsx:86-92 | only notices with that id are marked; marking again changes nothing |
| NotificationInbox.MarkReadCount | medalert-assist/src/contexts/NotificationContext.tsx:86-92 | the unread count drops by exactly the unread notices with that id |
| NotificationInbox.Inbox.constructor | medalert-assist/src/contexts/NotificationContext.tsx:29-47 | empty list; speech on unless a stored preference other than "true" exists |
| NotificationInbox.Inbox.ToggleSpeech | medalert-assist/src/contexts/NotificationContext.tsx:35-39 | the flag flips and the stored string is the new value |
| NotificationInbox.Inbox.Add | medalert-assist/src/contexts/NotificationContext.tsx:53-63 | one unread notice in front of the old list; unread count up by one |
| NotificationInbox.Inbox.MarkAsRead | medalert-assist/src/contexts/NotificationContext.tsx:86-92 | the list is marked for that id; unread drops by the id's unread notices |
| NotificationInbox.Inbox.MarkAllAsRead | medalert-assist/src/contexts/NotificationContext.tsx:95-99 | every notice read, unread count zero |
| NotificationInbox.Inbox.Clear | medalert-assist/src/contexts/NotificationContext.tsx:102-104 | the list is empty |
| AddMedicationForm.DosageTextShape | src/components/AddMedicationForm.tsx:73-76 | amount, space, unit, followed by an "s" exactly when parseInt(amount) > 1 |
| AddMedicationForm.ParsedHalf | src/components/AddMedicationForm.tsx:74 | parseInt reads the offered "0.5" as 0 |
| AddMedicationForm.ParsedAmounts | src/components/AddMedicationForm.tsx:74 | parseInt reads the offered "1", "2", "10" as 1, 2, 10 |
| AddMedicationForm.SingularDosages | src/components/AddMedicationForm.tsx:73-76 | "0.5 tablet" and "1 tablet" stay singular |
| AddMedicationForm.PluralDosages | src/components/AddMedicationForm.tsx:73-76 | "2 capsules" and "10 mls" take the plural |
| AddMedicationForm.Without | src/components/AddMedicationForm.tsx:81 | exactly the other days remain |
| AddMedicationForm.ToggledDaysMembership | src/components/AddMedicationForm.tsx:78-86 | toggling a day flips its membership and keeps every other day's |
| AddMedicationForm.ToggledDaysTwice | src/components/AddMedicationForm.tsx:78-86 | toggling the same day twice gives the same set of days |
| AddMedicationForm.Submission | src/components/AddMedicationForm.tsx:115-139 | nothing iff name or dosage is empty; otherwise a medication with the given id, not taken, carrying the form's name, dosage, time, band, instructions, frequency, start and end dates and no notes, with week days (the selected ones) iff the frequency is "specific-days" |
| AddMedicationForm.Wizard.constructor | src/components/AddMedicationForm.tsx:35-49 | step 1, the initial form, one tablet, all seven days |
| AddMedicationForm.Wizard.HandleInputChange | src/components/AddMedicationForm.tsx:51-54 | the named field takes the value; nothing else changes |
| AddMedicationForm.Wizard.PickName | src/components/AddMedicationForm.tsx:206 | the name becomes the picked medicine |
| AddMedicationForm.Wizard.PickFrequency | src/components/AddMedicationForm.tsx:279 | the frequency becomes the picked value |
| AddMedicationForm.Wizard.PickDosage | src/components/AddMedicationForm.tsx:224-240 | only the picker state changes |
| AddMedicationForm.Wizard.HandleTimeChange | src/components/AddMedicationForm.tsx:56-71 | the time and the band of its hour |
| AddMedicationForm.Wizard.HandleDayToggle | src/components/AddMedicationForm.tsx:78-86 | the selected days become the toggled days |
| AddMedicationForm.Wizard.NextStep | src/components/AddMedicationForm.tsx:88-107 | step 1 without a name stays; leaving step 2 fixes the dosage text; steps 1-3 advance by one; step 4 submits and stays; step always in 1..4 |
| AddMedicationForm.Wizard.PrevStep | src/components/AddMedicationForm.tsx:109-113 | back one step, never below 1 |
| AuthDialog.CaptchaOf | src/components/AuthDialog.tsx:29-35 | six characters, all from the alphabet |
| AuthDialog.BuildCaptcha | src/components/AuthDialog.tsx:30-34 | the loop spells the code of the draws: six characters from the alphabet |
| AuthDialog.FirstAt | src/components/AuthDialog.tsx:54 | the index of the first '@', or the length |
| AuthDialog.ValidateEmailIsPattern | src/components/AuthDialog.tsx:53-55 | the email check accepts exactly what ^[^\s@]+@[^\s@]+\.[^\s@]+$ matches |
| AuthDialog.CheckedEmailMatches | src/components/AuthDialog.tsx:53-55 | what the check accepts the pattern matches |
| AuthDialog.MatchedEmailChecks | src/components/AuthDialog.tsx:53-55 | what the pattern matches the check accepts |
| AuthDialog.ValidEmailHasOneAt | src/components/AuthDialog.tsx:54 | an accepted address has exactly one '@' |
| AuthDialog.EmailExamples | src/components/AuthDialog.tsx:54 | "a@b.co" is accepted |
| AuthDialog.MalformedEmailExamples | src/components/AuthDialog.tsx:54 | no dot after the '@', an empty local part, a dot first or last in the domain are rejected |
| AuthDialog.ForbiddenCharacterExamples | src/components/AuthDialog.tsx:54 | a space or a second '@' is rejected |
| AuthDialog.LoginCheck | src/components/AuthDialog.tsx:59-96 | the first failing check in order: empty field, malformed email, CAPTCHA mismatch; accepted only when all pass |
| AuthDialog.SignupCheck | src/components/AuthDialog.tsx:100-155 | the first failing check in order: empty field, malformed email, passwords differ, under 8 characters, CAPTCHA mismatch; accepted only when all pass |
| AuthDialog.AcceptedEmailMatchesPattern | src/components/AuthDialog.tsx:59-155 | an accepted login or signup carries an address the pattern matches |
| AuthDialog.Dialog.constructor | src/components/AuthDialog.tsx:19-42 | empty inputs, the default tab, a first CAPTCHA |
| AuthDialog.Dialog.GenerateCaptcha | src/components/AuthDialog.tsx:29-37 | a new code from the draws and the typed answer cleared |
| AuthDialog.Dialog.Type | src/components/AuthDialog.tsx:185-276 | the typed input takes the value, nothing else |
| AuthDialog.Dialog.HandleTabChange | src/components/AuthDialog.tsx:44-51 | the new tab, email, passwords and answer cleared, a new code |
| AuthDialog.Dialog.HandleLogin | src/components/AuthDialog.tsx:59-96 | the login check's outcome; a mismatch draws a new code and clears the answer; success hands the email to login and closes |
| AuthDialog.Dialog.HandleSignup | src/components/AuthDialog.tsx:100-155 | the signup check's outcome; a mismatch draws a new code and clears the answer; success hands the email to signup and closes |
| Settings.FlipNotification | medalert-assist/src/pages/Settings.tsx:51-59 | the keyed switch flips, the other switches keep their values |
| Settings.FlipPrivacy | medalert-assist/src/pages/Settings.tsx:61-69 | the keyed switch flips, the other switch keeps its value |
| Settings.FlipNotificationTwice | medalert-assist/src/pages/Settings.tsx:51-59 | flipping the same switch twice restores the record |
| Settings.FlipPrivacyTwice | medalert-assist/src/pages/Settings.tsx:61-69 | flipping the same switch twice restores the record |
| Settings.InitialSettings | medalert-assist/src/pages/Settings.tsx:28-40 | email, push and sound on, sms off, both privacy switches on |
| Settings.SettingsPage.HandleThemeChange | medalert-assist/src/pages/Settings.tsx:42-49 | theme set, notifications and privacy unchanged, theme handed to the context |
| Settings.SettingsPage.HandleNotificationChange | medalert-assist/src/pages/Settings.tsx:51-59 | only that notification switch flips; theme and privacy unchanged |
| Settings.SettingsPage.HandlePrivacyChange | medalert-assist/src/pages/Settings.tsx:61-69 | only that privacy switch flips; theme and notifications unchanged |

## Left out

- Time zones and daylight saving: a day is always 86 400 000 ms, and `setHours`/`setDate` are arithmetic on that.
- The parsing of a date string: `new Date("YYYY-MM-DD")` is read as UTC and then truncated in local time. The model takes the parsed instant as an integer.
- Concurrency: requests run one at a time. The non-atomic find-then-create of the status handlers is therefore never raced. The unique index is stated as the store invariant rather than enforced against a duplicate insert.
- Reminders.Upcoming, Reminders.Today, MedicationRoutes.Registry.List: each is proved sorted and a permutation, but the stability of the JavaScript sort (the order among equal keys) is not stated.
- Reminders: the handlers read `schedule` and `dose`, which the medication schema does not define. The model gives each medication a sequence of validated times. Against the real schema, the loop over an undefined `schedule` would throw and answer 500.
- Reminders.Today: the source reads the clock separately for `today` and for each `isPast`. The model uses one `now` for both.
- Reminders.Upcoming: the model reads the clock once, and with that single `now` the filter `nextOccurrence <= tomorrow` never drops a pair. The source's `getNextOccurrence` (reminder.routes.ts:12) reads the clock again after the handler's `now` (line 35), so a time that falls between the two readings gets tomorrow's date plus a few milliseconds and is filtered out; that boundary is not modelled.
- StatusRoutes.StatusStore.Put: a body `taken` that is not a boolean is not modelled. The parameter is a `bool`.
- The `createdAt`/`updatedAt` timestamps of status rows are not modelled: nothing reads them.
- A 500 from a failing database call is not modelled, except the schema rejections of create and update.
- The authenticated dashboard's toggle posts a notification and speaks when the entry becomes taken. Toasts, speech, browser notifications and console output are side effects the model leaves out. `failed` stands for an exception they might throw.
- The request body the dashboard sends on create (`frequency || 'Daily'`) is not modelled. The created record is an input.
- The localStorage mirror of the guest list is not modelled. The saved list (or its absence or a parse failure, as `None`) is an input to `Fetch`.
- `completionRate` is left out: it rounds a floating-point ratio and is NaN for an empty list.
- AddMedicationForm.Wizard.HandleTimeChange, AddMedicationForm.DosageText: `parseInt` without a radix would read a "0x" prefix as hexadecimal. The model uses the decimal reading throughout. The time input only produces HH:MM, and the dosage amounts come from the fixed list `DosageAmounts`, so neither can carry such a prefix.
- Dashboard.FromStatusItem: the status view's card id uses the same `|| ''` default as the fallback list; the source copies `item.medication._id` with no default. The two differ only for a status reply whose medication has no `_id`, which a stored document always has.
- AuthDialog.SignupCheck: `password.length` counts UTF-16 code units. The model counts characters, which differ only for characters outside the Basic Multilingual Plane.
- AuthDialog.Dialog.HandleTabChange: when the tab really changes, the effect draws a second code after the handler's. `picks` is the last draw.
- The remember-me checkbox is not modelled: it changes a flag nothing reads.
- The `login` and `signup` calls of the authentication context, JWT handling, password hashing and the HTTP services are not modelled. The backend takes the caller's user id as given.
- Settings' `handleSaveAll` is not modelled: it only shows a toast and changes no state.
- MedicationModel.UpdatedMedication: the model assumes that undefined fields in the update object are dropped, as Mongoose does by default, so a field absent from the request keeps its stored value.
