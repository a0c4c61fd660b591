# Outlook to Google Calendar sync, modelled in Dafny

The program mirrors an Outlook calendar into a Google calendar. It keeps a
local SQLite table of `GoogleEvent` rows. Each row links an Outlook
appointment (its `GlobalAppointmentID`, stored as `CalUid`) to the Google
event created for it (`GoogleEventId`). The row also keeps copies of the four
fields the next pass compares: summary, start, end and description.

A pass has three steps:

1. Load the rows that are recurring or start today or later, keyed by `CalUid`.
2. Walk the Outlook appointments in order:
   - a matched appointment whose subject, start, end or body differs is
     updated in Google and in its row;
   - a matched appointment that agrees with its row is left alone;
   - either way the matched key leaves the lookup;
   - an unmatched appointment is inserted into Google and gets a new row.
3. Every key still in the lookup is deleted, first from the table and then
   from Google.

A failure at one appointment or one delete is caught, logged and skipped.
The recurrence of a recurring appointment becomes an iCalendar rule. The rule
is restricted to FREQ, INTERVAL and BYDAY (RFC 5545, section 3.3.10).

Modules, one per file:

- `Wrappers` (wrappers.dfy): `Option` and `Result`.
- `Decimal` (decimal.dfy): how `Int32.ToString()` spells the interval, and the
  inverse reading.
- `Recurrence` (recurrence.dfy):
  - `RecurrencePatternToICal` follows the source step by step.
  - `Meaning`, `Render` and `Parse` are an independent reference: the rule as
    a value, its canonical text, and a reader for that text.
- `Conversion` (conversion.dfy): `Appointment`, the Google `Event` payload,
  and `ConvertToGoogleEvent`.
- `Mirror` (mirror.dfy): `MirrorRecord`, the `GoogleEvent` row with the fields
  of `GoogleEvent.cs`. Also the table as a sequence of rows in storage order,
  and the queries and writes a pass makes.
- `Reconciliation` (reconciliation.dfy): one pass as a pure function.
  - `State` threads the table, the Google calendar (event id to payload), the
    lookup, the calls issued and a report with one outcome per event.
  - `Env` supplies what the source gets from outside: the time zone, today's
    date, the id Google returns for each insert, the Guid of each new row, and
    whether each Google call or save throws.
- `PassProperties` (properties.dfy): properties of a whole pass, and the
  counterexample of the finding below.
- `Idempotence` (idempotence.dfy): a pass in which everything succeeds leaves
  the table in sync, and a second pass over a table in sync does nothing.

Behaviour of the code that its own comments or a reader might not expect,
which the model keeps as written:

- A recurring appointment always gets a one-element recurrence list
  (`OutlookToGoogleSync.cs:196-201`). For a recurrence type the switch marks
  "Unsupported recurrence type" (`:247`), that element is the empty string:
  the field is not left out.
- A weekly pattern with no day marked yields `RRULE:FREQ=WEEKLY;BYDAY=`
  (`:257-269`), a dangling `BYDAY`.
- The comment at `:83` says a matched key leaves the lookup so that the
  remaining keys are the deleted events. The removal at `:84` sits after
  `UpdateEvent` inside the try block, so a thrown update skips it. The delete
  loop then deletes that appointment's event (see Findings).
- `CreateEvent` inserts into Google first and adds the row only after that
  (`:122-138`), so no row ever exists without a Google event id.
- A CalUid appearing twice among the loaded rows makes `ToDictionary` throw
  (`:59`). That line is outside any try block, so the pass aborts before any
  call. `Sync` returns `Failure` exactly then.

## Model

| member | source | states |
|---|---|---|
| Recurrence.FreqOf | CalendarSync/OutlookToGoogleSync.cs:230-248 | the switch maps daily to DAILY, weekly to WEEKLY, monthly and month-nth to MONTHLY, yearly and year-nth to YEARLY, each in both directions, and yields no frequency exactly for an unsupported recurrence type |
| Recurrence.RecurrencePatternToICal | CalendarSync/OutlookToGoogleSync.cs:226-272 | the result is empty exactly for an unsupported recurrence type; otherwise it starts with `RRULE:FREQ=` and continues past it |
| Recurrence.TranslatorMatchesRender | CalendarSync/OutlookToGoogleSync.cs:226-272 | the translator's text is the canonical rendering of the pattern's meaning: FREQ, then `;INTERVAL=n` only when the interval exceeds one, then for weekly patterns only `;BYDAY=` and the marked days joined by commas |
| Recurrence.TranslatorRoundTrip | CalendarSync/OutlookToGoogleSync.cs:226-272 | reading the translator's text back gives the pattern's meaning (frequency, interval only when above one, weekly day list), and `""` reads as no rule |
| Recurrence.MarkedTokensJoin | CalendarSync/OutlookToGoogleSync.cs:258-264 | the tokens the seven mask tests append are the comma-join of the marked days plus one trailing comma, or nothing when no day is marked |
| Recurrence.ByDayAsWritten | CalendarSync/OutlookToGoogleSync.cs:257-267 | after `TrimEnd(',')` the BYDAY text is `;BYDAY=` followed by the marked days joined by commas, with no trailing comma |
| Recurrence.TrimEnd | CalendarSync/OutlookToGoogleSync.cs:267 | the trimmed text is a prefix of the input, does not end in the trimmed character, and only that character was removed |
| Recurrence.WeeklyDaysAreMask | CalendarSync/OutlookToGoogleSync.cs:255-264 | a weekly pattern's day list holds exactly the days of its mask, in Monday to Sunday order |
| Recurrence.SelectedIsCanonical | CalendarSync/OutlookToGoogleSync.cs:258-264 | selecting the marked days keeps the Monday-to-Sunday order in which the mask bits are checked |
| Recurrence.WeeklyMondayWednesday | CalendarSync/OutlookToGoogleSync.cs:226-272 | weekly, interval 2, Monday and Wednesday gives `RRULE:FREQ=WEEKLY;INTERVAL=2;BYDAY=MO,WE` |
| Recurrence.WeeklyEmptyMask | CalendarSync/OutlookToGoogleSync.cs:255-269 | weekly with interval 1 and no day marked gives `RRULE:FREQ=WEEKLY;BYDAY=` |
| Decimal.FromNat | CalendarSync/OutlookToGoogleSync.cs:252 | the interval is spelled as at least one decimal digit with no leading zero |
| Decimal.ToNatFromNat | CalendarSync/OutlookToGoogleSync.cs:252 | reading the spelled interval back gives the interval |
| Conversion.ConvertToGoogleEvent | CalendarSync/OutlookToGoogleSync.cs:177-224 | summary, description, start and end are copied, with the configured time zone on both times; a recurrence is present exactly for a recurring appointment and is the one translated rule; the status is confirmed, tentative or transparent exactly for busy or out-of-office, tentative and free, and absent otherwise; the transparency is "transparent" exactly for free and "opaque" otherwise |
| Conversion.RecurrenceReadsBack | CalendarSync/OutlookToGoogleSync.cs:195-201 | the recurrence attached to a recurring appointment's payload reads back as its pattern's meaning, and is `""` exactly for an unsupported type |
| Conversion.PayloadDeterminedBy | CalendarSync/OutlookToGoogleSync.cs:177-224 | two appointments give the same payload exactly when they agree on subject, times, body, recurring flag, rule text, status and free-ness |
| Mirror.Window | CalendarSync/OutlookToGoogleSync.cs:54 | the loaded rows are exactly the rows that are recurring or start today or later, and distinct ids stay distinct |
| Mirror.ToDictionary | CalendarSync/OutlookToGoogleSync.cs:59 | the lookup is built exactly when no CalUid repeats; its keys are the rows' CalUids and each key holds its row; otherwise the error names a CalUid met twice |
| Mirror.Overwrite | CalendarSync/OutlookToGoogleSync.cs:151-154 | overwriting keeps the table's length and row order; the row with the given id gets the appointment's subject, start, end and body, and every other row is unchanged |
| Mirror.OverwriteMembers | CalendarSync/OutlookToGoogleSync.cs:151-155 | an update changes only the targeted row, and that row gets the appointment's four fields |
| Mirror.OverwriteKeepsIds | CalendarSync/OutlookToGoogleSync.cs:151-155 | an update keeps every id, so the primary key stays a key |
| Mirror.RemoveRow | CalendarSync/OutlookToGoogleSync.cs:161-162 | removing a row leaves exactly the rows with other ids |
| Reconciliation.UpdateEvent | CalendarSync/OutlookToGoogleSync.cs:144-156 | one Update call with the rebuilt payload under the row's event id; the calendar changes unless the call throws; when nothing throws the row gets the appointment's four fields, otherwise the table is unchanged; the outcome is "updated" exactly on success, otherwise a failure naming the fault |
| Reconciliation.CreateEvent | CalendarSync/OutlookToGoogleSync.cs:119-142 | one Insert call with the payload; the calendar gains the event unless the call throws; the outcome is "created" exactly when nothing throws and the new Guid is not already a row id, and then the row with the returned event id and that Guid is added; otherwise the outcome is a remote or store failure as appropriate and the table is unchanged |
| Reconciliation.DeleteEvent | CalendarSync/OutlookToGoogleSync.cs:158-166 | the row goes and a Delete call follows unless the save throws; the event leaves the calendar exactly when both succeed; the outcome is "deleted" exactly then, otherwise a failure naming the fault |
| Reconciliation.ProcessAppointment | CalendarSync/OutlookToGoogleSync.cs:63-98 | a matched appointment that agrees with its row changes nothing and is reported unchanged; a differing one issues one Update; an unmatched one issues one Insert; its key stays in the lookup exactly when its update threw; rows not loaded are kept |
| Reconciliation.ProcessAppointments | CalendarSync/OutlookToGoogleSync.cs:63-98 | one outcome per appointment, in Outlook order, after the earlier ones; at most one call each; the lookup only shrinks, and a key no processed appointment carries stays in it; rows not loaded are kept |
| Reconciliation.Leftovers | CalendarSync/OutlookToGoogleSync.cs:100-102 | the rows left to delete are exactly the loaded rows whose key is still in the lookup, in load order, and with distinct loaded CalUids each remaining key's row appears once |
| Reconciliation.DeleteEvents | CalendarSync/OutlookToGoogleSync.cs:100-114 | one outcome per leftover row, in order; at most one call each; only rows with a leftover id can go |
| Reconciliation.Sync | CalendarSync/OutlookToGoogleSync.cs:43-117 | the pass aborts exactly when two loaded rows share a CalUid |
| PassProperties.EveryEventAttempted | CalendarSync/OutlookToGoogleSync.cs:63-98 | whatever fails, the first outcomes of a pass are one per appointment, in Outlook order |
| PassProperties.DeletesAreLoadedRows | CalendarSync/OutlookToGoogleSync.cs:100-114 | every outcome after the appointments' is about a loaded row |
| PassProperties.DeleteLoopFaults | CalendarSync/OutlookToGoogleSync.cs:102-114 | a delete is reported failed exactly when that delete failed, whatever happened to the others; distinct row ids stay distinct |
| PassProperties.DeleteLoopRemovesEach | CalendarSync/OutlookToGoogleSync.cs:102-114 | when no delete save fails, each leftover row gets one Delete call, in order; exactly the rows with leftover ids leave the table; an event whose delete succeeded leaves the calendar |
| PassProperties.KeysReleased | CalendarSync/OutlookToGoogleSync.cs:69-85 | after the first loop, an appointment's key is still in the lookup only if that appointment was reported failed, and never when keys are released whatever the update did |
| PassProperties.CreatedRowsPersist | CalendarSync/OutlookToGoogleSync.cs:119-138 | during the first loop, an appointment reported created carries the returned event id; its row stays in the table under a Guid that no loaded row has |
| PassProperties.CreatedIsCommitted | CalendarSync/OutlookToGoogleSync.cs:119-142 | at the end of a pass, every appointment reported created has its row in the table, with the returned event id, under a Guid no loaded row had |
| PassProperties.OutsideWindowUntouched | CalendarSync/OutlookToGoogleSync.cs:54 | a row that is not recurring and starts before today is still in the table after the pass |
| PassProperties.DeletesOnlyVanishedFor | CalendarSync/OutlookToGoogleSync.cs:63-114 | an appointment whose key had to be released is never among the deletes |
| PassProperties.VanishedReachesDelete | CalendarSync/OutlookToGoogleSync.cs:84-102 | a loaded row whose CalUid no appointment carries is still keyed after the first loop, so the delete loop visits it |
| PassProperties.LeftoverDeleted | CalendarSync/OutlookToGoogleSync.cs:102-107 | when no delete save fails, every row the delete loop visits leaves the table and its event gets a Delete call |
| PassProperties.VanishedRowsDeleted | CalendarSync/OutlookToGoogleSync.cs:100-114 | when no delete save fails, a loaded row whose CalUid no appointment carries is gone from the table after the pass, and its Google event got a Delete call |
| PassProperties.DeletesOnlyVanished | CalendarSync/OutlookToGoogleSync.cs:83-84 | with the key released whatever the update did, no appointment still in Outlook is deleted |
| PassProperties.FailedUpdateIsDeleted | CalendarSync/OutlookToGoogleSync.cs:79-84 | as written, a thrown update of an appointment still in Outlook leads to that row and its Google event being deleted in the same pass |
| PassProperties.FailedUpdateIsKept | CalendarSync/OutlookToGoogleSync.cs:83-84 | with the key released, the same input keeps the row |
| Idempotence.FirstPassSyncs | CalendarSync/OutlookToGoogleSync.cs:43-117 | the resulting table is in sync with Outlook: each appointment has exactly one row in the window, and that row agrees with it. This holds when every call and save succeeds, new Guids are fresh, appointment ids are distinct and no appointment starts before today |
| Idempotence.QuietOnInSync | CalendarSync/OutlookToGoogleSync.cs:43-117 | whatever the faults, a pass over a table in sync issues no call, changes neither the table nor the calendar, and reports every appointment unchanged |
| Idempotence.SecondPassIsQuiet | CalendarSync/OutlookToGoogleSync.cs:43-117 | after a fully successful pass, a second pass on the same day creates, updates and deletes nothing |

## Left out

- Reading Outlook (`GetOutlookAppointments`, `:168-175`) is left out. The appointments are an input sequence, in the order the sorted query returns them.
  - The idempotence lemmas assume, like the query's filter at `:170`, that no appointment starts before today.
  - The query's one-year upper bound is not modelled.
- COM failures while reading an appointment's properties are not modelled. Every failure at an appointment is one of the modelled faults: the Google call throws, or the save throws.
- The Google client, credentials and the constructor (`:18-37`) are left out. A Google call is a `Call` value plus a change to the calendar map. Whether it throws comes from the environment.
- Entity Framework and SQLite are left out. The table is a sequence of rows, and a failed `SaveChanges` is a store fault. Two details are not modelled:
  - a failed save leaves its change tracked, so the next save may retry it;
  - the `SingleAsync` read-back at `:141` cannot fail after a successful save.
- A `Guid.NewGuid()` clash is not an ordinary failure here. The Guid comes from the environment, and a clash with an existing row counts as a failed save.
- `DateTime.Now` is replaced: `today` comes from the environment, and times are integer tick counts.
- `async`/`await` and the console logging are left out. They change no state the model tracks.
- `Program.cs` (the repeat loop) and `GoogleCalendarApiConfig.cs` (configuration) are left out.
- The order of the delete loop is the load order. `Dictionary.Values` enumerates in insertion order when entries were only removed, which .NET does but does not document; a different enumeration order would change only the order of the delete calls and outcomes.
- Mask bits outside the seven days are dropped: the day-of-week bit mask is the set of days whose bit is set.
- Reconciliation.DeleteEvents: its contract only bounds which rows can go. The exact removal is stated, for the case where no delete save fails, by PassProperties.DeleteLoopRemovesEach.
- Idempotence.FirstPassSyncs: it is proved only for passes in which every call and save succeeds. With failures the table need not be in sync, and the next pass retries.

## Findings

| source | as written | input that shows it | evidently intended | confidence | as-written member | corrected member |
|---|---|---|---|---|---|---|
| CalendarSync/OutlookToGoogleSync.cs:79-84 | The matched key is removed only after `UpdateEvent` returns. When the update throws, the catch at `:94-97` skips the removal, so the delete loop at `:102-114` deletes the row and the Google event of an appointment that is still in Outlook. | One loaded row (CalUid "A", event "g", summary "old"); Outlook appointment "A" with subject "new"; the Google update throws and the delete succeeds. The report is [failed A, deleted A] and the table ends empty. | A matched key leaves the lookup whatever the update did (the comment at `:83`), so only appointments gone from Outlook are deleted and the failed update is retried next pass. | high; not executed | PassProperties.FailedUpdateIsDeleted | PassProperties.DeletesOnlyVanished |
