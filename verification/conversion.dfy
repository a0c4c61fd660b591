/**
 * Building the Google Calendar payload from an Outlook appointment:
 * summary, body and times copied across with the configured time zone, the
 * translated recurrence rule for recurring appointments, and the busy status
 * mapped to an event status and a transparency.
 */
module Conversion {
  import opened Wrappers
  import opened Recurrence

  /**
   * Outlook's OlBusyStatus. Like every C# enum it is int-backed, so a value
   * outside the five named ones is possible; the switch has no case for it.
   */
  datatype BusyStatus =
    | Free | Tentative | Busy | OutOfOffice | WorkingElsewhere
    | OtherStatus(code: int)

  /**
   * The fields of an Outlook AppointmentItem the sync reads. Times are
   * DateTime values, modelled as their tick counts. `pattern` is what
   * GetRecurrencePattern() returns; it is only read when `isRecurring`.
   */
  datatype Appointment = Appointment(
    globalId: string,
    subject: string,
    start: int,
    end: int,
    body: string,
    isRecurring: bool,
    pattern: Pattern,
    busy: BusyStatus)

  /** Google's EventDateTime: a moment and the time zone it is read in. */
  datatype EventDateTime = EventDateTime(dateTime: int, timeZone: string)

  /**
   * The Google Calendar event resource as the sync fills it. Fields the
   * source never assigns are left out; an unassigned Recurrence or Status is
   * None.
   */
  datatype Event = Event(
    summary: string,
    start: EventDateTime,
    end: EventDateTime,
    description: string,
    recurrence: Option<seq<string>>,
    status: Option<string>,
    transparency: string)

  /** The status the busy-status switch assigns, None where it assigns nothing. */
  function StatusOf(b: BusyStatus): Option<string> {
    match b
    case Busy | OutOfOffice => Some("confirmed")
    case Tentative => Some("tentative")
    case Free => Some("transparent")
    case WorkingElsewhere => None
    case OtherStatus(_) => None
  }

  function TransparencyOf(b: BusyStatus): string {
    if b == Free then "transparent" else "opaque"
  }

  /** The payload for an appointment, for the configured time zone. */
  function ConvertToGoogleEvent(a: Appointment, timeZone: string): (g: Event)
    ensures g.summary == a.subject && g.description == a.body
    ensures g.start == EventDateTime(a.start, timeZone)
    ensures g.end == EventDateTime(a.end, timeZone)
    ensures g.recurrence.Some? <==> a.isRecurring
    ensures g.recurrence.Some? ==> g.recurrence.value == [RecurrencePatternToICal(a.pattern)]
    ensures g.transparency == "transparent" <==> a.busy == Free
    ensures g.transparency == "transparent" || g.transparency == "opaque"
    ensures g.status == Some("confirmed") <==> a.busy == Busy || a.busy == OutOfOffice
    ensures g.status == Some("tentative") <==> a.busy == Tentative
    ensures g.status == Some("transparent") <==> a.busy == Free
    ensures g.status.None? <==> a.busy == WorkingElsewhere || a.busy.OtherStatus?
    ensures g.status == Some("transparent") <==> g.transparency == "transparent"
  {
    Event(
      a.subject,
      EventDateTime(a.start, timeZone),
      EventDateTime(a.end, timeZone),
      a.body,
      if a.isRecurring then Some([RecurrencePatternToICal(a.pattern)]) else None,
      StatusOf(a.busy),
      TransparencyOf(a.busy))
  }

  /**
   * The recurrence attached to a recurring appointment reads back as the
   * pattern's meaning; for an unsupported recurrence type the source still
   * attaches a rule, and that rule is the empty string.
   */
  lemma RecurrenceReadsBack(a: Appointment, timeZone: string)
    requires a.isRecurring
    ensures var g := ConvertToGoogleEvent(a, timeZone);
      && g.recurrence.Some? && |g.recurrence.value| == 1
      && Parse(g.recurrence.value[0]) == Meaning(a.pattern)
      && (a.pattern.kind.OtherType? <==> g.recurrence.value[0] == "")
  {
    TranslatorRoundTrip(a.pattern);
  }

  /** Two appointments give the same payload exactly when every field the payload copies agrees. */
  lemma PayloadDeterminedBy(a: Appointment, b: Appointment, timeZone: string)
    ensures ConvertToGoogleEvent(a, timeZone) == ConvertToGoogleEvent(b, timeZone) <==>
      && a.subject == b.subject && a.start == b.start && a.end == b.end && a.body == b.body
      && a.isRecurring == b.isRecurring
      && (a.isRecurring ==> RecurrencePatternToICal(a.pattern) == RecurrencePatternToICal(b.pattern))
      && StatusOf(a.busy) == StatusOf(b.busy) && (a.busy == Free <==> b.busy == Free)
  {
    var ga := ConvertToGoogleEvent(a, timeZone);
    var gb := ConvertToGoogleEvent(b, timeZone);
    if ga == gb && a.isRecurring {
      assert ga.recurrence.value[0] == gb.recurrence.value[0];
    }
  }
}
