/**
 * The recurrence translator: an Outlook recurrence pattern becomes an
 * iCalendar recurrence rule restricted to FREQ, INTERVAL and BYDAY
 * (RFC 5545, section 3.3.10), or the empty string when the recurrence type
 * is not supported.
 *
 * `RecurrencePatternToICal` follows the source step by step (append the
 * frequency, maybe the interval, then for weekly patterns one "XX," token per
 * marked day and a final TrimEnd of commas). `Render` and `Parse` are an
 * independent reference: the rule as a value, its canonical text, and a
 * reader for that text.
 */
module Recurrence {
  import opened Wrappers
  import opened Decimal

  datatype Weekday = Monday | Tuesday | Wednesday | Thursday | Friday | Saturday | Sunday

  /** The order in which the day-of-week mask bits are checked, Monday first. */
  const WeekOrder: seq<Weekday> :=
    [Monday, Tuesday, Wednesday, Thursday, Friday, Saturday, Sunday]

  /** Position of a day in `WeekOrder`. */
  function DayIndex(d: Weekday): (k: nat)
    ensures k < 7 && WeekOrder[k] == d
  {
    match d
    case Monday => 0
    case Tuesday => 1
    case Wednesday => 2
    case Thursday => 3
    case Friday => 4
    case Saturday => 5
    case Sunday => 6
  }

  /** The two-letter iCalendar weekday token. */
  function DayToken(d: Weekday): (t: string)
    ensures |t| == 2 && t[1] != ','
  {
    match d
    case Monday => "MO"
    case Tuesday => "TU"
    case Wednesday => "WE"
    case Thursday => "TH"
    case Friday => "FR"
    case Saturday => "SA"
    case Sunday => "SU"
  }

  /**
   * Outlook's OlRecurrenceType. The enumeration is a C# int-backed enum, so a
   * value outside the six named ones is possible; it reaches the default
   * branch of the switch.
   */
  datatype RecurrenceType =
    | Daily | Weekly | Monthly | MonthNth | Yearly | YearNth
    | OtherType(code: int)

  /**
   * The parts of an Outlook RecurrencePattern the translator reads. The
   * OlDaysOfWeek bit mask is modelled as the set of days whose bit is set.
   */
  datatype Pattern = Pattern(kind: RecurrenceType, interval: int, dayMask: set<Weekday>)

  datatype Freq = FreqDaily | FreqWeekly | FreqMonthly | FreqYearly

  function FreqToken(f: Freq): string {
    match f
    case FreqDaily => "DAILY"
    case FreqWeekly => "WEEKLY"
    case FreqMonthly => "MONTHLY"
    case FreqYearly => "YEARLY"
  }

  /** The frequency a recurrence type maps to; None for an unsupported type. */
  function FreqOf(k: RecurrenceType): (f: Option<Freq>)
    ensures f.None? <==> k.OtherType?
    ensures f == Some(FreqDaily) <==> k == Daily
    ensures f == Some(FreqWeekly) <==> k == Weekly
    ensures f == Some(FreqMonthly) <==> k == Monthly || k == MonthNth
    ensures f == Some(FreqYearly) <==> k == Yearly || k == YearNth
  {
    match k
    case Daily => Some(FreqDaily)
    case Weekly => Some(FreqWeekly)
    case Monthly | MonthNth => Some(FreqMonthly)
    case Yearly | YearNth => Some(FreqYearly)
    case OtherType(_) => None
  }

  const RulePrefix: string := "RRULE:FREQ="

  /** `String.TrimEnd(c)`: drop every trailing occurrence of `c`. */
  function TrimEnd(s: string, c: char): (t: string)
    ensures |t| <= |s| && t == s[..|t|]
    ensures |t| == 0 || t[|t| - 1] != c
    ensures forall i :: |t| <= i < |s| ==> s[i] == c
  {
    if |s| > 0 && s[|s| - 1] == c then TrimEnd(s[..|s| - 1], c) else s
  }

  /** One "XX," token per day of `days` that is in the mask, in the order of `days`. */
  function MarkedTokens(mask: set<Weekday>, days: seq<Weekday>): string {
    if |days| == 0 then ""
    else (if days[0] in mask then DayToken(days[0]) + "," else "") + MarkedTokens(mask, days[1..])
  }

  /** The translator as the source writes it. */
  function RecurrencePatternToICal(p: Pattern): (r: string)
    ensures r == "" <==> p.kind.OtherType?
    ensures !p.kind.OtherType? ==> |r| > |RulePrefix| && r[..|RulePrefix|] == RulePrefix
  {
    match FreqOf(p.kind)
    case None => ""
    case Some(f) =>
      var head := RulePrefix + FreqToken(f);
      var withInterval := if p.interval > 1 then head + ";INTERVAL=" + FromNat(p.interval) else head;
      if p.kind != Weekly then withInterval
      else withInterval + TrimEnd(";BYDAY=" + MarkedTokens(p.dayMask, WeekOrder), ',')
  }

  // ---------------------------------------------------------------------
  // Reference definition: the rule as a value, and its canonical text.

  /** A restricted RRULE: frequency, optional INTERVAL, optional BYDAY list. */
  datatype Rule = Rule(freq: Freq, interval: Option<nat>, byDay: Option<seq<Weekday>>)

  /** The days of `days` that are in the mask, keeping the order of `days`. */
  function Selected(mask: set<Weekday>, days: seq<Weekday>): (ds: seq<Weekday>)
    ensures forall d :: d in ds <==> d in mask && d in days
    ensures |ds| <= |days|
  {
    if |days| == 0 then []
    else (if days[0] in mask then [days[0]] else []) + Selected(mask, days[1..])
  }

  /** Comma-separated day tokens, no trailing separator. */
  function Join(ds: seq<Weekday>): string {
    if |ds| == 0 then ""
    else if |ds| == 1 then DayToken(ds[0])
    else DayToken(ds[0]) + "," + Join(ds[1..])
  }

  function Render(rule: Rule): string {
    RulePrefix + FreqToken(rule.freq) + IntervalText(rule.interval) + ByDayText(rule.byDay)
  }

  function IntervalText(iv: Option<nat>): string {
    match iv case Some(n) => ";INTERVAL=" + FromNat(n) case None => ""
  }

  function ByDayText(bd: Option<seq<Weekday>>): string {
    match bd case Some(ds) => ";BYDAY=" + Join(ds) case None => ""
  }

  /**
   * What a pattern means as a rule: its frequency, an interval only when it
   * exceeds one, and for weekly patterns the marked days Monday to Sunday.
   */
  function Meaning(p: Pattern): Option<Rule> {
    match FreqOf(p.kind)
    case None => None
    case Some(f) =>
      Some(Rule(f,
                if p.interval > 1 then Some(p.interval as nat) else None,
                if p.kind == Weekly then Some(Selected(p.dayMask, WeekOrder)) else None))
  }

  // ---------------------------------------------------------------------
  // A reader for the restricted rule text.

  predicate StartsWith(s: string, t: string) {
    |t| <= |s| && s[..|t|] == t
  }

  function ParseFreq(s: string): Option<(Freq, string)> {
    if StartsWith(s, "DAILY") then Some((FreqDaily, s[5..]))
    else if StartsWith(s, "WEEKLY") then Some((FreqWeekly, s[6..]))
    else if StartsWith(s, "MONTHLY") then Some((FreqMonthly, s[7..]))
    else if StartsWith(s, "YEARLY") then Some((FreqYearly, s[6..]))
    else None
  }

  function ParseInterval(s: string): Option<(Option<nat>, string)> {
    if StartsWith(s, ";INTERVAL=") then
      var digits := TakeDigits(s[10..]);
      if |digits| == 0 then None else Some((Some(ToNat(digits)), s[10 + |digits|..]))
    else Some((None, s))
  }

  function TokenDay(t: string): Option<Weekday> {
    if t == "MO" then Some(Monday)
    else if t == "TU" then Some(Tuesday)
    else if t == "WE" then Some(Wednesday)
    else if t == "TH" then Some(Thursday)
    else if t == "FR" then Some(Friday)
    else if t == "SA" then Some(Saturday)
    else if t == "SU" then Some(Sunday)
    else None
  }

  /** A non-empty comma-separated list of day tokens, and nothing after it. */
  function ParseDays(s: string): Option<seq<Weekday>>
    decreases |s|
  {
    if |s| < 2 then None
    else match TokenDay(s[..2])
      case None => None
      case Some(d) =>
        if |s| == 2 then Some([d])
        else if s[2] != ',' then None
        else match ParseDays(s[3..])
          case None => None
          case Some(ds) => Some([d] + ds)
  }

  function ParseByDay(s: string): Option<Option<seq<Weekday>>> {
    if |s| == 0 then Some(None)
    else if !StartsWith(s, ";BYDAY=") then None
    else if |s| == 7 then Some(Some([]))
    else match ParseDays(s[7..])
      case None => None
      case Some(ds) => Some(Some(ds))
  }

  /** Reads a restricted rule; None for anything that is not one (including ""). */
  function Parse(s: string): Option<Rule> {
    if !StartsWith(s, RulePrefix) then None
    else match ParseFreq(s[|RulePrefix|..])
      case None => None
      case Some((f, s1)) =>
        match ParseInterval(s1)
        case None => None
        case Some((iv, s2)) =>
          match ParseByDay(s2)
          case None => None
          case Some(bd) => Some(Rule(f, iv, bd))
  }

  // ---------------------------------------------------------------------
  // Properties of the translator.

  /** The marked tokens are the comma-join of the selected days plus one trailing comma. */
  lemma {:induction false} MarkedTokensJoin(mask: set<Weekday>, days: seq<Weekday>)
    ensures |Selected(mask, days)| == 0 ==> MarkedTokens(mask, days) == ""
    ensures |Selected(mask, days)| > 0 ==> MarkedTokens(mask, days) == Join(Selected(mask, days)) + ","
  {
    if |days| > 0 {
      MarkedTokensJoin(mask, days[1..]);
      var rest := Selected(mask, days[1..]);
      var tail := MarkedTokens(mask, days[1..]);
      if days[0] !in mask {
        assert Selected(mask, days) == rest;
        assert MarkedTokens(mask, days) == tail;
      } else if |rest| == 0 {
        assert Selected(mask, days) == [days[0]];
        assert MarkedTokens(mask, days) == DayToken(days[0]) + ",";
      } else {
        var sel := Selected(mask, days);
        assert sel == [days[0]] + rest;
        assert sel[1..] == rest;
        assert Join(sel) == DayToken(days[0]) + "," + Join(rest);
        assert MarkedTokens(mask, days) == DayToken(days[0]) + "," + tail;
      }
    }
  }

  /** A non-empty join ends with a letter of the last token, never a comma. */
  lemma {:induction false} JoinEndsWithToken(ds: seq<Weekday>)
    requires |ds| > 0
    ensures |Join(ds)| > 0 && Join(ds)[|Join(ds)| - 1] != ','
  {
    if |ds| > 1 {
      JoinEndsWithToken(ds[1..]);
    }
  }

  /** TrimEnd removes exactly one trailing comma when the character before it is not one. */
  lemma TrimEndOneComma(s: string)
    requires |s| == 0 || s[|s| - 1] != ','
    ensures TrimEnd(s + ",", ',') == s
  {
    assert (s + ",")[..|s|] == s;
  }

  /** The BYDAY part built as the source builds it equals the reference comma-join. */
  lemma ByDayAsWritten(mask: set<Weekday>)
    ensures TrimEnd(";BYDAY=" + MarkedTokens(mask, WeekOrder), ',')
            == ";BYDAY=" + Join(Selected(mask, WeekOrder))
  {
    var sel := Selected(mask, WeekOrder);
    MarkedTokensJoin(mask, WeekOrder);
    if |sel| == 0 {
      assert ";BYDAY=" + MarkedTokens(mask, WeekOrder) == ";BYDAY=";
    } else {
      JoinEndsWithToken(sel);
      var body := ";BYDAY=" + Join(sel);
      assert ";BYDAY=" + MarkedTokens(mask, WeekOrder) == body + ",";
      TrimEndOneComma(body);
    }
  }

  /**
   * The translator writes exactly the canonical text of the pattern's
   * meaning: "" for an unsupported type, otherwise "RRULE:FREQ=" and the
   * frequency, then ";INTERVAL=n" only when the interval exceeds one, then for
   * weekly patterns ";BYDAY=" and the marked days Monday to Sunday.
   */
  lemma TranslatorMatchesRender(p: Pattern)
    ensures p.kind.OtherType? ==> RecurrencePatternToICal(p) == ""
    ensures Meaning(p).Some? ==> RecurrencePatternToICal(p) == Render(Meaning(p).value)
  {
    if p.kind == Weekly {
      WeeklyMatchesRender(p);
    } else if !p.kind.OtherType? {
      OtherMatchesRender(p);
    }
  }

  /** `TranslatorMatchesRender` for a weekly pattern. */
  lemma WeeklyMatchesRender(p: Pattern)
    requires p.kind == Weekly
    ensures RecurrencePatternToICal(p) == Render(Meaning(p).value)
  {
    ByDayAsWritten(p.dayMask);
  }

  /** `TranslatorMatchesRender` for a supported pattern other than weekly: no BYDAY. */
  lemma OtherMatchesRender(p: Pattern)
    requires p.kind != Weekly && !p.kind.OtherType?
    ensures RecurrencePatternToICal(p) == Render(Meaning(p).value)
  {
    assert ByDayText(Meaning(p).value.byDay) == "";
  }

  /** The selected days are the mask, each once, in Monday-to-Sunday order. */
  lemma {:induction false} SelectedIsCanonical(mask: set<Weekday>, days: seq<Weekday>)
    requires forall i, j :: 0 <= i < j < |days| ==> DayIndex(days[i]) < DayIndex(days[j])
    ensures forall i, j :: 0 <= i < j < |Selected(mask, days)| ==>
              DayIndex(Selected(mask, days)[i]) < DayIndex(Selected(mask, days)[j])
  {
    if |days| > 0 {
      SelectedIsCanonical(mask, days[1..]);
      var rest := Selected(mask, days[1..]);
      if days[0] in mask {
        var sel := Selected(mask, days);
        assert sel == [days[0]] + rest;
        forall i, j | 0 <= i < j < |sel|
          ensures DayIndex(sel[i]) < DayIndex(sel[j])
        {
          if i == 0 {
            assert sel[j] in days[1..];
          } else {
            assert sel[i] == rest[i - 1] && sel[j] == rest[j - 1];
          }
        }
      }
    }
  }

  /** For a weekly pattern the BYDAY list names exactly the mask's days, once each, Monday first. */
  lemma WeeklyDaysAreMask(p: Pattern)
    requires p.kind == Weekly
    ensures Meaning(p).Some? && Meaning(p).value.byDay.Some?
    ensures var ds := Meaning(p).value.byDay.value;
      && (forall d :: d in ds <==> d in p.dayMask)
      && (forall i, j :: 0 <= i < j < |ds| ==> DayIndex(ds[i]) < DayIndex(ds[j]))
  {
    SelectedIsCanonical(p.dayMask, WeekOrder);
    forall d ensures d in WeekOrder {
      assert WeekOrder[DayIndex(d)] == d;
    }
  }

  // ---------------------------------------------------------------------
  // The reader inverts the canonical text.

  lemma ParseFreqToken(f: Freq, rest: string)
    ensures ParseFreq(FreqToken(f) + rest) == Some((f, rest))
  {
    var s := FreqToken(f) + rest;
    assert s[..|FreqToken(f)|] == FreqToken(f);
    assert s[|FreqToken(f)|..] == rest;
    assert s[0] == FreqToken(f)[0];
  }

  /** Text that does not start with ";INTERVAL=" has no interval to read. */
  lemma ParseIntervalAbsent(rest: string)
    requires |rest| == 0 || StartsWith(rest, ";BYDAY=")
    ensures ParseInterval(rest) == Some((None, rest))
  {
    if |rest| >= 10 {
      assert rest[..10][1] == rest[1] == rest[..7][1];
    }
  }

  /** ";INTERVAL=" and a decimal number read back as that number, up to the next ';'. */
  lemma ParseIntervalPresent(n: nat, rest: string)
    requires |rest| == 0 || StartsWith(rest, ";BYDAY=")
    ensures ParseInterval(";INTERVAL=" + FromNat(n) + rest) == Some((Some(n), rest))
  {
    var digits := FromNat(n);
    var s := ";INTERVAL=" + digits + rest;
    assert s[..10] == ";INTERVAL=";
    assert s[10..] == digits + rest;
    if |rest| > 0 {
      assert rest[0] == rest[..7][0];
    }
    TakeDigitsOfRun(digits, rest);
    assert s[10 + |digits|..] == rest;
    ToNatFromNat(n);
  }

  lemma ParseIntervalText(iv: Option<nat>, rest: string)
    requires |rest| == 0 || StartsWith(rest, ";BYDAY=")
    ensures ParseInterval(IntervalText(iv) + rest)
            == Some((iv, rest))
  {
    match iv
    case None =>
      assert "" + rest == rest;
      ParseIntervalAbsent(rest);
    case Some(n) =>
      ParseIntervalPresent(n, rest);
  }

  lemma TokenDayOfToken(d: Weekday)
    ensures TokenDay(DayToken(d)) == Some(d)
  {
  }

  /** A single day token reads as that day. */
  lemma ParseDaysOne(d: Weekday)
    ensures ParseDays(DayToken(d)) == Some([d])
  {
    TokenDayOfToken(d);
    assert DayToken(d)[..2] == DayToken(d);
  }

  /** A day token, a comma and a list read as that day followed by the list. */
  lemma ParseDaysCons(d: Weekday, tail: string)
    ensures ParseDays(DayToken(d) + ("," + tail)) ==
      match ParseDays(tail) case None => None case Some(ds) => Some([d] + ds)
  {
    var s := DayToken(d) + ("," + tail);
    TokenDayOfToken(d);
    assert s[..2] == DayToken(d);
    assert s[2] == ',';
    assert s[3..] == tail;
  }

  lemma {:induction false} ParseDaysJoin(ds: seq<Weekday>)
    requires |ds| > 0
    ensures ParseDays(Join(ds)) == Some(ds)
  {
    if |ds| == 1 {
      ParseDaysOne(ds[0]);
      assert [ds[0]] == ds;
    } else {
      ParseDaysJoin(ds[1..]);
      ParseDaysCons(ds[0], Join(ds[1..]));
      assert Join(ds) == DayToken(ds[0]) + ("," + Join(ds[1..]));
      assert [ds[0]] + ds[1..] == ds;
    }
  }

  lemma ParseByDayText(bd: Option<seq<Weekday>>)
    ensures ParseByDay(ByDayText(bd)) == Some(bd)
  {
    match bd
    case None =>
    case Some(ds) =>
      var s := ";BYDAY=" + Join(ds);
      assert s[..7] == ";BYDAY=";
      if |ds| > 0 {
        JoinEndsWithToken(ds);
        assert s[7..] == Join(ds);
        ParseDaysJoin(ds);
      }
  }

  /** The canonical text splits into the prefix, the frequency and the two optional parts. */
  lemma RenderParts(rule: Rule)
    ensures StartsWith(Render(rule), RulePrefix)
    ensures Render(rule)[|RulePrefix|..] == FreqToken(rule.freq) + (IntervalText(rule.interval) + ByDayText(rule.byDay))
  {
    var s := Render(rule);
    assert s == RulePrefix + (FreqToken(rule.freq) + (IntervalText(rule.interval) + ByDayText(rule.byDay)));
    assert s[..|RulePrefix|] == RulePrefix;
  }

  /** Reading the canonical text of a rule gives that rule back. */
  lemma ParseRender(rule: Rule)
    ensures Parse(Render(rule)) == Some(rule)
  {
    var bdText := ByDayText(rule.byDay);
    RenderParts(rule);
    ParseFreqToken(rule.freq, IntervalText(rule.interval) + bdText);
    if |bdText| > 0 {
      assert bdText[..7] == ";BYDAY=";
    }
    ParseIntervalText(rule.interval, bdText);
    ParseByDayText(rule.byDay);
  }

  /**
   * Round trip: reading back what the translator wrote gives the pattern's
   * meaning, and nothing at all (None) for an unsupported type.
   */
  lemma TranslatorRoundTrip(p: Pattern)
    ensures Parse(RecurrencePatternToICal(p)) == Meaning(p)
  {
    TranslatorMatchesRender(p);
    if Meaning(p).Some? {
      ParseRender(Meaning(p).value);
    }
  }

  /** No token is written for days none of which is in the mask. */
  lemma {:induction false} NoneMarked(mask: set<Weekday>, days: seq<Weekday>)
    requires forall i :: 0 <= i < |days| ==> days[i] !in mask
    ensures MarkedTokens(mask, days) == ""
  {
    if |days| > 0 {
      NoneMarked(mask, days[1..]);
    }
  }

  /** The source's loop over the week writes "MO,WE," for Monday and Wednesday. */
  lemma MarkedMondayWednesday(mask: set<Weekday>)
    requires mask == {Monday, Wednesday}
    ensures MarkedTokens(mask, WeekOrder) == "MO,WE,"
  {
    var w := WeekOrder;
    assert w[1..][1..] == w[2..] && w[2..][1..] == w[3..];
    NoneMarked(mask, w[3..]);
    assert MarkedTokens(mask, w[2..]) == "WE,";
    assert MarkedTokens(mask, w[1..]) == "WE,";
    assert MarkedTokens(mask, w) == "MO," + "WE,";
  }

  lemma MondayWednesdayText()
    ensures RulePrefix + FreqToken(FreqWeekly) + ";INTERVAL=" + FromNat(2) + ";BYDAY=MO,WE"
            == "RRULE:FREQ=WEEKLY;INTERVAL=2;BYDAY=MO,WE"
  {
    assert FromNat(2) == "2";
  }

  /** Weekly, every second week, on Monday and Wednesday. */
  lemma WeeklyMondayWednesday(p: Pattern)
    requires p == Pattern(Weekly, 2, {Monday, Wednesday})
    ensures RecurrencePatternToICal(p) == "RRULE:FREQ=WEEKLY;INTERVAL=2;BYDAY=MO,WE"
  {
    MarkedMondayWednesday(p.dayMask);
    assert ";BYDAY=" + MarkedTokens(p.dayMask, WeekOrder) == ";BYDAY=MO,WE" + ",";
    TrimEndOneComma(";BYDAY=MO,WE");
    MondayWednesdayText();
  }

  /** With no day marked, the BYDAY part is the bare key. */
  lemma EmptyByDay()
    ensures TrimEnd(";BYDAY=" + MarkedTokens({}, WeekOrder), ',') == ";BYDAY="
  {
    NoneMarked({}, WeekOrder);
    assert ";BYDAY=" + MarkedTokens({}, WeekOrder) == ";BYDAY=";
  }

  lemma EmptyMaskText()
    ensures RulePrefix + FreqToken(FreqWeekly) + ";BYDAY=" == "RRULE:FREQ=WEEKLY;BYDAY="
  {
  }

  /** A weekly pattern with an empty mask keeps an empty BYDAY: TrimEnd has no comma to remove. */
  lemma WeeklyEmptyMask()
    ensures RecurrencePatternToICal(Pattern(Weekly, 1, {})) == "RRULE:FREQ=WEEKLY;BYDAY="
  {
    EmptyByDay();
    EmptyMaskText();
    assert RecurrencePatternToICal(Pattern(Weekly, 1, {})) == RulePrefix + FreqToken(FreqWeekly) + ";BYDAY=";
  }
}
