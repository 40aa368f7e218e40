/**
 Dates on the event forms: the clock text of a time input, weekday templates, and the RSVP deadline
 that is entered as "so long before" but stored as an instant.

 Local time is taken to be UTC.
 */
module RsvpForm {
  import opened Tables
  import opened InviteRules

  const MINUTE: int := 60 * 1000
  const HOUR: int := 60 * MINUTE

  // ---------------------------------------------------------------- the Date object

  function StartOfDay(t: Instant): Instant {
    t - t % DAY
  }

  function Hours(t: Instant): int {
    t % DAY / HOUR
  }

  function Minutes(t: Instant): int {
    t % HOUR / MINUTE
  }

  /** Sunday is 0; day zero was a Thursday. */
  function Weekday(t: Instant): int {
    (t / DAY + 4) % 7
  }

  class Date {
    var time: Instant

    constructor (t: Instant)
      ensures time == t
    {
      time := t;
    }

    /** Hours and minutes past their range run over into the next hour or day. */
    method SetHours(hours: int, minutes: int)
      modifies this
      ensures time == StartOfDay(old(time)) + hours * HOUR + minutes * MINUTE
    {
      time := time - time % DAY + hours * HOUR + minutes * MINUTE;
    }

    /** `setDate` with the present day of the month plus `days`. */
    method MoveDays(days: int)
      modifies this
      ensures time == old(time) + days * DAY
    {
      time := time + days * DAY;
    }
  }

  // ---------------------------------------------------------------- clock text

  predicate IsDigit(c: char) {
    '0' <= c <= '9'
  }

  function Digit(c: char): nat
    requires IsDigit(c)
  {
    c as int - '0' as int
  }

  /** Two digits, a colon, two digits. */
  predicate LooksLikeClock(s: string) {
    |s| == 5 && IsDigit(s[0]) && IsDigit(s[1]) && s[2] == ':' && IsDigit(s[3]) && IsDigit(s[4])
  }

  /** What a time input holds: nothing, or clock text. */
  type ClockText = s: string | s == "" || LooksLikeClock(s)

  function ClockHours(s: ClockText): nat {
    if s == "" then 0 else 10 * Digit(s[0]) + Digit(s[1])
  }

  function ClockMinutes(s: ClockText): nat {
    if s == "" then 0 else 10 * Digit(s[3]) + Digit(s[4])
  }

  function Combined(t: Instant, s: ClockText): Instant {
    StartOfDay(t) + ClockHours(s) * HOUR + ClockMinutes(s) * MINUTE
  }

  method CombineDateAndTime(date: Date, s: ClockText) returns (combined: Date)
    ensures fresh(combined) && combined.time == Combined(date.time, s)
  {
    combined := new Date(date.time);
    combined.SetHours(ClockHours(s), ClockMinutes(s));
  }

  function TwoDigits(n: int): string
    requires 0 <= n < 100
  {
    [('0' as int + n / 10) as char, ('0' as int + n % 10) as char]
  }

  function ToTimeString(t: Instant): (s: ClockText)
    ensures LooksLikeClock(s)
  {
    TwoDigits(Hours(t)) + ":" + TwoDigits(Minutes(t))
  }

  // ---------------------------------------------------------------- templates

  const WEEKDAYS := ["sunday", "monday", "tuesday", "wednesday", "thursday", "friday", "saturday"]

  function IndexOf(names: seq<string>, s: string): int {
    if s !in names then -1
    else if names[0] == s then 0
    else 1 + IndexOf(names[1..], s)
  }

  method ResolveTemplateDate(option: string, now: Date) returns (r: Option<Date>)
    ensures option == "none" ==> r == None
    ensures option == "today" ==> r == Some(now)
    ensures option !in ["none", "today"] ==> (r.Some? <==> option in WEEKDAYS)
    ensures option in WEEKDAYS ==> IsComing(now.time, IndexOf(WEEKDAYS, option), r.value.time)
  {
    if option == "none" {
      return None;
    }
    if option == "today" {
      return Some(now);
    }
    IndexOfFinds(WEEKDAYS, option);
    var targetDay := IndexOf(WEEKDAYS, option);
    if targetDay == -1 {
      return None;
    }
    var diff := (targetDay - Weekday(now.time) + 7) % 7;
    var result := new Date(now.time);
    result.MoveDays(diff);
    ComingWeekday(now.time, targetDay);
    return Some(result);
  }

  lemma {:induction false} IndexOfFinds(names: seq<string>, s: string)
    ensures s !in names ==> IndexOf(names, s) == -1
    ensures s in names ==> 0 <= IndexOf(names, s) < |names| && names[IndexOf(names, s)] == s
  {
    if s in names && names[0] != s {
      IndexOfFinds(names[1..], s);
    }
  }

  /** The same time of day, `n` days on. */
  function Later(t: Instant, n: nat): Instant {
    t + n * DAY
  }

  /** The first `target` weekday from `t` on, less than a week away. */
  ghost predicate IsComing(t: Instant, target: int, r: Instant) {
    exists n: nat :: n <= 6 && r == Later(t, n) && Weekday(r) == target && forall m: nat | m < n :: Weekday(Later(t, m)) != target
  }

  lemma WeekdayMoves(t: Instant, n: nat)
    ensures Weekday(Later(t, n)) == (Weekday(t) + n) % 7
  {
    assert Later(t, n) / DAY == t / DAY + n;
    SevenCycle(t / DAY + 4, n);
  }

  lemma SevenCycle(a: int, n: nat)
    ensures (a + n) % 7 == (a % 7 + n) % 7
  {
  }

  lemma ComingWeekday(t: Instant, target: int)
    requires 0 <= target < 7
    ensures IsComing(t, target, Later(t, (target - Weekday(t) + 7) % 7))
  {
    var diff := (target - Weekday(t) + 7) % 7;
    WeekdayMoves(t, diff);
    forall m: nat | m < diff
      ensures Weekday(Later(t, m)) != target
    {
      WeekdayMoves(t, m);
    }
  }

  const PERIODS := ["morning", "afternoon", "evening", "night"]
  const FALLBACK := "18:00"

  function PeriodTime(s: string): Option<string> {
    if s == "morning" then Some("09:00")
    else if s == "afternoon" then Some("14:00")
    else if s == "evening" then Some("18:00")
    else if s == "night" then Some("21:00")
    else None
  }

  function ResolveTemplateTime(s: Option<string>): (r: ClockText)
    ensures LooksLikeClock(r)
  {
    if s.None? || s.value == "" then FALLBACK
    else if LooksLikeClock(s.value) then s.value
    else Coalesce(PeriodTime(s.value), FALLBACK)
  }

  /** The server's pattern: hours to 23, minutes to 59. */
  predicate IsClockTime(s: string) {
    LooksLikeClock(s) && (s[0] in "01" || (s[0] == '2' && s[1] in "0123")) && s[3] in "012345"
  }

  predicate ValidTimeOfDay(s: string) {
    IsClockTime(s) || s in PERIODS
  }

  lemma ClockTimeIff(s: ClockText)
    requires s != ""
    ensures IsClockTime(s) <==> ClockHours(s) < 24 && ClockMinutes(s) < 60
  {
  }

  lemma CombinedClock(t: Instant, s: ClockText)
    requires ClockHours(s) < 24 && ClockMinutes(s) < 60
    ensures Hours(Combined(t, s)) == ClockHours(s) && Minutes(Combined(t, s)) == ClockMinutes(s)
    ensures StartOfDay(Combined(t, s)) == StartOfDay(t) && Weekday(Combined(t, s)) == Weekday(t)
  {
    ClockOn(t / DAY, ClockHours(s), ClockMinutes(s));
    StartIs(t);
  }

  lemma StartIs(t: Instant)
    ensures StartOfDay(t) == t / DAY * DAY
  {
  }

  lemma ClockOn(day: int, h: int, m: int)
    requires 0 <= h < 24 && 0 <= m < 60
    ensures var c := day * DAY + h * HOUR + m * MINUTE;
            Hours(c) == h && Minutes(c) == m && StartOfDay(c) == day * DAY && c / DAY == day
  {
    Remainder(day, DAY, h * HOUR + m * MINUTE);
    Remainder(day * 24 + h, HOUR, m * MINUTE);
  }

  lemma Remainder(q: int, n: int, r: int)
    requires (n == DAY || n == HOUR || n == MINUTE) && 0 <= r < n
    ensures (q * n + r) % n == r && (q * n + r) / n == q
  {
    if n == DAY {
      assert (q * DAY + r) / DAY == q;
    } else if n == HOUR {
      assert (q * HOUR + r) / HOUR == q;
    } else {
      assert (q * MINUTE + r) / MINUTE == q;
    }
  }

  lemma TwoDigitsReadBack(a: char, b: char, n: int)
    requires IsDigit(a) && IsDigit(b) && 0 <= n < 100
    ensures TwoDigits(n) == [a, b] <==> n == 10 * Digit(a) + Digit(b)
  {
  }

  /** Clock text put on a date and read off again is the same text exactly when the server would accept it. */
  lemma TimeSurvivesIff(t: Instant, s: ClockText)
    requires s != ""
    ensures ToTimeString(Combined(t, s)) == s <==> IsClockTime(s)
  {
    var c := Combined(t, s);
    ClockTimeIff(s);
    assert s == [s[0], s[1]] + ":" + [s[3], s[4]];
    TwoDigitsReadBack(s[0], s[1], Hours(c));
    TwoDigitsReadBack(s[3], s[4], Minutes(c));
    assert ToTimeString(c)[..2] == TwoDigits(Hours(c)) && ToTimeString(c)[3..] == TwoDigits(Minutes(c));
    assert s[..2] == [s[0], s[1]] && s[3..] == [s[3], s[4]];
    if IsClockTime(s) {
      CombinedClock(t, s);
    }
  }

  /** Every time of day the server stores resolves to a time the forms show unchanged. */
  lemma TemplateTimeSurvives(t: Instant, timeOfDay: Option<string>)
    requires timeOfDay.Some? && timeOfDay.value != "" ==> ValidTimeOfDay(timeOfDay.value)
    ensures IsClockTime(ResolveTemplateTime(timeOfDay))
    ensures ToTimeString(Combined(t, ResolveTemplateTime(timeOfDay))) == ResolveTemplateTime(timeOfDay)
  {
    TimeSurvivesIff(t, ResolveTemplateTime(timeOfDay));
  }

  /**
   An event made from a weekday template is refused as past exactly when today is that weekday and
   the template's time has gone by; otherwise it falls on the weekday asked for.
   */
  lemma TemplateEventIsPastIff(now: Instant, target: int, r: Instant, timeOfDay: Option<string>)
    requires timeOfDay.Some? && timeOfDay.value != "" ==> ValidTimeOfDay(timeOfDay.value)
    requires IsComing(now, target, r)
    ensures var s := ResolveTemplateTime(timeOfDay);
            var date := Combined(r, s);
            && Weekday(date) == target
            && (date <= now <==> Weekday(now) == target && ClockHours(s) * HOUR + ClockMinutes(s) * MINUTE <= now % DAY)
  {
    var s := ResolveTemplateTime(timeOfDay);
    TemplateTimeSurvives(r, timeOfDay);
    ClockTimeIff(s);
    CombinedClock(r, s);
    ClockFitsTheDay(s);
    var n := ComingDays(now, target, r);
    PastOnlyToday(now, r, n, ClockHours(s) * HOUR + ClockMinutes(s) * MINUTE);
  }

  lemma PastOnlyToday(now: Instant, r: Instant, n: nat, clock: int)
    requires StartOfDay(r) == StartOfDay(now) + n * DAY && 0 <= clock < DAY
    ensures StartOfDay(r) + clock <= now <==> n == 0 && clock <= now % DAY
  {
  }

  lemma ClockFitsTheDay(s: ClockText)
    requires ClockHours(s) < 24 && ClockMinutes(s) < 60
    ensures 0 <= ClockHours(s) * HOUR + ClockMinutes(s) * MINUTE < DAY
  {
  }

  lemma ComingDays(now: Instant, target: int, r: Instant) returns (n: nat)
    requires IsComing(now, target, r)
    ensures StartOfDay(r) == StartOfDay(now) + n * DAY && (n == 0 <==> Weekday(now) == target)
  {
    n :| n <= 6 && r == Later(now, n) && Weekday(r) == target && forall m: nat | m < n :: Weekday(Later(now, m)) != target;
    StartMoves(now, n);
    assert Later(now, 0) == now;
  }

  lemma StartMoves(t: Instant, n: nat)
    ensures StartOfDay(Later(t, n)) == StartOfDay(t) + n * DAY
  {
  }

  // ---------------------------------------------------------------- the deadline of a new event

  datatype Unit = Day | Week | Month

  function UnitInMs(u: Unit): int {
    match u
    case Day => DAY
    case Week => 7 * DAY
    case Month => 30 * DAY
  }

  function Deadline(date: Instant, amount: int, unit: Unit): Instant {
    date - amount * UnitInMs(unit)
  }

  function ParseUnit(s: string): Option<Unit> {
    if s == "day" then Some(Day) else if s == "week" then Some(Week) else if s == "month" then Some(Month) else None
  }

  datatype DeadlineError = AmountUnitMismatch | InvalidAmount | InvalidUnit

  /** The server's check of a template's deadline fields. */
  function ValidateRsvpDeadline(amount: Option<int>, unit: Option<string>): Option<DeadlineError> {
    if amount.None? != unit.None? then Some(AmountUnitMismatch)
    else if amount.Some? && amount.value <= 0 then Some(InvalidAmount)
    else if unit.Some? && ParseUnit(unit.value).None? then Some(InvalidUnit)
    else None
  }

  // ---------------------------------------------------------------- the edit form

  datatype Form = Form(
    name: string, date: Option<Instant>, time: ClockText, icon: string, initialIcon: string,
    hasRsvpDeadline: bool, rsvpAmount: int, rsvpUnit: Unit)

  const BLANK := Form("", None, "18:00", "", "", false, 1, Day)

  /** `Math.round` of a quotient: ties go up. */
  function RoundQuotient(a: int, b: int): int
    requires b > 0
  {
    (2 * a + b) / (2 * b)
  }

  function DiffDays(date: Instant, deadline: Instant): int {
    var days := RoundQuotient(date - deadline, DAY);
    if days < 1 then 1 else days
  }

  function Loaded(f: Form, ev: Event): Form {
    var shown := f.(name := ev.name, date := Some(ev.date), time := ToTimeString(ev.date),
                    icon := Coalesce(ev.icon, ""), initialIcon := Coalesce(ev.icon, ""));
    if ev.rsvpDeadline.None? then shown
    else shown.(hasRsvpDeadline := true, rsvpAmount := DiffDays(ev.date, ev.rsvpDeadline.value), rsvpUnit := Day)
  }

  /** The body of the PATCH request; the form has no field for the default spread. */
  function Payload(f: Form): Option<EventPatch> {
    if f.date.None? then None
    else
      var date := Combined(f.date.value, f.time);
      Some(EventPatch(Some(f.name), Some(date),
                      if f.hasRsvpDeadline then Some(Deadline(date, f.rsvpAmount, f.rsvpUnit)) else None,
                      None, if f.icon == "" then None else Some(f.icon), f.icon == "" && f.initialIcon != ""))
  }

  class EditEvent {
    var name: string
    var date: Option<Instant>
    var time: ClockText
    var icon: string
    var initialIcon: string
    var hasRsvpDeadline: bool
    var rsvpAmount: int
    var rsvpUnit: Unit

    function State(): Form
      reads this
    {
      Form(name, date, time, icon, initialIcon, hasRsvpDeadline, rsvpAmount, rsvpUnit)
    }

    constructor ()
      ensures State() == BLANK
    {
      name, date, time, icon, initialIcon := "", None, "18:00", "", "";
      hasRsvpDeadline, rsvpAmount, rsvpUnit := false, 1, Day;
    }

    method LoadEvent(ev: Event)
      modifies this
      ensures State() == Loaded(old(State()), ev)
    {
      name := ev.name;
      date := Some(ev.date);
      time := ToTimeString(ev.date);
      icon := Coalesce(ev.icon, "");
      initialIcon := Coalesce(ev.icon, "");
      if ev.rsvpDeadline.Some? {
        var diffMs := ev.date - ev.rsvpDeadline.value;
        var rounded := RoundQuotient(diffMs, DAY);
        hasRsvpDeadline := true;
        rsvpAmount := if rounded < 1 then 1 else rounded;
        rsvpUnit := Day;
      }
    }
  }

  // ---------------------------------------------------------------- loading and saving untouched

  /** The row after the edit page was opened on it and saved with nothing changed. */
  function Resaved(ev: Event): Event {
    MergedRow(ev, Payload(Loaded(BLANK, ev)).value)
  }

  /** Whole minutes: the time input knows no seconds. */
  function OnTheMinute(t: Instant): Instant {
    t - t % MINUTE
  }

  lemma ShownClock(t: Instant)
    ensures ClockHours(ToTimeString(t)) == Hours(t) && ClockMinutes(ToTimeString(t)) == Minutes(t)
  {
  }

  lemma ClockParts(t: Instant)
    ensures t % DAY == Hours(t) * HOUR + Minutes(t) * MINUTE + t % MINUTE
  {
    Remainder(t / DAY * 24 + t % DAY / HOUR, HOUR, t % DAY % HOUR);
    Remainder(t / HOUR * 60 + t % HOUR / MINUTE, MINUTE, t % HOUR % MINUTE);
  }

  lemma CombineReadsBack(t: Instant)
    ensures Combined(t, ToTimeString(t)) == OnTheMinute(t)
  {
    ShownClock(t);
    ClockParts(t);
  }

  lemma ResavedIs(ev: Event)
    ensures var date := OnTheMinute(ev.date);
            Resaved(ev) == ev.(date := date,
                               rsvpDeadline := if ev.rsvpDeadline.None? then None
                                               else Some(date - DiffDays(ev.date, ev.rsvpDeadline.value) * DAY))
  {
    CombineReadsBack(ev.date);
  }

  lemma RoundIs(a: int, n: int)
    requires -DAY <= 2 * (a - n * DAY) < DAY
    ensures RoundQuotient(a, DAY) == n
  {
  }

  /** The saved deadline is whole days, at least one, before the saved date. */
  lemma ResavedDeadline(ev: Event)
    requires ev.rsvpDeadline.Some?
    ensures var saved := Resaved(ev);
            && saved.date == OnTheMinute(ev.date)
            && saved.rsvpDeadline == Some(saved.date - DiffDays(ev.date, ev.rsvpDeadline.value) * DAY)
  {
    ResavedIs(ev);
  }

  /**
   An untouched save keeps the deadline exactly when it lies a positive whole number of days before
   the date as the form shows it.
   */
  lemma DeadlineSurvivesIff(ev: Event)
    requires ev.rsvpDeadline.Some?
    ensures var offset := OnTheMinute(ev.date) - ev.rsvpDeadline.value;
            Resaved(ev).rsvpDeadline == ev.rsvpDeadline <==> offset >= DAY && offset % DAY == 0
  {
    ResavedDeadline(ev);
    var offset := OnTheMinute(ev.date) - ev.rsvpDeadline.value;
    var n := DiffDays(ev.date, ev.rsvpDeadline.value);
    if offset >= DAY && offset % DAY == 0 {
      RoundIs(ev.date - ev.rsvpDeadline.value, offset / DAY);
    } else if offset == n * DAY {
      Remainder(n, DAY, 0);
    }
  }

  /** A deadline one and a half days ahead is saved as two days ahead. */
  lemma HalfDayLost()
    ensures var ev := Event(0, "party", 10 * DAY, Some(8 * DAY + DAY / 2), 0, None);
            Resaved(ev).rsvpDeadline == Some(8 * DAY)
  {
    ResavedDeadline(Event(0, "party", 10 * DAY, Some(8 * DAY + DAY / 2), 0, None));
  }

  /** A deadline made on either form, in any unit, is loaded and saved as the same instant. */
  lemma FormMadeSurvives(ev: Event, day: Instant, time: ClockText, amount: int, unit: Unit)
    requires amount >= 1 && ev.date == Combined(day, time) && ev.rsvpDeadline == Some(Deadline(ev.date, amount, unit))
    ensures Resaved(ev) == ev
  {
    var minutes := day / DAY * 1440 + ClockHours(time) * 60 + ClockMinutes(time);
    assert ev.date == minutes * MINUTE;
    Remainder(minutes, MINUTE, 0);
    var n := match unit case Day => amount case Week => 7 * amount case Month => 30 * amount;
    assert Deadline(ev.date, amount, unit) == ev.date - n * DAY;
    Remainder(n, DAY, 0);
    DeadlineSurvivesIff(ev);
    ResavedIs(ev);
  }

  lemma MinuteStays(t: Instant)
    ensures OnTheMinute(OnTheMinute(t)) == OnTheMinute(t)
  {
  }

  /** Saving again changes nothing more, whatever the deadline was. */
  lemma ResavingIsIdempotent(ev: Event)
    ensures Resaved(Resaved(ev)) == Resaved(ev)
  {
    var once := Resaved(ev);
    ResavedIs(ev);
    ResavedIs(once);
    MinuteStays(ev.date);
    if ev.rsvpDeadline.Some? {
      RoundIs(once.date - once.rsvpDeadline.value, DiffDays(ev.date, ev.rsvpDeadline.value));
    }
  }

  /** The distance to the date moves by at most half a day exactly when it was at least half a day. */
  lemma OffsetMovesHalfADayIff(ev: Event)
    requires ev.rsvpDeadline.Some?
    ensures var before := ev.date - ev.rsvpDeadline.value;
            var saved := Resaved(ev);
            var after := saved.date - saved.rsvpDeadline.value;
            -DAY <= 2 * (after - before) <= DAY <==> 2 * before >= DAY
  {
  }

  /** An untouched save is refused only because the event has begun: its deadline is a day or more before. */
  lemma ResaveRefusedIff(ev: Event, now: Instant)
    ensures var patch := Payload(Loaded(BLANK, ev)).value;
            UpdateRefused(ev, patch, now) == if OnTheMinute(ev.date) <= now then Some(PastEventDate) else None
    ensures ev.rsvpDeadline.Some? ==> Resaved(ev).rsvpDeadline.value <= Resaved(ev).date - DAY
  {
    CombineReadsBack(ev.date);
    if ev.rsvpDeadline.Some? {
      ResavedDeadline(ev);
    }
  }

  /** A template the server accepted gives a new event a deadline that survives editing, if it gives one at all. */
  lemma TemplateDeadlineSurvives(ev: Event, day: Instant, time: ClockText, amount: Option<int>, unit: Option<string>)
    requires ValidateRsvpDeadline(amount, unit).None? && amount.Some?
    requires ev.date == Combined(day, time)
    requires ParseUnit(unit.value).Some? ==> ev.rsvpDeadline == Some(Deadline(ev.date, amount.value, ParseUnit(unit.value).value))
    ensures ev.rsvpDeadline.Some? && ev.rsvpDeadline.value < ev.date && Resaved(ev) == ev
  {
    FormMadeSurvives(ev, day, time, amount.value, ParseUnit(unit.value).value);
  }

  // ---------------------------------------------------------------- in plain numbers

  /** Which clock text each template resolves to, and which texts the server accepts. */
  lemma TemplateTimes(s: string)
    ensures ValidTimeOfDay(s) <==> s in {"morning", "afternoon", "evening", "night"}
                                   || (LooksLikeClock(s) && ClockHours(s) < 24 && ClockMinutes(s) < 60)
    ensures ResolveTemplateTime(None) == ResolveTemplateTime(Some("")) == "18:00"
    ensures ResolveTemplateTime(Some("morning")) == "09:00" && ResolveTemplateTime(Some("afternoon")) == "14:00"
    ensures ResolveTemplateTime(Some("evening")) == "18:00" && ResolveTemplateTime(Some("night")) == "21:00"
    ensures LooksLikeClock(s) ==> ResolveTemplateTime(Some(s)) == s
    ensures !LooksLikeClock(s) && s !in {"morning", "afternoon", "evening", "night"} ==> ResolveTemplateTime(Some(s)) == "18:00"
  {
    if LooksLikeClock(s) {
      ClockTimeIff(s);
    }
  }

  /** The first of January 1970 was a Thursday and that of 2000 a Saturday, where the options have them. */
  lemma WeekdayAnchors()
    ensures Weekday(0) == 4 && Weekday(946684800000) == 6
    ensures WEEKDAYS[0] == "sunday" && WEEKDAYS[1] == "monday" && WEEKDAYS[2] == "tuesday" && WEEKDAYS[3] == "wednesday"
    ensures WEEKDAYS[4] == "thursday" && WEEKDAYS[5] == "friday" && WEEKDAYS[6] == "saturday"
  {
  }

  /** A deadline of so many days, weeks of seven days, or months of thirty. */
  lemma DeadlineIs(date: Instant, amount: int)
    ensures Deadline(date, amount, Day) == date - amount * 86400000
    ensures Deadline(date, amount, Week) == date - 7 * amount * 86400000
    ensures Deadline(date, amount, Month) == date - 30 * amount * 86400000
    ensures ParseUnit("day") == Some(Day) && ParseUnit("week") == Some(Week) && ParseUnit("month") == Some(Month)
  {
  }

  /** A template's deadline is both fields or neither, a positive amount of a unit the form knows. */
  lemma ValidateIff(amount: Option<int>, unit: Option<string>)
    ensures ValidateRsvpDeadline(amount, unit) == None
       <==> (amount == None && unit == None)
            || (amount.Some? && amount.value > 0 && unit.Some? && unit.value in {"day", "week", "month"})
    ensures ValidateRsvpDeadline(amount, unit) == Some(AmountUnitMismatch) <==> amount.Some? != unit.Some?
    ensures ValidateRsvpDeadline(amount, unit) == Some(InvalidAmount) <==> amount.Some? && unit.Some? && amount.value <= 0
  {
  }

  /** Clock text "ab:cd" puts a date at that hour and minute of its own day. */
  lemma CombinedIs(day: int, r: int, a: nat, b: nat, c: nat, e: nat)
    requires 0 <= r < 86400000 && a < 10 && b < 10 && c < 10 && e < 10
    ensures var s := [('0' as int + a) as char, ('0' as int + b) as char, ':', ('0' as int + c) as char, ('0' as int + e) as char];
            && LooksLikeClock(s)
            && Combined(day * 86400000 + r, s) == day * 86400000 + (10 * a + b) * 3600000 + (10 * c + e) * 60000
            && Combined(day * 86400000 + r, "") == day * 86400000
  {
    Remainder(day, DAY, r);
  }

  /**
   What saving an edited form leaves: the name, date and icon it shows, an emptied icon gone, and a
   deadline counted back from the new date, or the old one if the form has none.
   */
  lemma EditedSave(ev: Event, f: Form)
    requires f.date.Some? && f.initialIcon == (if ev.icon.Some? then ev.icon.value else "")
    ensures var saved := MergedRow(ev, Payload(f).value);
            && Payload(f).Some? && saved.owner == ev.owner && saved.defaultSpread == ev.defaultSpread
            && saved.name == f.name && saved.date == Combined(f.date.value, f.time)
            && (f.icon != "" ==> saved.icon == Some(f.icon))
            && (f.icon == "" && f.initialIcon != "" ==> saved.icon == None)
            && (f.icon == "" && f.initialIcon == "" ==> saved.icon == ev.icon)
            && saved.rsvpDeadline == if f.hasRsvpDeadline then Some(Deadline(saved.date, f.rsvpAmount, f.rsvpUnit)) else ev.rsvpDeadline
  {
  }
}
