/** The daily reminder run: which invites it lists and which notifications it raises. */
module ReminderRules {
  import opened Tables

  /** The `::date` cast in UTC. */
  function CalendarDay(t: Instant): int {
    t / DAY
  }

  /** The NOT EXISTS subquery, negated: the guest already has this reminder. */
  predicate Reminded(notes: seq<Notification>, k: InviteKey, kind: NotificationKind) {
    exists n :: n in notes && n.user == k.guest && n.kind == kind && n.event == k.event
  }

  /** Invites that fall due, whether or not they were reminded of already. */
  predicate DeadlineDue(d: Db, day: int, k: InviteKey)
    requires k in d.invites
  {
    && d.invites[k].status == Pending && k.event in d.events
    && d.events[k.event].rsvpDeadline.Some?
    && CalendarDay(d.events[k.event].rsvpDeadline.value) == day
  }

  predicate StartsOn(d: Db, day: int, k: InviteKey)
    requires k in d.invites
  {
    d.invites[k].status == Accepted && k.event in d.events && CalendarDay(d.events[k.event].date) == day
  }

  function DeadlineRows(d: Db, day: int): set<InviteKey> {
    set k | k in d.invites && DeadlineDue(d, day, k) && !Reminded(d.notifications, k, RsvpDeadlineReminder)
  }

  function StartingRows(d: Db, day: int): set<InviteKey> {
    set k | k in d.invites && StartsOn(d, day, k) && !Reminded(d.notifications, k, EventStartingToday)
  }

  function Reminder(k: InviteKey, kind: NotificationKind): Notification {
    Notification(k.guest, kind, k.event, None, None, false)
  }

  /** One reminder for each listed invite; the inserts for `lost` fail and are only logged. */
  function Raise(order: seq<InviteKey>, kind: NotificationKind, lost: set<InviteKey>): seq<Notification> {
    if order == [] then []
    else
      var rest := Raise(order[..|order| - 1], kind, lost);
      var k := order[|order| - 1];
      if k in lost then rest else rest + [Reminder(k, kind)]
  }

  /** How one run of the job goes: the order of its two listings and the inserts that fail. */
  datatype ReminderRun = ReminderRun(
    deadlines: seq<InviteKey>, lostDeadlines: set<InviteKey>,
    starting: seq<InviteKey>, lostStarting: set<InviteKey>)

  function AfterDeadlines(d: Db, run: ReminderRun): Db {
    d.(notifications := d.notifications + Raise(run.deadlines, RsvpDeadlineReminder, run.lostDeadlines))
  }

  function DailyReminders(d: Db, run: ReminderRun): Db {
    var d1 := AfterDeadlines(d, run);
    d1.(notifications := d1.notifications + Raise(run.starting, EventStartingToday, run.lostStarting))
  }

  /** The listings are what the two queries return, the second after the first batch was raised. */
  ghost predicate ReminderRunOf(d: Db, now: Instant, run: ReminderRun) {
    && Lists(run.deadlines, DeadlineRows(d, CalendarDay(now + DAY)))
    && Lists(run.starting, StartingRows(AfterDeadlines(d, run), CalendarDay(now)))
  }
}
