/** Reminders over any sequence of calls: at most one per guest, event and kind; complete; idempotent. */
module Reminders {
  import opened Tables
  import opened InviteRules
  import opened ReminderRules
  import opened FeedRules
  import opened AccountRules
  import opened NetworkRules
  import opened Protocol
  import opened Shapes

  predicate IsReminder(kind: NotificationKind) {
    kind == RsvpDeadlineReminder || kind == EventStartingToday
  }

  predicate SameReminder(m: Notification, n: Notification) {
    IsReminder(m.kind) && m.kind == n.kind && m.user == n.user && m.event == n.event
  }

  ghost predicate RemindersUnique(notes: seq<Notification>) {
    forall i, j | 0 <= i < j < |notes| :: !SameReminder(notes[i], notes[j])
  }

  // ---------------------------------------------------------------- one run

  /** A raised reminder goes to a listed invite whose insert did not fail, and conversely. */
  lemma {:induction false} RaisedExactly(order: seq<InviteKey>, kind: NotificationKind, lost: set<InviteKey>, n: Notification)
    ensures n in Raise(order, kind, lost)
       <==> InviteKey(n.event, n.user) in order && InviteKey(n.event, n.user) !in lost
            && n == Reminder(InviteKey(n.event, n.user), kind)
  {
    if order != [] {
      var rest := order[..|order| - 1];
      assert order == rest + [order[|order| - 1]];
      RaisedExactly(rest, kind, lost, n);
    }
  }

  lemma UniqueAppend(notes: seq<Notification>, n: Notification)
    requires RemindersUnique(notes) && forall m | m in notes :: !SameReminder(m, n)
    ensures RemindersUnique(notes + [n])
  {
  }

  /** A batch listed with "not reminded yet" adds no second reminder. */
  lemma {:induction false} RaiseKeepsUnique(notes: seq<Notification>, order: seq<InviteKey>, kind: NotificationKind, lost: set<InviteKey>)
    requires RemindersUnique(notes)
    requires forall i, j | 0 <= i < j < |order| :: order[i] != order[j]
    requires forall k | k in order :: !Reminded(notes, k, kind)
    ensures RemindersUnique(notes + Raise(order, kind, lost))
  {
    if order == [] {
      assert notes + Raise(order, kind, lost) == notes;
    } else {
      var rest, k := order[..|order| - 1], order[|order| - 1];
      assert order == rest + [k];
      RaiseKeepsUnique(notes, rest, kind, lost);
      if k in lost {
        assert Raise(order, kind, lost) == Raise(rest, kind, lost);
      } else {
        forall m | m in notes + Raise(rest, kind, lost)
          ensures !SameReminder(m, Reminder(k, kind))
        {
          RaisedExactly(rest, kind, lost, m);
          assert !Reminded(notes, k, kind) && k !in rest;
        }
        UniqueAppend(notes + Raise(rest, kind, lost), Reminder(k, kind));
        assert notes + Raise(order, kind, lost) == notes + Raise(rest, kind, lost) + [Reminder(k, kind)];
      }
    }
  }

  lemma RemindKeepsUnique(d: Db, now: Instant, run: ReminderRun)
    requires RemindersUnique(d.notifications) && ReminderRunOf(d, now, run)
    ensures RemindersUnique(DailyReminders(d, run).notifications)
  {
    RaiseKeepsUnique(d.notifications, run.deadlines, RsvpDeadlineReminder, run.lostDeadlines);
    RaiseKeepsUnique(AfterDeadlines(d, run).notifications, run.starting, EventStartingToday, run.lostStarting);
  }

  // ---------------------------------------------------------------- other calls

  lemma NoReminderAdded(notes: seq<Notification>, more: seq<Notification>)
    requires RemindersUnique(notes) && forall n | n in more :: !IsReminder(n.kind)
    ensures RemindersUnique(notes + more)
  {
  }

  lemma {:induction false} OthersUnique(notes: seq<Notification>, u: UserId)
    requires RemindersUnique(notes)
    ensures RemindersUnique(Others(notes, u))
    ensures forall n | n in Others(notes, u) :: n in notes && n.user != u
  {
    if notes != [] {
      var rest, last := notes[..|notes| - 1], notes[|notes| - 1];
      assert notes == rest + [last];
      OthersUnique(rest, u);
      if last.user != u {
        UniqueAppend(Others(rest, u), last);
      }
    }
  }

  lemma FanOutNoReminder(order: seq<Attendee>, e: EventId, exclude: UserId, lost: set<UserId>)
    ensures forall n | n in FanOut(order, e, exclude, lost) :: n.kind == EventUpdated
  {
  }

  /** What a guest-list call appends: at most one notification, unread and never a reminder. */
  ghost predicate OneNoteAtMost(d: Db, d': Db) {
    d'.notifications == d.notifications
    || exists n :: d'.notifications == d.notifications + [n] && !IsReminder(n.kind) && !n.read
  }

  lemma SendNotes(d: Db, now: Instant, e: EventId, guest: UserId, spread: nat, actor: UserId, delivers: bool)
    ensures OneNoteAtMost(d, SendInvite(d, now, e, guest, spread, actor, delivers).db)
  {
    var o := SendInvite(d, now, e, guest, spread, actor, delivers);
    SendShape(d, now, e, guest, spread, actor, delivers);
    if o.result.Ok? {
      if d.events[e].owner == actor {
        assert o == WithNote(InsertInvite(d, e, guest, spread, actor), Note(guest, EventInvite, e, actor), delivers);
      } else {
        assert o == WithNote(ForwardInvite(d, e, guest, 0, actor), Note(guest, EventInvite, e, actor), delivers);
      }
    }
  }

  lemma RemoveNotes(d: Db, now: Instant, e: EventId, guest: UserId, actor: UserId, delivers: bool)
    ensures OneNoteAtMost(d, RemoveInvite(d, now, e, guest, actor, delivers).db)
  {
    var d' := RemoveInvite(d, now, e, guest, actor, delivers).db;
    if d' != d {
      assert d' == Notify(DeleteInvite(d, e, guest).db, Note(guest, EventUninvite, e, actor), delivers);
    }
  }

  lemma RespondNotes(d: Db, now: Instant, e: EventId, guest: UserId, status: InviteStatus, reason: Option<string>, delivers: bool)
    ensures OneNoteAtMost(d, Respond(d, now, e, guest, status, reason, delivers).db)
  {
    var d' := Respond(d, now, e, guest, status, reason, delivers).db;
    if d' != d {
      var o := SetResponse(d, e, guest, status, if status == Declined then reason else None);
      assert d' == Notify(o.db, ResponseNote(o.result.value.invitedBy, e, guest, status), delivers);
    }
  }

  lemma GuestSideNotes(d: Db, t: Timed)
    requires GuestSide(t.call)
    ensures OneNoteAtMost(d, Apply(d, t))
  {
    match t.call
    case SendCall(e, g, s, a, ok) => SendNotes(d, t.now, e, g, s, a, ok);
    case RemoveCall(e, g, a, ok) => RemoveNotes(d, t.now, e, g, a, ok);
    case RespondCall(e, a, status, reason, ok) => RespondNotes(d, t.now, e, a, status, reason, ok);
  }

  lemma UpdateNotes(d: Db, now: Instant, e: EventId, p: EventPatch, actor: UserId, order: seq<Attendee>, lost: set<UserId>)
    ensures var o := UpdateEvent(d, now, e, p, actor, order, lost);
            o.db.notifications == if o.result.Ok? then d.notifications + FanOut(order, e, actor, lost) else d.notifications
  {
  }

  lemma EventSideUnique(d: Db, t: Timed)
    requires RemindersUnique(d.notifications) && EventSide(t.call)
    ensures RemindersUnique(Apply(d, t).notifications)
  {
    match t.call
    case CreateEventCall(ev) =>
      assert CreateEvent(d, t.now, ev).db.notifications == d.notifications;
    case UpdateEventCall(e, p, a, order, lost) =>
      UpdateNotes(d, t.now, e, p, a, order, lost);
      FanOutNoReminder(order, e, a, lost);
      NoReminderAdded(d.notifications, FanOut(order, e, a, lost));
    case DeleteEventCall(e, a) =>
      assert DeleteEvent(d, e, a).db.notifications == d.notifications;
  }

  lemma VisitUnique(d: Db, u: UserId, page: int)
    requires RemindersUnique(d.notifications)
    ensures RemindersUnique(Visit(d, u, page).db.notifications)
  {
  }

  lemma DeleteUserUnique(d: Db, now: Instant, u: UserId)
    requires RemindersUnique(d.notifications)
    ensures RemindersUnique(DeleteUser(d, now, u).db.notifications)
  {
    OthersUnique(d.notifications, u);
    var o := DeleteUser(d, now, u);
    assert o.db == if o.result.Ok? then Erased(d, now, u) else d;
  }

  lemma RegisterNotes(d: Db, name: string, email: string, address: Option<string>, pending: seq<NetworkInviteId>, faults: ResolveFaults)
    ensures Register(d, name, email, address, pending, faults).db.notifications == d.notifications
  {
    var created := CreateUser(d, name, email, address);
    if created.result.Ok? {
      ResolveKeepsGuests(created.db, created.result.value, pending, faults);
    }
  }

  lemma InviteByEmailNotes(d: Db, now: Instant, inviter: UserId, email: string, sends: bool)
    ensures InviteByEmail(d, now, inviter, email, sends).db.notifications == d.notifications
  {
    var d' := InviteByEmail(d, now, inviter, email, sends).db;
    if email == "" || EmailTaken(d.users, email) {
      assert d' == d;
    } else {
      assert d' == CreateOrRefreshInvite(d, now, inviter, email).db;
    }
  }

  lemma CallKeepsUnique(d: Db, t: Timed)
    requires RemindersUnique(d.notifications) && Legal(d, t)
    ensures RemindersUnique(Apply(d, t).notifications)
  {
    if EventSide(t.call) {
      EventSideUnique(d, t);
    } else if GuestSide(t.call) {
      GuestSideNotes(d, t);
    } else {
      RestUnique(d, t);
    }
  }

  lemma RestUnique(d: Db, t: Timed)
    requires RemindersUnique(d.notifications) && Legal(d, t) && !EventSide(t.call) && !GuestSide(t.call)
    ensures RemindersUnique(Apply(d, t).notifications)
  {
    match t.call
    case RemindCall(run) => RemindKeepsUnique(d, t.now, run);
    case VisitCall(u, page) => VisitUnique(d, u, page);
    case RegisterCall(name, email, address, pending, faults) => RegisterNotes(d, name, email, address, pending, faults);
    case InviteByEmailCall(a, email, sends) => InviteByEmailNotes(d, t.now, a, email, sends);
    case DeleteUserCall(u) => DeleteUserUnique(d, t.now, u);
  }

  /** However calls and daily runs follow one another, and whichever inserts fail, no reminder is there twice. */
  lemma {:induction false} RunKeepsUnique(d: Db, trace: seq<Timed>)
    requires RemindersUnique(d.notifications) && LegalRun(d, trace)
    ensures RemindersUnique(Run(d, trace).notifications)
    decreases |trace|
  {
    if trace != [] {
      CallKeepsUnique(d, trace[0]);
      RunKeepsUnique(Apply(d, trace[0]), trace[1..]);
    }
  }

  // ---------------------------------------------------------------- completeness

  lemma StillReminded(notes: seq<Notification>, more: seq<Notification>, k: InviteKey, kind: NotificationKind)
    requires Reminded(notes, k, kind)
    ensures Reminded(notes + more, k, kind)
  {
  }

  lemma ListedReminded(notes: seq<Notification>, order: seq<InviteKey>, kind: NotificationKind, k: InviteKey)
    requires k in order
    ensures Reminded(notes + Raise(order, kind, {}), k, kind)
  {
    RaisedExactly(order, kind, {}, Reminder(k, kind));
    assert Reminder(k, kind) in notes + Raise(order, kind, {});
  }

  /** A run without failures reminds every invite that is due, so listing again finds nothing. */
  lemma RunRemindsAll(d: Db, now: Instant, run: ReminderRun)
    requires ReminderRunOf(d, now, run) && run.lostDeadlines == {} && run.lostStarting == {}
    ensures var d' := DailyReminders(d, run);
            && (forall k | k in d.invites && DeadlineDue(d, CalendarDay(now + DAY), k) :: Reminded(d'.notifications, k, RsvpDeadlineReminder))
            && (forall k | k in d.invites && StartsOn(d, CalendarDay(now), k) :: Reminded(d'.notifications, k, EventStartingToday))
  {
    var d1 := AfterDeadlines(d, run);
    var d' := DailyReminders(d, run);
    forall k | k in d.invites && DeadlineDue(d, CalendarDay(now + DAY), k)
      ensures Reminded(d'.notifications, k, RsvpDeadlineReminder)
    {
      if k in run.deadlines {
        ListedReminded(d.notifications, run.deadlines, RsvpDeadlineReminder, k);
      } else {
        StillReminded(d.notifications, Raise(run.deadlines, RsvpDeadlineReminder, {}), k, RsvpDeadlineReminder);
      }
      StillReminded(d1.notifications, Raise(run.starting, EventStartingToday, {}), k, RsvpDeadlineReminder);
    }
    forall k | k in d.invites && StartsOn(d, CalendarDay(now), k)
      ensures Reminded(d'.notifications, k, EventStartingToday)
    {
      if k in run.starting {
        ListedReminded(d1.notifications, run.starting, EventStartingToday, k);
      } else {
        StillReminded(d1.notifications, Raise(run.starting, EventStartingToday, {}), k, EventStartingToday);
      }
    }
  }

  // ---------------------------------------------------------------- read off the tables

  /** The user has a notification of this kind about the event. */
  ghost predicate Has(notes: seq<Notification>, user: UserId, kind: NotificationKind, e: EventId) {
    exists i :: 0 <= i < |notes| && notes[i].user == user && notes[i].kind == kind && notes[i].event == e
  }

  lemma HasIff(notes: seq<Notification>, k: InviteKey, kind: NotificationKind)
    ensures Has(notes, k.guest, kind, k.event) <==> Reminded(notes, k, kind)
  {
    if n :| n in notes && n.user == k.guest && n.kind == kind && n.event == k.event {
      var i :| 0 <= i < |notes| && notes[i] == n;
    }
  }

  lemma DayOf(t: Instant, day: int)
    ensures CalendarDay(t) == day <==> day * DAY <= t < (day + 1) * DAY
  {
  }

  /** A guest who has not answered, with the deadline on the day after `today`. */
  predicate AnswerDue(d: Db, today: int, k: InviteKey) {
    && k in d.invites && d.invites[k].status == Pending && k.event in d.events
    && d.events[k.event].rsvpDeadline.Some?
    && (today + 1) * DAY <= d.events[k.event].rsvpDeadline.value < (today + 2) * DAY
  }

  /** A guest who is coming, with the event on `today`. */
  predicate ComingToday(d: Db, today: int, k: InviteKey) {
    && k in d.invites && d.invites[k].status == Accepted && k.event in d.events
    && today * DAY <= d.events[k.event].date < (today + 1) * DAY
  }

  lemma DueIff(d: Db, now: Instant, today: int, k: InviteKey)
    requires today * DAY <= now < (today + 1) * DAY && k in d.invites
    ensures AnswerDue(d, today, k) <==> DeadlineDue(d, CalendarDay(now + DAY), k)
    ensures ComingToday(d, today, k) <==> StartsOn(d, CalendarDay(now), k)
  {
    DayOf(now, today);
    DayOf(now + DAY, today + 1);
    if k.event in d.events {
      DayOf(d.events[k.event].date, today);
      if d.events[k.event].rsvpDeadline.Some? {
        DayOf(d.events[k.event].rsvpDeadline.value, today + 1);
      }
    }
  }

  /**
   After a run that lost nothing every guest whose answer is due by tomorrow's deadline has that reminder,
   and every guest who comes to an event today has theirs.
   */
  lemma EveryoneDueIsReminded(d: Db, now: Instant, run: ReminderRun, today: int)
    requires ReminderRunOf(d, now, run) && run.lostDeadlines == {} && run.lostStarting == {}
    requires today * DAY <= now < (today + 1) * DAY
    ensures var notes := DailyReminders(d, run).notifications;
            && (forall k | AnswerDue(d, today, k) :: Has(notes, k.guest, RsvpDeadlineReminder, k.event))
            && (forall k | ComingToday(d, today, k) :: Has(notes, k.guest, EventStartingToday, k.event))
  {
    var notes := DailyReminders(d, run).notifications;
    RunRemindsAll(d, now, run);
    forall k | AnswerDue(d, today, k)
      ensures Has(notes, k.guest, RsvpDeadlineReminder, k.event)
    {
      DueIff(d, now, today, k);
      HasIff(notes, k, RsvpDeadlineReminder);
    }
    forall k | ComingToday(d, today, k)
      ensures Has(notes, k.guest, EventStartingToday, k.event)
    {
      DueIff(d, now, today, k);
      HasIff(notes, k, EventStartingToday);
    }
  }

  /** Whatever is lost, all that a run adds is unread reminders to such guests who had none, and nothing else changes. */
  lemma OnlyTheDueAreReminded(d: Db, now: Instant, run: ReminderRun, today: int)
    requires ReminderRunOf(d, now, run) && today * DAY <= now < (today + 1) * DAY
    ensures var d' := DailyReminders(d, run);
            && d' == d.(notifications := d'.notifications)
            && |d.notifications| <= |d'.notifications| && d'.notifications[..|d.notifications|] == d.notifications
            && forall i | |d.notifications| <= i < |d'.notifications| ::
                 var n: Notification := d'.notifications[i];
                 && n == Notification(n.user, n.kind, n.event, None, None, false)
                 && !Has(d.notifications, n.user, n.kind, n.event)
                 && (n.kind == RsvpDeadlineReminder || n.kind == EventStartingToday)
                 && (n.kind == RsvpDeadlineReminder ==> AnswerDue(d, today, InviteKey(n.event, n.user)))
                 && (n.kind == EventStartingToday ==> ComingToday(d, today, InviteKey(n.event, n.user)))
  {
    var d1, d' := AfterDeadlines(d, run), DailyReminders(d, run);
    var first := Raise(run.deadlines, RsvpDeadlineReminder, run.lostDeadlines);
    var second := Raise(run.starting, EventStartingToday, run.lostStarting);
    assert d'.notifications == d.notifications + (first + second);
    forall n: Notification | n in first + second
      ensures n == Notification(n.user, n.kind, n.event, None, None, false) && !Has(d.notifications, n.user, n.kind, n.event)
      ensures n.kind == RsvpDeadlineReminder || n.kind == EventStartingToday
      ensures n.kind == RsvpDeadlineReminder ==> AnswerDue(d, today, InviteKey(n.event, n.user))
      ensures n.kind == EventStartingToday ==> ComingToday(d, today, InviteKey(n.event, n.user))
    {
      var k := InviteKey(n.event, n.user);
      RaisedExactly(run.deadlines, RsvpDeadlineReminder, run.lostDeadlines, n);
      RaisedExactly(run.starting, EventStartingToday, run.lostStarting, n);
      if n in first {
        DueIff(d, now, today, k);
        HasIff(d.notifications, k, RsvpDeadlineReminder);
      } else {
        assert k in StartingRows(d1, CalendarDay(now));
        DueIff(d, now, today, k);
        HasIff(d.notifications, k, EventStartingToday);
        if Reminded(d.notifications, k, EventStartingToday) {
          StillReminded(d.notifications, first, k, EventStartingToday);
        }
      }
    }
  }

  /** Repeating a run that lost nothing, at once, adds nothing. */
  lemma RepeatAddsNothing(d: Db, now: Instant, run: ReminderRun, again: ReminderRun)
    requires ReminderRunOf(d, now, run) && run.lostDeadlines == {} && run.lostStarting == {}
    requires ReminderRunOf(DailyReminders(d, run), now, again)
    ensures DailyReminders(DailyReminders(d, run), again) == DailyReminders(d, run)
  {
    var d' := DailyReminders(d, run);
    RunRemindsAll(d, now, run);
    assert DeadlineRows(d', CalendarDay(now + DAY)) == {};
    EmptyListing(again.deadlines);
    assert AfterDeadlines(d', again) == d';
    assert StartingRows(d', CalendarDay(now)) == {};
    EmptyListing(again.starting);
  }

  lemma ListingHasRows<T(!new)>(order: seq<T>, rows: set<T>)
    requires Lists(order, rows) && order != []
    ensures rows != {}
  {
    assert order[0] in rows;
  }

  lemma EmptyListing<T(!new)>(order: seq<T>)
    requires Lists(order, {})
    ensures order == []
  {
    if order != [] {
      ListingHasRows(order, {});
    }
  }
}
