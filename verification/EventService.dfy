/**
 The event service, call by call.  Each method's effect and answer are those of the function of
 the same purpose in `InviteRules` or `ReminderRules`; the other modules prove what those keep.

 A notification insert can fail, and the service only logs it: `delivers` and the `lost` sets say
 which ones do.
 */
module EventService {
  import opened Tables
  import opened InviteRules
  import opened ReminderRules
  import EventRepository

  method Raise(db: Database, note: Notification, delivers: bool)
    modifies db
    ensures db.State() == Notify(old(db.State()), note, delivers)
  {
    if delivers {
      db.notifications := db.notifications + [note];
    }
  }

  method CreateEvent(db: Database, now: Instant, ev: Event) returns (r: Result<EventId>)
    modifies db
    ensures Outcome(db.State(), r) == InviteRules.CreateEvent(old(db.State()), now, ev)
  {
    if ev.date <= now {
      return Err(PastEventDate);
    }
    if ev.rsvpDeadline.Some? && ev.rsvpDeadline.value > ev.date {
      return Err(InvalidRsvpDeadline);
    }
    r := EventRepository.CreateEvent(db, ev);
  }

  /** Everyone on the list but the actor hears about it, one insert each. */
  method NotifyInvitees(db: Database, e: EventId, exclude: UserId, lost: set<UserId>) returns (ghost order: seq<Attendee>)
    modifies db
    ensures Lists(order, AttendeeRows(old(db.State()), e))
    ensures db.State() == old(db.State()).(notifications := old(db.notifications) + FanOut(order, e, exclude, lost))
  {
    var attendees := EventRepository.ListEventAttendees(db, e);
    order := attendees;
    var i := 0;
    while i < |attendees|
      invariant 0 <= i <= |attendees|
      invariant db.State() == old(db.State()).(notifications := old(db.notifications) + FanOut(attendees[..i], e, exclude, lost))
    {
      var user := attendees[i].user;
      assert attendees[..i + 1][..i] == attendees[..i];
      if user != exclude {
        Raise(db, Notification(user, EventUpdated, e, None, None, false), user !in lost);
      }
      i := i + 1;
    }
    assert attendees[..i] == attendees;
  }

  method UpdateEvent(db: Database, now: Instant, e: EventId, patch: EventPatch, actor: UserId, lost: set<UserId>)
    returns (r: Result<Event>, ghost order: seq<Attendee>)
    modifies db
    ensures r.Ok? ==> Lists(order, AttendeeRows(old(db.State()), e))
    ensures Outcome(db.State(), r) == InviteRules.UpdateEvent(old(db.State()), now, e, patch, actor, order, lost)
  {
    order := [];
    var existing := EventRepository.GetEvent(db, e);
    if existing.Err? {
      return Err(existing.error), order;
    }
    if existing.value.owner != actor {
      return Err(UnauthorizedEventUpdate), order;
    }
    var date := existing.value.date;
    if patch.date.Some? {
      date := patch.date.value;
    }
    var deadline := existing.value.rsvpDeadline;
    if patch.rsvpDeadline.Some? {
      deadline := patch.rsvpDeadline;
    }
    if date <= now {
      return Err(PastEventDate), order;
    }
    if deadline.Some? && deadline.value > date {
      return Err(InvalidRsvpDeadline), order;
    }
    r := EventRepository.UpdateEvent(db, e, patch, actor);
    assert AttendeeRows(db.State(), e) == AttendeeRows(old(db.State()), e);
    if r.Ok? {
      order := NotifyInvitees(db, e, actor, lost);
    }
  }

  method SendEventInvite(db: Database, now: Instant, e: EventId, guest: UserId, spread: nat, actor: UserId, delivers: bool) returns (r: Result<Invite>)
    modifies db
    ensures Outcome(db.State(), r) == SendInvite(old(db.State()), now, e, guest, spread, actor, delivers)
  {
    if guest == actor {
      return Err(InviteNotAllowed);
    }
    var ev := EventRepository.GetEvent(db, e);
    if ev.Err? {
      return Err(ev.error);
    }
    if ev.value.owner == actor {
      r := EventRepository.CreateEventInvite(db, e, guest, spread, actor);
      if r.Ok? {
        Raise(db, Note(guest, EventInvite, e, actor), delivers);
      }
      return;
    }
    if RsvpClosed(ev.value, now) {
      return Err(RsvpClosedError);
    }
    r := EventRepository.ForwardEventInvite(db, e, guest, 0, actor);
    if r.Ok? {
      Raise(db, Note(guest, EventInvite, e, actor), delivers);
    }
  }

  method RemoveEventInvite(db: Database, now: Instant, e: EventId, guest: UserId, actor: UserId, delivers: bool) returns (r: Result<()>)
    modifies db
    ensures Outcome(db.State(), r) == RemoveInvite(old(db.State()), now, e, guest, actor, delivers)
  {
    var ev := EventRepository.GetEvent(db, e);
    if ev.Err? {
      return Err(ev.error);
    }
    if ev.value.owner != actor {
      if RsvpClosed(ev.value, now) {
        return Err(RsvpClosedError);
      }
      var invite := EventRepository.GetEventInvite(db, e, guest);
      if invite.Err? {
        return Err(invite.error);
      }
      if invite.value.invitedBy != actor {
        return Err(RemoveNotAllowed);
      }
    }
    r := EventRepository.DeleteEventInvite(db, e, guest);
    if r.Ok? {
      Raise(db, Note(guest, EventUninvite, e, actor), delivers);
    }
  }

  method RespondToEventInvite(db: Database, now: Instant, e: EventId, guest: UserId, status: InviteStatus, reason: Option<string>, delivers: bool)
    returns (r: Result<Invite>)
    modifies db
    ensures Outcome(db.State(), r) == Respond(old(db.State()), now, e, guest, status, reason, delivers)
  {
    if status != Accepted && status != Declined {
      return Err(InvalidInviteStatus);
    }
    var stored := if status != Declined then None else reason;
    var ev := EventRepository.GetEvent(db, e);
    if ev.Err? {
      return Err(ev.error);
    }
    if RsvpClosed(ev.value, now) {
      return Err(RsvpClosedError);
    }
    r := EventRepository.RespondToEventInvite(db, e, guest, status, stored);
    if r.Ok? {
      Raise(db, ResponseNote(r.value.invitedBy, e, guest, status), delivers);
    }
  }

  /** One of the two loops of the daily job. */
  method RaiseReminders(db: Database, listed: seq<InviteKey>, kind: NotificationKind, lost: set<InviteKey>)
    modifies db
    ensures db.State() == old(db.State()).(notifications := old(db.notifications) + ReminderRules.Raise(listed, kind, lost))
  {
    var i := 0;
    while i < |listed|
      invariant 0 <= i <= |listed|
      invariant db.State() == old(db.State()).(notifications := old(db.notifications) + ReminderRules.Raise(listed[..i], kind, lost))
    {
      assert listed[..i + 1][..i] == listed[..i];
      Raise(db, Reminder(listed[i], kind), listed[i] !in lost);
      i := i + 1;
    }
    assert listed[..i] == listed;
  }

  method SendDailyReminders(db: Database, now: Instant, lostDeadlines: set<InviteKey>, lostStarting: set<InviteKey>)
    returns (ghost run: ReminderRun)
    modifies db
    ensures ReminderRunOf(old(db.State()), now, run)
    ensures run.lostDeadlines == lostDeadlines && run.lostStarting == lostStarting
    ensures db.State() == DailyReminders(old(db.State()), run)
  {
    var deadlines := EventRepository.ListPendingInvitesWithRsvpDeadlineOn(db, CalendarDay(now + DAY));
    RaiseReminders(db, deadlines, RsvpDeadlineReminder, lostDeadlines);
    var starting := EventRepository.ListAcceptedInvitesWithEventOn(db, CalendarDay(now));
    RaiseReminders(db, starting, EventStartingToday, lostStarting);
    run := ReminderRun(deadlines, lostDeadlines, starting, lostStarting);
  }
}
