/**
 What each call of the event service does to the database, as functions from the state before
 to the state after.  `EventService` proves its methods equal to these functions.
 */
module InviteRules {
  import opened Tables

  /** The guest list freezes for everyone but the owner once the deadline is in the past. */
  predicate RsvpClosed(ev: Event, now: Instant) {
    ev.rsvpDeadline.Some? && ev.rsvpDeadline.value < now
  }

  /** The live invite rows of event `e` whose sender is `actor`. */
  function SentRows(invites: map<InviteKey, Invite>, e: EventId, actor: UserId): set<InviteKey> {
    set k | k in invites && k.event == e && invites[k].invitedBy == actor
  }

  // ---------------------------------------------------------------- statements

  /** INSERT INTO event_invites, with its primary key and its three references. */
  function InsertInvite(d: Db, e: EventId, guest: UserId, spread: nat, actor: UserId): Outcome<Invite> {
    var row := Invite(actor, Pending, spread, d.nextInvite, None);
    if InviteKey(e, guest) in d.invites then Outcome(d, Err(AlreadyInvited))
    else if e !in d.events || actor !in d.users then Outcome(d, Err(DatabaseError))
    else if guest !in d.users then Outcome(d, Err(InvitedUserNotFound))
    else Outcome(d.(invites := d.invites[InviteKey(e, guest) := row], nextInvite := d.nextInvite + 1), Ok(row))
  }

  /** The whole forwarding transaction when nothing runs beside it. */
  function ForwardInvite(d: Db, e: EventId, guest: UserId, spread: nat, actor: UserId): Outcome<Invite> {
    if InviteKey(e, actor) !in d.invites then Outcome(d, Err(InviteNotAllowed))
    else
      var sender := d.invites[InviteKey(e, actor)];
      if sender.status != Accepted || |SentRows(d.invites, e, actor)| >= sender.spread
      then Outcome(d, Err(InviteNotAllowed))
      else InsertInvite(d, e, guest, spread, actor)
  }

  function DeleteInvite(d: Db, e: EventId, guest: UserId): Outcome<()> {
    if InviteKey(e, guest) in d.invites
    then Outcome(d.(invites := d.invites - {InviteKey(e, guest)}), Ok(()))
    else Outcome(d, Err(InviteNotFound))
  }

  function SetResponse(d: Db, e: EventId, guest: UserId, status: InviteStatus, reason: Option<string>): Outcome<Invite> {
    var k := InviteKey(e, guest);
    if k in d.invites then
      var row := d.invites[k].(status := status, declineReason := reason);
      Outcome(d.(invites := d.invites[k := row]), Ok(row))
    else Outcome(d, Err(InviteNotFound))
  }

  /** A notification whose insert may fail; the failure is only logged. */
  function Notify(d: Db, note: Notification, delivers: bool): Db {
    if delivers then d.(notifications := d.notifications + [note]) else d
  }

  function Note(user: UserId, kind: NotificationKind, e: EventId, actor: UserId): Notification {
    Notification(user, kind, e, Some(actor), None, false)
  }

  function ResponseNote(inviter: UserId, e: EventId, guest: UserId, status: InviteStatus): Notification {
    Notification(inviter, InviteResponse, e, Some(guest), Some(status), false)
  }

  /** The row is in; the notification about it is best effort. */
  function WithNote<T>(o: Outcome<T>, note: Notification, delivers: bool): Outcome<T> {
    if o.result.Ok? then Outcome(Notify(o.db, note, delivers), o.result) else o
  }

  // ---------------------------------------------------------------- guest list calls

  /** Only the owner's choice of spread counts; a forwarded invite has none. */
  function AddGuest(d: Db, e: EventId, guest: UserId, spread: nat, actor: UserId): Outcome<Invite>
    requires e in d.events
  {
    if d.events[e].owner == actor then InsertInvite(d, e, guest, spread, actor)
    else ForwardInvite(d, e, guest, 0, actor)
  }

  function SendInvite(d: Db, now: Instant, e: EventId, guest: UserId, spread: nat, actor: UserId, delivers: bool): Outcome<Invite> {
    if guest == actor then Outcome(d, Err(InviteNotAllowed))
    else if e !in d.events then Outcome(d, Err(EventNotFound))
    else if d.events[e].owner != actor && RsvpClosed(d.events[e], now) then Outcome(d, Err(RsvpClosedError))
    else WithNote(AddGuest(d, e, guest, spread, actor), Note(guest, EventInvite, e, actor), delivers)
  }

  function RemoveInvite(d: Db, now: Instant, e: EventId, guest: UserId, actor: UserId, delivers: bool): Outcome<()> {
    if e !in d.events then Outcome(d, Err(EventNotFound))
    else if d.events[e].owner != actor && RsvpClosed(d.events[e], now) then Outcome(d, Err(RsvpClosedError))
    else if d.events[e].owner != actor && InviteKey(e, guest) !in d.invites then Outcome(d, Err(InviteNotFound))
    else if d.events[e].owner != actor && d.invites[InviteKey(e, guest)].invitedBy != actor then Outcome(d, Err(RemoveNotAllowed))
    else WithNote(DeleteInvite(d, e, guest), Note(guest, EventUninvite, e, actor), delivers)
  }

  /** The owner is not exempt here: a closed deadline stops every response. */
  function Respond(d: Db, now: Instant, e: EventId, guest: UserId, status: InviteStatus, reason: Option<string>, delivers: bool): Outcome<Invite> {
    if status == Pending then Outcome(d, Err(InvalidInviteStatus))
    else if e !in d.events then Outcome(d, Err(EventNotFound))
    else if RsvpClosed(d.events[e], now) then Outcome(d, Err(RsvpClosedError))
    else
      var o := SetResponse(d, e, guest, status, if status == Declined then reason else None);
      if o.result.Ok? then WithNote(o, ResponseNote(o.result.value.invitedBy, e, guest, status), delivers) else o
  }

  // ---------------------------------------------------------------- event calls

  datatype EventPatch = EventPatch(
    name: Option<string>, date: Option<Instant>, rsvpDeadline: Option<Instant>,
    defaultSpread: Option<nat>, icon: Option<string>, clearIcon: bool)

  function Coalesce<T>(patch: Option<T>, current: T): T {
    if patch.Some? then patch.value else current
  }

  function CreateEvent(d: Db, now: Instant, ev: Event): Outcome<EventId> {
    if ev.date <= now then Outcome(d, Err(PastEventDate))
    else if ev.rsvpDeadline.Some? && ev.rsvpDeadline.value > ev.date then Outcome(d, Err(InvalidRsvpDeadline))
    else if ev.owner !in d.users then Outcome(d, Err(EventOwnerNotFound))
    else Outcome(d.(events := d.events[d.nextId := ev], nextId := d.nextId + 1), Ok(d.nextId))
  }

  /** The rows that go with an event: its invites cascade. */
  function DropEvents(d: Db, gone: set<EventId>): Db {
    d.(events := d.events - gone,
       invites := map k | k in d.invites && k.event !in gone :: d.invites[k])
  }

  function DeleteEvent(d: Db, e: EventId, actor: UserId): Outcome<()> {
    if e in d.events && d.events[e].owner == actor then Outcome(DropEvents(d, {e}), Ok(()))
    else Outcome(d, Err(EventNotFound))
  }

  /** The SET list of the UPDATE statement. */
  function MergedRow(row: Event, p: EventPatch): Event {
    Event(row.owner,
          Coalesce(p.name, row.name),
          Coalesce(p.date, row.date),
          if p.rsvpDeadline.Some? then p.rsvpDeadline else row.rsvpDeadline,
          Coalesce(p.defaultSpread, row.defaultSpread),
          if p.clearIcon then None else if p.icon.Some? then p.icon else row.icon)
  }

  /** The service's check, made on the row it read: `None` when the update may proceed. */
  function UpdateRefused(row: Event, p: EventPatch, now: Instant): Option<Error> {
    var date := if p.date.Some? then p.date.value else row.date;
    var deadline := if p.rsvpDeadline.Some? then p.rsvpDeadline else row.rsvpDeadline;
    if date <= now then Some(PastEventDate)
    else if deadline.Some? && deadline.value > date then Some(InvalidRsvpDeadline)
    else None
  }

  /** The deadline is on or before the event. */
  predicate InOrder(ev: Event) {
    ev.rsvpDeadline.Some? ==> ev.rsvpDeadline.value <= ev.date
  }

  datatype Attendee = Attendee(user: UserId, isOwner: bool)

  /** The two halves of the attendee query: the owner, and everyone with an invite. */
  function AttendeeRows(d: Db, e: EventId): set<Attendee> {
    (if e in d.events then {Attendee(d.events[e].owner, true)} else {})
    + set k | k in d.invites && k.event == e :: Attendee(k.guest, false)
  }

  /** One `event_updated` for each listed attendee but `exclude`; inserts for `lost` users fail. */
  function FanOut(order: seq<Attendee>, e: EventId, exclude: UserId, lost: set<UserId>): seq<Notification> {
    if order == [] then []
    else
      var rest := FanOut(order[..|order| - 1], e, exclude, lost);
      var user := order[|order| - 1].user;
      if user == exclude || user in lost then rest
      else rest + [Notification(user, EventUpdated, e, None, None, false)]
  }

  function UpdateEvent(d: Db, now: Instant, e: EventId, p: EventPatch, actor: UserId, order: seq<Attendee>, lost: set<UserId>): Outcome<Event> {
    if e !in d.events then Outcome(d, Err(EventNotFound))
    else if d.events[e].owner != actor then Outcome(d, Err(UnauthorizedEventUpdate))
    else if UpdateRefused(d.events[e], p, now).Some? then Outcome(d, Err(UpdateRefused(d.events[e], p, now).value))
    else
      var row := MergedRow(d.events[e], p);
      Outcome(d.(events := d.events[e := row], notifications := d.notifications + FanOut(order, e, actor, lost)), Ok(row))
  }

  // ---------------------------------------------------------------- exact conditions

  /** What a guest needs to be able to bring in `guest`. */
  predicate MayForward(d: Db, now: Instant, e: EventId, guest: UserId, actor: UserId) {
    && guest != actor && guest in d.users && actor in d.users
    && e in d.events && (d.events[e].rsvpDeadline.Some? ==> now <= d.events[e].rsvpDeadline.value)
    && InviteKey(e, guest) !in d.invites
    && InviteKey(e, actor) in d.invites
    && d.invites[InviteKey(e, actor)].status == Accepted
    && |SentRows(d.invites, e, actor)| < d.invites[InviteKey(e, actor)].spread
  }

  lemma ForwardSucceedsIff(d: Db, now: Instant, e: EventId, guest: UserId, spread: nat, actor: UserId, delivers: bool)
    requires actor in d.users && e in d.events && d.events[e].owner != actor
    ensures SendInvite(d, now, e, guest, spread, actor, delivers).result.Ok? <==> MayForward(d, now, e, guest, actor)
  {
  }
}
