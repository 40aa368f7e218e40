/**
 When exactly each call of the event service succeeds, what every refusal says, and everything an
 accepted call changes, read off the tables.
 */
module CallEffects {
  import opened Tables
  import opened InviteRules

  /** The notifications afterwards: one more if its insert does not fail. */
  function Told(d: Db, note: Notification, delivers: bool): seq<Notification> {
    d.notifications + if delivers then [note] else []
  }

  // ---------------------------------------------------------------- invitations

  /**
   The owner may invite at any time; a guest until the deadline, if there is one, having accepted and
   with fewer invites of theirs live than their spread.  Only the owner hands out spread.
   */
  lemma SendExactly(d: Db, now: Instant, e: EventId, guest: UserId, spread: nat, actor: UserId, delivers: bool)
    requires actor in d.users && e in d.events
    ensures var o := SendInvite(d, now, e, guest, spread, actor, delivers);
            var owns, k, own := d.events[e].owner == actor, InviteKey(e, guest), InviteKey(e, actor);
            var past := d.events[e].rsvpDeadline.Some? && d.events[e].rsvpDeadline.value < now;
            var sent := set j | j in d.invites && j.event == e && d.invites[j].invitedBy == actor;
            var may := owns || (!past && own in d.invites && d.invites[own].status == Accepted && |sent| < d.invites[own].spread);
            && (o.result.Ok? <==> guest != actor && may && k !in d.invites && guest in d.users)
            && (o.result == Err(RsvpClosedError) <==> guest != actor && !owns && past)
            && (o.result == Err(InviteNotAllowed) <==> guest == actor || (!may && (owns || !past)))
            && (o.result == Err(AlreadyInvited) <==> guest != actor && may && k in d.invites)
            && (o.result == Err(InvitedUserNotFound) <==> guest != actor && may && k !in d.invites && guest !in d.users)
            && (if o.result.Ok?
                then o.db == d.(invites := d.invites[k := Invite(actor, Pending, if owns then spread else 0, d.nextInvite, None)],
                                nextInvite := d.nextInvite + 1,
                                notifications := Told(d, Notification(guest, EventInvite, e, Some(actor), None, false), delivers))
                else o.db == d)
  {
    SentIs(d, e, actor);
    SendAnswers(d, now, e, guest, spread, actor, delivers);
    SendEffect(d, now, e, guest, spread, actor, delivers);
  }

  lemma SentIs(d: Db, e: EventId, actor: UserId)
    ensures SentRows(d.invites, e, actor) == set j | j in d.invites && j.event == e && d.invites[j].invitedBy == actor
  {
  }

  lemma SendAnswers(d: Db, now: Instant, e: EventId, guest: UserId, spread: nat, actor: UserId, delivers: bool)
    requires actor in d.users && e in d.events
    ensures var o := SendInvite(d, now, e, guest, spread, actor, delivers);
            var owns, k, own := d.events[e].owner == actor, InviteKey(e, guest), InviteKey(e, actor);
            var past := d.events[e].rsvpDeadline.Some? && d.events[e].rsvpDeadline.value < now;
            var may := owns || (!past && own in d.invites && d.invites[own].status == Accepted
                                && |SentRows(d.invites, e, actor)| < d.invites[own].spread);
            && (o.result.Ok? <==> guest != actor && may && k !in d.invites && guest in d.users)
            && (o.result == Err(RsvpClosedError) <==> guest != actor && !owns && past)
            && (o.result == Err(InviteNotAllowed) <==> guest == actor || (!may && (owns || !past)))
            && (o.result == Err(AlreadyInvited) <==> guest != actor && may && k in d.invites)
            && (o.result == Err(InvitedUserNotFound) <==> guest != actor && may && k !in d.invites && guest !in d.users)
            && (o.result.Err? ==> o.db == d)
  {
  }

  lemma AddsRow(d: Db, e: EventId, guest: UserId, spread: nat, actor: UserId)
    requires e in d.events && AddGuest(d, e, guest, spread, actor).result.Ok?
    ensures var row := Invite(actor, Pending, if d.events[e].owner == actor then spread else 0, d.nextInvite, None);
            AddGuest(d, e, guest, spread, actor).db == d.(invites := d.invites[InviteKey(e, guest) := row], nextInvite := d.nextInvite + 1)
  {
  }

  lemma SendEffect(d: Db, now: Instant, e: EventId, guest: UserId, spread: nat, actor: UserId, delivers: bool)
    requires actor in d.users && e in d.events
    ensures var o := SendInvite(d, now, e, guest, spread, actor, delivers);
            var owns := d.events[e].owner == actor;
            o.result.Ok? ==>
              o.db == d.(invites := d.invites[InviteKey(e, guest) := Invite(actor, Pending, if owns then spread else 0, d.nextInvite, None)],
                         nextInvite := d.nextInvite + 1,
                         notifications := Told(d, Notification(guest, EventInvite, e, Some(actor), None, false), delivers))
  {
    var o := SendInvite(d, now, e, guest, spread, actor, delivers);
    if o.result.Ok? {
      AddsRow(d, e, guest, spread, actor);
      assert o == WithNote(AddGuest(d, e, guest, spread, actor), Notification(guest, EventInvite, e, Some(actor), None, false), delivers);
    }
  }

  /** The owner removes anyone; before the deadline a guest removes those they invited. */
  lemma RemoveExactly(d: Db, now: Instant, e: EventId, guest: UserId, actor: UserId, delivers: bool)
    requires e in d.events
    ensures var o := RemoveInvite(d, now, e, guest, actor, delivers);
            var owns, k := d.events[e].owner == actor, InviteKey(e, guest);
            var past := d.events[e].rsvpDeadline.Some? && d.events[e].rsvpDeadline.value < now;
            && (o.result.Ok? <==> k in d.invites && (owns || (!past && d.invites[k].invitedBy == actor)))
            && (o.result == Err(RsvpClosedError) <==> !owns && past)
            && (o.result == Err(InviteNotFound) <==> k !in d.invites && (owns || !past))
            && (o.result == Err(RemoveNotAllowed) <==> !owns && !past && k in d.invites && d.invites[k].invitedBy != actor)
            && (if o.result.Ok?
                then o.db == d.(invites := d.invites - {k},
                                notifications := Told(d, Notification(guest, EventUninvite, e, Some(actor), None, false), delivers))
                else o.db == d)
  {
  }

  /** A response sets the status, keeps a reason only for declining, and tells whoever sent the invite. */
  lemma RespondExactly(d: Db, now: Instant, e: EventId, guest: UserId, status: InviteStatus, reason: Option<string>, delivers: bool)
    requires e in d.events
    ensures var o := Respond(d, now, e, guest, status, reason, delivers);
            var k := InviteKey(e, guest);
            var past := d.events[e].rsvpDeadline.Some? && d.events[e].rsvpDeadline.value < now;
            && (o.result.Ok? <==> status != Pending && !past && k in d.invites)
            && (o.result == Err(InvalidInviteStatus) <==> status == Pending)
            && (o.result == Err(RsvpClosedError) <==> status != Pending && past)
            && (o.result == Err(InviteNotFound) <==> status != Pending && !past && k !in d.invites)
            && (if o.result.Ok?
                then && o.result.value == d.invites[k].(status := status, declineReason := if status == Declined then reason else None)
                     && o.db == d.(invites := d.invites[k := o.result.value],
                                   notifications := Told(d, Notification(d.invites[k].invitedBy, InviteResponse, e, Some(guest), Some(status), false), delivers))
                else o.db == d)
  {
    if Respond(d, now, e, guest, status, reason, delivers).result.Ok? {
      RespondEffect(d, now, e, guest, status, reason, delivers);
    }
  }

  lemma RespondEffect(d: Db, now: Instant, e: EventId, guest: UserId, status: InviteStatus, reason: Option<string>, delivers: bool)
    requires Respond(d, now, e, guest, status, reason, delivers).result.Ok?
    ensures var o := Respond(d, now, e, guest, status, reason, delivers);
            var k := InviteKey(e, guest);
            && k in d.invites
            && o.result.value == d.invites[k].(status := status, declineReason := if status == Declined then reason else None)
            && o.db == d.(invites := d.invites[k := o.result.value],
                          notifications := Told(d, Notification(d.invites[k].invitedBy, InviteResponse, e, Some(guest), Some(status), false), delivers))
  {
    var row := SetResponse(d, e, guest, status, if status == Declined then reason else None);
    assert Respond(d, now, e, guest, status, reason, delivers)
        == WithNote(row, Notification(row.result.value.invitedBy, InviteResponse, e, Some(guest), Some(status), false), delivers);
  }

  /** No call about a missing event does anything. */
  lemma MissingEvent(d: Db, now: Instant, e: EventId, guest: UserId, actor: UserId, spread: nat, status: InviteStatus, reason: Option<string>, delivers: bool)
    requires e !in d.events
    ensures guest != actor ==> SendInvite(d, now, e, guest, spread, actor, delivers) == Outcome(d, Err(EventNotFound))
    ensures RemoveInvite(d, now, e, guest, actor, delivers) == Outcome(d, Err(EventNotFound))
    ensures status != Pending ==> Respond(d, now, e, guest, status, reason, delivers) == Outcome(d, Err(EventNotFound))
  {
  }

  // ---------------------------------------------------------------- the deadline

  /**
   At an event without a deadline, or up to and including it, nothing is refused for being late: a guest
   answers, brings in and removes people on the other conditions alone.
   */
  lemma OpenToGuests(d: Db, now: Instant, e: EventId, guest: UserId, actor: UserId, spread: nat, status: InviteStatus, reason: Option<string>, delivers: bool)
    requires e in d.events && actor in d.users
    requires d.events[e].rsvpDeadline.Some? ==> now <= d.events[e].rsvpDeadline.value
    ensures var k, own := InviteKey(e, guest), InviteKey(e, actor);
            var answer, send, remove := Respond(d, now, e, guest, status, reason, delivers).result,
                                        SendInvite(d, now, e, guest, spread, actor, delivers).result,
                                        RemoveInvite(d, now, e, guest, actor, delivers).result;
            var sent := set j | j in d.invites && j.event == e && d.invites[j].invitedBy == actor;
            && answer != Err(RsvpClosedError) && send != Err(RsvpClosedError) && remove != Err(RsvpClosedError)
            && (answer.Ok? <==> (status == Accepted || status == Declined) && k in d.invites)
            && (d.events[e].owner != actor ==>
                  (send.Ok? <==> guest != actor && guest in d.users && k !in d.invites && own in d.invites
                                 && d.invites[own].status == Accepted && |sent| < d.invites[own].spread))
            && (d.events[e].owner != actor ==> (remove.Ok? <==> k in d.invites && d.invites[k].invitedBy == actor))
  {
    SendExactly(d, now, e, guest, spread, actor, delivers);
    RemoveExactly(d, now, e, guest, actor, delivers);
    RespondExactly(d, now, e, guest, status, reason, delivers);
  }

  /** Once the deadline is past everyone but the owner is told so, and for responses the owner too. */
  lemma ClosedToGuests(d: Db, now: Instant, e: EventId, guest: UserId, actor: UserId, spread: nat, status: InviteStatus, reason: Option<string>, delivers: bool)
    requires e in d.events && d.events[e].rsvpDeadline.Some? && d.events[e].rsvpDeadline.value < now
    ensures actor != d.events[e].owner ==> RemoveInvite(d, now, e, guest, actor, delivers) == Outcome(d, Err(RsvpClosedError))
    ensures actor != d.events[e].owner && guest != actor ==> SendInvite(d, now, e, guest, spread, actor, delivers) == Outcome(d, Err(RsvpClosedError))
    ensures status != Pending ==> Respond(d, now, e, guest, status, reason, delivers) == Outcome(d, Err(RsvpClosedError))
  {
  }

  // ---------------------------------------------------------------- events

  /** What an accepted update leaves in each field: the patch's value where it has one. */
  ghost predicate Patched(row: Event, p: EventPatch, row': Event) {
    && row'.owner == row.owner
    && (if p.name.Some? then row'.name == p.name.value else row'.name == row.name)
    && (if p.date.Some? then row'.date == p.date.value else row'.date == row.date)
    && (if p.rsvpDeadline.Some? then row'.rsvpDeadline == p.rsvpDeadline else row'.rsvpDeadline == row.rsvpDeadline)
    && (if p.defaultSpread.Some? then row'.defaultSpread == p.defaultSpread.value else row'.defaultSpread == row.defaultSpread)
    && (p.clearIcon ==> row'.icon == None)
    && (!p.clearIcon && p.icon.Some? ==> row'.icon == p.icon)
    && (!p.clearIcon && p.icon.None? ==> row'.icon == row.icon)
  }

  /**
   An update is accepted exactly when the caller owns the event and the patched row lies ahead with its
   deadline on or before it; that row is then the only one that changed.
   */
  lemma UpdateExactly(d: Db, now: Instant, e: EventId, p: EventPatch, actor: UserId, order: seq<Attendee>, lost: set<UserId>, row: Event)
    requires e in d.events && Patched(d.events[e], p, row)
    ensures var o := UpdateEvent(d, now, e, p, actor, order, lost);
            var late := row.rsvpDeadline.Some? && row.rsvpDeadline.value > row.date;
            && (o.result.Ok? <==> d.events[e].owner == actor && row.date > now && !late)
            && (o.result == Err(UnauthorizedEventUpdate) <==> d.events[e].owner != actor)
            && (o.result == Err(PastEventDate) <==> d.events[e].owner == actor && row.date <= now)
            && (o.result == Err(InvalidRsvpDeadline) <==> d.events[e].owner == actor && row.date > now && late)
            && (if o.result.Ok?
                then o.result.value == row && o.db == d.(events := d.events[e := row], notifications := o.db.notifications)
                else o.db == d)
  {
  }

  lemma PatchedRow(row: Event, p: EventPatch)
    ensures Patched(row, p, MergedRow(row, p))
  {
  }

  /** An event is created exactly when it lies ahead, its deadline is on or before it, and its owner exists. */
  lemma CreateExactly(d: Db, now: Instant, ev: Event)
    ensures var o := CreateEvent(d, now, ev);
            var late := ev.rsvpDeadline.Some? && ev.rsvpDeadline.value > ev.date;
            && (o.result == Ok(d.nextId) <==> ev.date > now && !late && ev.owner in d.users)
            && (o.result == Err(PastEventDate) <==> ev.date <= now)
            && (o.result == Err(InvalidRsvpDeadline) <==> ev.date > now && late)
            && (o.result == Err(EventOwnerNotFound) <==> ev.date > now && !late && ev.owner !in d.users)
            && (if o.result.Ok? then o.db == d.(events := d.events[d.nextId := ev], nextId := d.nextId + 1) else o.db == d)
  {
  }

  /** The owner deletes an event, and exactly its invites go along. */
  lemma DeleteExactly(d: Db, e: EventId, actor: UserId)
    ensures var o := DeleteEvent(d, e, actor);
            && (o.result.Ok? <==> e in d.events && d.events[e].owner == actor)
            && (o.result.Err? ==> o.result == Err(EventNotFound) && o.db == d)
            && (o.result.Ok? ==>
                  && o.db == d.(events := o.db.events, invites := o.db.invites)
                  && (forall x :: x in o.db.events <==> x in d.events && x != e)
                  && (forall x | x in o.db.events :: o.db.events[x] == d.events[x])
                  && (forall k :: k in o.db.invites <==> k in d.invites && k.event != e)
                  && (forall k | k in o.db.invites :: o.db.invites[k] == d.invites[k]))
  {
  }
}
