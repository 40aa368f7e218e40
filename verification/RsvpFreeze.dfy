/** Once the RSVP deadline is past, only the owner can change the guest list. */
module RsvpFreeze {
  import opened Tables
  import opened InviteRules
  import opened AccountRules
  import opened Protocol
  import opened Shapes
  import opened CallEffects
  import opened Consistency

  /** The event and every row of its guest list are exactly what they were. */
  ghost predicate SameList(d: Db, d': Db, e: EventId) {
    && e in d.events && e in d'.events && d'.events[e] == d.events[e]
    && (forall k: InviteKey | k.event == e :: k in d'.invites <==> k in d.invites)
    && (forall k: InviteKey | k.event == e && k in d.invites :: d'.invites[k] == d.invites[k])
  }

  /** The owner of `e` acts on it, or an account the list refers to is deleted. */
  predicate OwnerActs(d: Db, c: Call, e: EventId)
    requires e in d.events
  {
    match c
    case UpdateEventCall(e', _, a, _, _) => e' == e && a == d.events[e].owner
    case DeleteEventCall(e', a) => e' == e && a == d.events[e].owner
    case SendCall(e', _, _, a, _) => e' == e && a == d.events[e].owner
    case RemoveCall(e', _, a, _) => e' == e && a == d.events[e].owner
    case DeleteUserCall(u) => u == d.events[e].owner || InviteKey(e, u) in d.invites
    case _ => false
  }

  lemma FrozenSend(d: Db, now: Instant, e': EventId, guest: UserId, spread: nat, actor: UserId, delivers: bool, e: EventId)
    requires e in d.events && RsvpClosed(d.events[e], now) && (e' == e ==> actor != d.events[e].owner)
    ensures SameList(d, SendInvite(d, now, e', guest, spread, actor, delivers).db, e)
  {
    SendShape(d, now, e', guest, spread, actor, delivers);
  }

  lemma FrozenRemove(d: Db, now: Instant, e': EventId, guest: UserId, actor: UserId, delivers: bool, e: EventId)
    requires e in d.events && d.events[e].rsvpDeadline.Some? && d.events[e].rsvpDeadline.value < now && (e' == e ==> actor != d.events[e].owner)
    ensures SameList(d, RemoveInvite(d, now, e', guest, actor, delivers).db, e)
  {
    if e' == e {
      ClosedToGuests(d, now, e, guest, actor, 0, Pending, None, delivers);
    } else if e' in d.events {
      RemoveExactly(d, now, e', guest, actor, delivers);
    }
  }

  /** Responses are closed to everyone, the owner included. */
  lemma FrozenRespond(d: Db, now: Instant, e': EventId, guest: UserId, status: InviteStatus, reason: Option<string>, delivers: bool, e: EventId)
    requires e in d.events && RsvpClosed(d.events[e], now)
    ensures SameList(d, Respond(d, now, e', guest, status, reason, delivers).db, e)
  {
    if e' == e {
      ClosedToGuests(d, now, e, guest, guest, 0, status, reason, delivers);
    } else if e' in d.events {
      RespondExactly(d, now, e', guest, status, reason, delivers);
    }
  }

  lemma FrozenGuestSide(d: Db, t: Timed, e: EventId)
    requires e in d.events && RsvpClosed(d.events[e], t.now) && !OwnerActs(d, t.call, e) && GuestSide(t.call)
    ensures SameList(d, Apply(d, t), e)
  {
    match t.call
    case SendCall(e', g, s, a, ok) => FrozenSend(d, t.now, e', g, s, a, ok, e);
    case RemoveCall(e', g, a, ok) => FrozenRemove(d, t.now, e', g, a, ok, e);
    case RespondCall(e', a, status, reason, ok) => FrozenRespond(d, t.now, e', a, status, reason, ok, e);
  }

  lemma FrozenCreate(d: Db, now: Instant, ev: Event, e: EventId)
    requires e in d.events && e < d.nextId
    ensures SameList(d, CreateEvent(d, now, ev).db, e)
  {
    CreateExactly(d, now, ev);
  }

  lemma FrozenUpdate(d: Db, now: Instant, e': EventId, p: EventPatch, actor: UserId, order: seq<Attendee>, lost: set<UserId>, e: EventId)
    requires e in d.events && (e' == e ==> actor != d.events[e].owner)
    ensures SameList(d, UpdateEvent(d, now, e', p, actor, order, lost).db, e)
  {
    if e' in d.events {
      PatchedRow(d.events[e'], p);
      UpdateExactly(d, now, e', p, actor, order, lost, MergedRow(d.events[e'], p));
    }
  }

  lemma FrozenEventSide(d: Db, t: Timed, e: EventId)
    requires e in d.events && e < d.nextId && !OwnerActs(d, t.call, e) && EventSide(t.call)
    ensures SameList(d, Apply(d, t), e)
  {
    match t.call
    case CreateEventCall(ev) => FrozenCreate(d, t.now, ev, e);
    case UpdateEventCall(e', p, a, order, lost) => FrozenUpdate(d, t.now, e', p, a, order, lost, e);
    case DeleteEventCall(e', a) =>
      var o := DeleteEvent(d, e', a);
      assert o.db == if o.result.Ok? then DropEvents(d, {e'}) else d;
  }

  lemma FrozenDeleteUser(d: Db, now: Instant, u: UserId, e: EventId)
    requires e in d.events && u != d.events[e].owner && InviteKey(e, u) !in d.invites
    ensures SameList(d, DeleteUser(d, now, u).db, e)
  {
  }

  lemma FrozenCall(d: Db, t: Timed, e: EventId)
    requires Consistent(d) && e in d.events && d.events[e].rsvpDeadline.Some? && d.events[e].rsvpDeadline.value < t.now && !OwnerActs(d, t.call, e)
    ensures SameList(d, Apply(d, t), e)
  {
    if GuestSide(t.call) {
      FrozenGuestSide(d, t, e);
    } else if EventSide(t.call) {
      FrozenEventSide(d, t, e);
    } else if Unrelated(t.call) {
      UnrelatedKeeps(d, t);
    } else {
      FrozenDeleteUser(d, t.now, t.call.actor, e);
    }
  }

  /** Along the run the clock stays past `since` and the owner of `e` leaves it alone. */
  ghost predicate OwnerAway(d: Db, trace: seq<Timed>, e: EventId, since: Instant)
    decreases |trace|
  {
    trace == [] ||
    (&& since <= trace[0].now && e in d.events && !OwnerActs(d, trace[0].call, e)
     && OwnerAway(Apply(d, trace[0]), trace[1..], e, since))
  }

  /** A run after the deadline in which the owner does nothing leaves every invite row as it was. */
  lemma {:induction false} FrozenRun(d: Db, trace: seq<Timed>, e: EventId, since: Instant)
    requires Consistent(d) && LegalRun(d, trace)
    requires e in d.events && d.events[e].rsvpDeadline.Some? && d.events[e].rsvpDeadline.value < since && OwnerAway(d, trace, e, since)
    ensures SameList(d, Run(d, trace), e)
    decreases |trace|
  {
    if trace != [] {
      FrozenCall(d, trace[0], e);
      CallConsistent(d, trace[0]);
      FrozenRun(Apply(d, trace[0]), trace[1..], e, since);
    }
  }
}
