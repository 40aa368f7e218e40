/** Deadlines never pass the event date, and an update tells every invitee exactly once. */
module EventUpdates {
  import opened Tables
  import opened InviteRules
  import opened AccountRules
  import opened Protocol
  import opened Shapes
  import opened CallEffects

  ghost predicate DeadlinesInOrder(events: map<EventId, Event>) {
    forall e | e in events :: InOrder(events[e])
  }

  /** What the service checked is what the statement writes, when both see the same row. */
  lemma CheckedUpdateInOrder(row: Event, p: EventPatch, now: Instant)
    requires UpdateRefused(row, p, now).None?
    ensures InOrder(MergedRow(row, p)) && MergedRow(row, p).date > now && MergedRow(row, p).owner == row.owner
  {
  }

  lemma CreateInOrder(d: Db, now: Instant, ev: Event)
    requires DeadlinesInOrder(d.events)
    ensures DeadlinesInOrder(CreateEvent(d, now, ev).db.events)
  {
    CreateExactly(d, now, ev);
  }

  lemma UpdateInOrder(d: Db, now: Instant, e: EventId, p: EventPatch, actor: UserId, order: seq<Attendee>, lost: set<UserId>)
    requires DeadlinesInOrder(d.events)
    ensures DeadlinesInOrder(UpdateEvent(d, now, e, p, actor, order, lost).db.events)
  {
    if e in d.events {
      PatchedRow(d.events[e], p);
      UpdateExactly(d, now, e, p, actor, order, lost, MergedRow(d.events[e], p));
    }
  }

  lemma EventSideInOrder(d: Db, t: Timed)
    requires DeadlinesInOrder(d.events) && EventSide(t.call)
    ensures DeadlinesInOrder(Apply(d, t).events)
  {
    match t.call
    case CreateEventCall(ev) => CreateInOrder(d, t.now, ev);
    case UpdateEventCall(e, p, a, order, lost) => UpdateInOrder(d, t.now, e, p, a, order, lost);
    case DeleteEventCall(e, a) =>
      var o := DeleteEvent(d, e, a);
      assert o.db == if o.result.Ok? then DropEvents(d, {e}) else d;
  }

  lemma GuestSideSameEvents(d: Db, t: Timed)
    requires GuestSide(t.call)
    ensures Apply(d, t).events == d.events
  {
    match t.call
    case SendCall(e, g, s, a, ok) => SendShape(d, t.now, e, g, s, a, ok);
    case RemoveCall(e, g, a, ok) => RemoveShape(d, t.now, e, g, a, ok);
    case RespondCall(e, a, status, reason, ok) => RespondShape(d, t.now, e, a, status, reason, ok);
  }

  lemma CallInOrder(d: Db, t: Timed)
    requires DeadlinesInOrder(d.events)
    ensures DeadlinesInOrder(Apply(d, t).events)
  {
    if EventSide(t.call) {
      EventSideInOrder(d, t);
    } else if GuestSide(t.call) {
      GuestSideSameEvents(d, t);
    } else if Unrelated(t.call) {
      UnrelatedKeeps(d, t);
    } else {
      var o := DeleteUser(d, t.now, t.call.actor);
      assert o.db == if o.result.Ok? then Erased(d, t.now, t.call.actor) else d;
    }
  }

  /** In every reachable state each deadline is on or before its event. */
  lemma {:induction false} RunInOrder(d: Db, trace: seq<Timed>)
    requires DeadlinesInOrder(d.events)
    ensures DeadlinesInOrder(Run(d, trace).events)
    decreases |trace|
  {
    if trace != [] {
      CallInOrder(d, trace[0]);
      RunInOrder(Apply(d, trace[0]), trace[1..]);
    }
  }

  // ---------------------------------------------------------------- without the atomicity

  /**
   The service reads the row, checks, and updates later without a lock.  A check made on an
   earlier row protects every row the statement may find exactly when the payload carries both
   the date and the deadline, or neither.
   */
  lemma StaleCheckSafeIff(read: Event, p: EventPatch, now: Instant)
    requires UpdateRefused(read, p, now).None?
    ensures (forall row | InOrder(row) :: InOrder(MergedRow(row, p))) <==> p.date.Some? == p.rsvpDeadline.Some?
  {
    if p.date.Some? && p.rsvpDeadline.None? {
      var row := read.(date := p.date.value + 1, rsvpDeadline := Some(p.date.value + 1));
      assert InOrder(row) && !InOrder(MergedRow(row, p));
    } else if p.date.None? && p.rsvpDeadline.Some? {
      var row := read.(date := p.rsvpDeadline.value - 1, rsvpDeadline := None);
      assert InOrder(row) && !InOrder(MergedRow(row, p));
    }
  }

  /** Two updates that both read before either writes: the deadline ends up after the event. */
  lemma InterleavedUpdatesBreakOrder()
    ensures var row := Event(0, "party", 10, Some(5), 0, None);
            var earlier := EventPatch(None, Some(6), None, None, None, false);
            var later := EventPatch(None, None, Some(9), None, None, false);
            && InOrder(row) && UpdateRefused(row, earlier, 0).None? && UpdateRefused(row, later, 0).None?
            && !InOrder(MergedRow(MergedRow(row, earlier), later))
  {
  }

  // ---------------------------------------------------------------- fan-out

  function UpdatedNote(e: EventId, u: UserId): Notification {
    Notification(u, EventUpdated, e, None, None, false)
  }

  lemma {:induction false} FanOutOnce(order: seq<Attendee>, e: EventId, exclude: UserId, lost: set<UserId>, u: UserId)
    requires forall i, j | 0 <= i < j < |order| :: order[i] != order[j]
    requires forall a | a in order && a.isOwner :: a.user == exclude
    ensures multiset(FanOut(order, e, exclude, lost))[UpdatedNote(e, u)]
         == if u != exclude && u !in lost && Attendee(u, false) in order then 1 else 0
    ensures forall n | n in FanOut(order, e, exclude, lost) :: n == UpdatedNote(e, n.user)
  {
    if order != [] {
      var rest, last := order[..|order| - 1], order[|order| - 1];
      assert order == rest + [last];
      FanOutOnce(rest, e, exclude, lost, u);
      assert last !in rest;
    }
  }

  /** An accepted update raises one `event_updated` per invitee and none for the owner, even if the owner holds an invite. */
  lemma UpdateNotifiesEachInviteeOnce(d: Db, now: Instant, e: EventId, p: EventPatch, actor: UserId, order: seq<Attendee>, lost: set<UserId>)
    requires Lists(order, AttendeeRows(d, e)) && UpdateEvent(d, now, e, p, actor, order, lost).result.Ok?
    ensures var notes := FanOut(order, e, actor, lost);
            && UpdateEvent(d, now, e, p, actor, order, lost).db.notifications == d.notifications + notes
            && (forall u :: multiset(notes)[UpdatedNote(e, u)]
                            == if InviteKey(e, u) in d.invites && u != d.events[e].owner && u !in lost then 1 else 0)
            && (forall n | n in notes :: n == UpdatedNote(e, n.user))
  {
    forall u
      ensures multiset(FanOut(order, e, actor, lost))[UpdatedNote(e, u)]
           == if InviteKey(e, u) in d.invites && u != d.events[e].owner && u !in lost then 1 else 0
    {
      FanOutOnce(order, e, actor, lost, u);
      assert Attendee(u, false) in order <==> InviteKey(e, u) in d.invites;
    }
    FanOutOnce(order, e, actor, lost, 0);
  }
}
