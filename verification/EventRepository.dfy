/** The statements of the event repository, run on the database. */
module EventRepository {
  import opened Tables
  import opened InviteRules
  import opened ReminderRules
  import CallEffects

  /** A query result: every row once, in whatever order the database returns them. */
  method Fetch<T(==, !new)>(rows: set<T>) returns (order: seq<T>)
    ensures Lists(order, rows)
  {
    order := [];
    var rest := rows;
    while rest != {}
      invariant rest <= rows && Lists(order, rows - rest)
    {
      var row :| row in rest;
      order := order + [row];
      rest := rest - {row};
    }
  }

  method GetEvent(db: Database, e: EventId) returns (r: Result<Event>)
    ensures r == if e in db.events then Ok(db.events[e]) else Err(EventNotFound)
  {
    if e !in db.events {
      return Err(EventNotFound);
    }
    return Ok(db.events[e]);
  }

  method GetEventInvite(db: Database, e: EventId, guest: UserId) returns (r: Result<Invite>)
    ensures r == if InviteKey(e, guest) in db.invites then Ok(db.invites[InviteKey(e, guest)]) else Err(InviteNotFound)
  {
    if InviteKey(e, guest) !in db.invites {
      return Err(InviteNotFound);
    }
    return Ok(db.invites[InviteKey(e, guest)]);
  }

  method CreateEvent(db: Database, ev: Event) returns (r: Result<EventId>)
    modifies db
    ensures if ev.owner in old(db.users)
            then r == Ok(old(db.nextId))
                 && db.State() == old(db.State()).(events := old(db.events)[old(db.nextId) := ev], nextId := old(db.nextId) + 1)
            else r == Err(EventOwnerNotFound) && db.State() == old(db.State())
  {
    if ev.owner !in db.users {
      return Err(EventOwnerNotFound);
    }
    r := Ok(db.nextId);
    db.events := db.events[db.nextId := ev];
    db.nextId := db.nextId + 1;
  }

  method DeleteEvent(db: Database, e: EventId, owner: UserId) returns (r: Result<()>)
    modifies db
    ensures Outcome(db.State(), r) == InviteRules.DeleteEvent(old(db.State()), e, owner)
  {
    if e !in db.events || db.events[e].owner != owner {
      return Err(EventNotFound);
    }
    db.events := db.events - {e};
    db.invites := map k | k in db.invites && k.event !in {e} :: db.invites[k];
    return Ok(());
  }

  method UpdateEvent(db: Database, e: EventId, patch: EventPatch, owner: UserId) returns (r: Result<Event>)
    modifies db
    ensures if e in old(db.events) && old(db.events)[e].owner == owner
            then r == Ok(MergedRow(old(db.events)[e], patch))
                 && db.State() == old(db.State()).(events := old(db.events)[e := r.value])
            else r == Err(EventNotFound) && db.State() == old(db.State())
    ensures r.Ok? ==> CallEffects.Patched(old(db.events)[e], patch, r.value)
  {
    if e !in db.events || db.events[e].owner != owner {
      return Err(EventNotFound);
    }
    var row := db.events[e];
    if patch.name.Some? { row := row.(name := patch.name.value); }
    if patch.date.Some? { row := row.(date := patch.date.value); }
    if patch.rsvpDeadline.Some? { row := row.(rsvpDeadline := patch.rsvpDeadline); }
    if patch.defaultSpread.Some? { row := row.(defaultSpread := patch.defaultSpread.value); }
    if patch.clearIcon {
      row := row.(icon := None);
    } else if patch.icon.Some? {
      row := row.(icon := patch.icon);
    }
    db.events := db.events[e := row];
    return Ok(row);
  }

  method RespondToEventInvite(db: Database, e: EventId, guest: UserId, status: InviteStatus, reason: Option<string>) returns (r: Result<Invite>)
    modifies db
    ensures Outcome(db.State(), r) == SetResponse(old(db.State()), e, guest, status, reason)
  {
    var k := InviteKey(e, guest);
    if k !in db.invites {
      return Err(InviteNotFound);
    }
    db.invites := db.invites[k := db.invites[k].(status := status, declineReason := reason)];
    return Ok(db.invites[k]);
  }

  method DeleteEventInvite(db: Database, e: EventId, guest: UserId) returns (r: Result<()>)
    modifies db
    ensures Outcome(db.State(), r) == DeleteInvite(old(db.State()), e, guest)
  {
    if InviteKey(e, guest) !in db.invites {
      return Err(InviteNotFound);
    }
    db.invites := db.invites - {InviteKey(e, guest)};
    return Ok(());
  }

  method CreateEventInvite(db: Database, e: EventId, guest: UserId, spread: nat, actor: UserId) returns (r: Result<Invite>)
    modifies db
    ensures Outcome(db.State(), r) == InsertInvite(old(db.State()), e, guest, spread, actor)
  {
    if InviteKey(e, guest) in db.invites {
      return Err(AlreadyInvited);
    }
    if e !in db.events || actor !in db.users {
      return Err(DatabaseError);
    }
    if guest !in db.users {
      return Err(InvitedUserNotFound);
    }
    var row := Invite(actor, Pending, spread, db.nextInvite, None);
    db.invites := db.invites[InviteKey(e, guest) := row];
    db.nextInvite := db.nextInvite + 1;
    return Ok(row);
  }

  /** The forwarding transaction with nothing beside it; `ForwardSteps` takes it apart. */
  method ForwardEventInvite(db: Database, e: EventId, guest: UserId, spread: nat, actor: UserId) returns (r: Result<Invite>)
    modifies db
    ensures Outcome(db.State(), r) == ForwardInvite(old(db.State()), e, guest, spread, actor)
  {
    var sender := GetEventInvite(db, e, actor);
    if sender.Err? {
      return Err(InviteNotAllowed);
    }
    var sent := |set k | k in db.invites && k.event == e && db.invites[k].invitedBy == actor|;
    assert sent == |SentRows(db.invites, e, actor)|;
    if sender.value.status != Accepted || sent >= sender.value.spread {
      return Err(InviteNotAllowed);
    }
    r := CreateEventInvite(db, e, guest, spread, actor);
  }

  method ListEventAttendees(db: Database, e: EventId) returns (order: seq<Attendee>)
    ensures Lists(order, AttendeeRows(db.State(), e))
  {
    var rows := set k | k in db.invites && k.event == e :: Attendee(k.guest, false);
    if e in db.events {
      rows := {Attendee(db.events[e].owner, true)} + rows;
    }
    assert rows == AttendeeRows(db.State(), e);
    order := Fetch(rows);
  }

  method ListPendingInvitesWithRsvpDeadlineOn(db: Database, day: int) returns (order: seq<InviteKey>)
    ensures Lists(order, DeadlineRows(db.State(), day))
  {
    order := Fetch(DeadlineRows(db.State(), day));
  }

  method ListAcceptedInvitesWithEventOn(db: Database, day: int) returns (order: seq<InviteKey>)
    ensures Lists(order, StartingRows(db.State(), day))
  {
    order := Fetch(StartingRows(db.State(), day));
  }
}
