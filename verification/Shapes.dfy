/**
 How one call can change guest lists: it either only trims them, or adds exactly one row, sent
 by the owner or by an accepted guest with budget left (`CallShape`).
 */
module Shapes {
  import opened Tables
  import opened InviteRules
  import opened ReminderRules
  import opened FeedRules
  import opened AccountRules
  import opened NetworkRules
  import opened Protocol

  /** What a response cannot change about a row. */
  predicate SameGrant(a: Invite, b: Invite) {
    a.invitedBy == b.invitedBy && a.spread == b.spread && a.created == b.created
  }

  predicate GuestSide(c: Call) {
    c.SendCall? || c.RemoveCall? || c.RespondCall?
  }

  /** No event changes hands, and no event identifier comes back. */
  ghost predicate OwnersKept(d: Db, d': Db) {
    && d.nextId <= d'.nextId
    && forall e | e in d'.events ::
         if e in d.events then d'.events[e].owner == d.events[e].owner else d.nextId <= e
  }

  /** Rows may go and responses may change; no account is ever removed. */
  ghost predicate RowsTrimmed(d: Db, d': Db) {
    && OwnersKept(d, d') && d'.nextInvite == d.nextInvite && d.users.Keys <= d'.users.Keys
    && forall k | k in d'.invites :: k in d.invites && SameGrant(d.invites[k], d'.invites[k])
  }

  /** Events and guest lists are exactly what they were. */
  ghost predicate SameGuestLists(d: Db, d': Db) {
    d'.events == d.events && d'.invites == d.invites
  }

  /** Exactly the row `k` was added. */
  ghost predicate RowGranted(d: Db, d': Db, k: InviteKey, spread: nat, actor: UserId) {
    && k !in d.invites && k.event in d.events && k.guest != actor
    && d'.users == d.users && d'.events == d.events && d'.nextId == d.nextId && d'.nextInvite == d.nextInvite + 1
    && d'.invites == d.invites[k := Invite(actor, Pending, spread, d.nextInvite, None)]
    && (d.events[k.event].owner == actor || (spread == 0 && HasBudget(d, k.event, actor)))
  }

  /** The budget test of the forwarding transaction. */
  ghost predicate HasBudget(d: Db, e: EventId, sender: UserId) {
    && InviteKey(e, sender) in d.invites
    && d.invites[InviteKey(e, sender)].status == Accepted
    && |SentRows(d.invites, e, sender)| < d.invites[InviteKey(e, sender)].spread
  }

  lemma {:induction false} ResolveKeepsGuests(d: Db, u: UserId, order: seq<NetworkInviteId>, faults: ResolveFaults)
    ensures var d' := ResolveAll(d, u, order, faults).0;
            d' == d.(connections := d'.connections, networkInvites := d'.networkInvites)
  {
    if order != [] {
      ResolveKeepsGuests(d, u, order[..|order| - 1], faults);
      var d1 := ResolveAll(d, u, order[..|order| - 1], faults).0;
      var d' := ResolveOne(d1, u, order[|order| - 1], faults).0;
      assert d' == d1.(connections := d'.connections, networkInvites := d'.networkInvites);
    }
  }

  lemma AddGuestShape(d: Db, e: EventId, guest: UserId, spread: nat, actor: UserId)
    requires e in d.events && guest != actor
    ensures var o := AddGuest(d, e, guest, spread, actor);
            if o.result.Ok?
            then RowGranted(d, o.db, InviteKey(e, guest), if d.events[e].owner == actor then spread else 0, actor)
            else o.db == d
  {
    if d.events[e].owner == actor {
      assert AddGuest(d, e, guest, spread, actor) == InsertInvite(d, e, guest, spread, actor);
    } else {
      assert AddGuest(d, e, guest, spread, actor) == ForwardInvite(d, e, guest, 0, actor);
    }
  }

  lemma SendShape(d: Db, now: Instant, e: EventId, guest: UserId, spread: nat, actor: UserId, delivers: bool)
    ensures var o := SendInvite(d, now, e, guest, spread, actor, delivers);
            if o.result.Ok?
            then RowGranted(d, o.db, InviteKey(e, guest), if d.events[e].owner == actor then spread else 0, actor)
            else o.db == d
  {
    if e in d.events && guest != actor {
      AddGuestShape(d, e, guest, spread, actor);
    }
  }

  lemma RemoveShape(d: Db, now: Instant, e: EventId, guest: UserId, actor: UserId, delivers: bool)
    ensures RowsTrimmed(d, RemoveInvite(d, now, e, guest, actor, delivers).db)
    ensures RemoveInvite(d, now, e, guest, actor, delivers).db.events == d.events
  {
    var d' := RemoveInvite(d, now, e, guest, actor, delivers).db;
    if d' != d {
      var deleted := DeleteInvite(d, e, guest).db;
      assert d' == Notify(deleted, Note(guest, EventUninvite, e, actor), delivers);
      assert RowsTrimmed(d, deleted);
    }
  }

  lemma RespondShape(d: Db, now: Instant, e: EventId, guest: UserId, status: InviteStatus, reason: Option<string>, delivers: bool)
    ensures RowsTrimmed(d, Respond(d, now, e, guest, status, reason, delivers).db)
    ensures Respond(d, now, e, guest, status, reason, delivers).db.events == d.events
  {
    var d' := Respond(d, now, e, guest, status, reason, delivers).db;
    if d' != d {
      var o := SetResponse(d, e, guest, status, if status == Declined then reason else None);
      assert d' == Notify(o.db, ResponseNote(o.result.value.invitedBy, e, guest, status), delivers);
      assert RowsTrimmed(d, o.db);
    }
  }

  lemma DeleteUserShape(d: Db, now: Instant, u: UserId)
    ensures RowsTrimmed(d, DeleteUser(d, now, u).db)
  {
    if DeleteUser(d, now, u).result.Ok? {
      assert DeleteUser(d, now, u).db == Erased(d, now, u);
    } else {
      assert DeleteUser(d, now, u).db == d;
    }
  }

  lemma RegisterShape(d: Db, name: string, email: string, address: Option<string>, pending: seq<NetworkInviteId>, faults: ResolveFaults)
    ensures RowsTrimmed(d, Register(d, name, email, address, pending, faults).db)
    ensures SameGuestLists(d, Register(d, name, email, address, pending, faults).db)
  {
    var created := CreateUser(d, name, email, address);
    if created.result.Ok? {
      ResolveKeepsGuests(created.db, created.result.value, pending, faults);
      assert RowsTrimmed(d, created.db);
    } else {
      assert Register(d, name, email, address, pending, faults).db == d;
    }
  }

  lemma CreateEventShape(d: Db, now: Instant, ev: Event)
    requires d.nextId !in d.events
    ensures RowsTrimmed(d, CreateEvent(d, now, ev).db)
  {
    var o := CreateEvent(d, now, ev);
    if o.result.Ok? {
      assert o.db.events == d.events[d.nextId := ev];
    } else {
      assert o.db == d;
    }
  }

  lemma UpdateEventShape(d: Db, now: Instant, e: EventId, p: EventPatch, actor: UserId, order: seq<Attendee>, lost: set<UserId>)
    ensures RowsTrimmed(d, UpdateEvent(d, now, e, p, actor, order, lost).db)
  {
    var o := UpdateEvent(d, now, e, p, actor, order, lost);
    if o.result.Ok? {
      assert o.db.events == d.events[e := MergedRow(d.events[e], p)];
    } else {
      assert o.db == d;
    }
  }

  lemma DeleteEventShape(d: Db, e: EventId, actor: UserId)
    ensures RowsTrimmed(d, DeleteEvent(d, e, actor).db)
  {
    var o := DeleteEvent(d, e, actor);
    if o.result.Ok? {
      assert o.db == DropEvents(d, {e});
    } else {
      assert o.db == d;
    }
  }

  lemma RefreshShape(d: Db, now: Instant, inviter: UserId, email: string)
    ensures RowsTrimmed(d, CreateOrRefreshInvite(d, now, inviter, email).db)
    ensures SameGuestLists(d, CreateOrRefreshInvite(d, now, inviter, email).db)
  {
    if inviter in d.users {
      if exists n :: n in d.networkInvites && PendingFrom(d.networkInvites[n], inviter, email) {
        assert RowsTrimmed(d, d.(networkInvites := Refreshed(d.networkInvites, now, inviter, email)));
      } else {
        assert RowsTrimmed(d, WithPending(d, NetworkInvite(inviter, email, now, false)));
      }
    }
  }

  lemma InviteByEmailShape(d: Db, now: Instant, inviter: UserId, email: string, sends: bool)
    ensures RowsTrimmed(d, InviteByEmail(d, now, inviter, email, sends).db)
    ensures SameGuestLists(d, InviteByEmail(d, now, inviter, email, sends).db)
  {
    var d' := InviteByEmail(d, now, inviter, email, sends).db;
    if email == "" || EmailTaken(d.users, email) {
      assert d' == d;
    } else {
      RefreshShape(d, now, inviter, email);
      assert d' == CreateOrRefreshInvite(d, now, inviter, email).db;
    }
  }

  lemma RemindShape(d: Db, run: ReminderRun)
    ensures RowsTrimmed(d, DailyReminders(d, run)) && SameGuestLists(d, DailyReminders(d, run))
  {
  }

  lemma VisitShape(d: Db, u: UserId, page: int)
    ensures RowsTrimmed(d, Visit(d, u, page).db) && SameGuestLists(d, Visit(d, u, page).db)
  {
  }

  predicate EventSide(c: Call) {
    c.CreateEventCall? || c.UpdateEventCall? || c.DeleteEventCall?
  }

  lemma EventSideTrims(d: Db, t: Timed)
    requires d.nextId !in d.events && EventSide(t.call)
    ensures RowsTrimmed(d, Apply(d, t))
  {
    match t.call
    case CreateEventCall(ev) => CreateEventShape(d, t.now, ev);
    case UpdateEventCall(e, p, a, order, lost) => UpdateEventShape(d, t.now, e, p, a, order, lost);
    case DeleteEventCall(e, a) => DeleteEventShape(d, e, a);
  }

  predicate NotesSide(c: Call) {
    c.RemindCall? || c.VisitCall?
  }

  lemma NotesSideTrims(d: Db, t: Timed)
    requires NotesSide(t.call)
    ensures RowsTrimmed(d, Apply(d, t)) && SameGuestLists(d, Apply(d, t))
  {
    if t.call.RemindCall? {
      RemindShape(d, t.call.run);
      assert Apply(d, t) == DailyReminders(d, t.call.run);
    } else {
      VisitShape(d, t.call.actor, t.call.page);
      assert Apply(d, t) == Visit(d, t.call.actor, t.call.page).db;
    }
  }

  /** Calls that never touch an event or a guest list. */
  predicate Unrelated(c: Call) {
    NotesSide(c) || c.RegisterCall? || c.InviteByEmailCall?
  }

  lemma UnrelatedKeeps(d: Db, t: Timed)
    requires Unrelated(t.call)
    ensures SameGuestLists(d, Apply(d, t))
  {
    if NotesSide(t.call) {
      NotesSideTrims(d, t);
    } else {
      PeopleSideKeeps(d, t);
    }
  }

  lemma PeopleSideKeeps(d: Db, t: Timed)
    requires t.call.RegisterCall? || t.call.InviteByEmailCall?
    ensures SameGuestLists(d, Apply(d, t))
  {
    match t.call
    case RegisterCall(name, email, address, pending, faults) => RegisterShape(d, name, email, address, pending, faults);
    case InviteByEmailCall(a, email, sends) => InviteByEmailShape(d, t.now, a, email, sends);
  }

  lemma PeopleSideTrims(d: Db, t: Timed)
    requires !EventSide(t.call) && !NotesSide(t.call) && !t.call.SendCall?
    ensures RowsTrimmed(d, Apply(d, t))
  {
    match t.call
    case RemoveCall(e, g, a, ok) => RemoveShape(d, t.now, e, g, a, ok);
    case RespondCall(e, a, status, reason, ok) => RespondShape(d, t.now, e, a, status, reason, ok);
    case RegisterCall(name, email, address, pending, faults) => RegisterShape(d, name, email, address, pending, faults);
    case DeleteUserCall(u) => DeleteUserShape(d, t.now, u);
    case InviteByEmailCall(a, email, sends) => InviteByEmailShape(d, t.now, a, email, sends);
  }

  /** Every call but a sent invite can only shorten guest lists. */
  lemma OthersTrim(d: Db, t: Timed)
    requires d.nextId !in d.events && !t.call.SendCall?
    ensures RowsTrimmed(d, Apply(d, t))
  {
    if EventSide(t.call) {
      EventSideTrims(d, t);
    } else if NotesSide(t.call) {
      NotesSideTrims(d, t);
    } else {
      PeopleSideTrims(d, t);
    }
  }

  /** The only ways a call can change a guest list. */
  lemma CallShape(d: Db, t: Timed)
    requires d.nextId !in d.events
    ensures RowsTrimmed(d, Apply(d, t)) || (exists k, spread, actor :: RowGranted(d, Apply(d, t), k, spread, actor))
  {
    if t.call.SendCall? {
      var c := t.call;
      SendShape(d, t.now, c.e, c.guest, c.spread, c.actor, c.delivers);
    } else {
      OthersTrim(d, t);
    }
  }
}
