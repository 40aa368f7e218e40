/** Every call keeps the constraints of the tables: references, unique columns, fresh identifiers. */
module Consistency {
  import opened Tables
  import opened InviteRules
  import opened ReminderRules
  import opened FeedRules
  import opened AccountRules
  import opened NetworkRules
  import opened Protocol
  import opened Shapes

  lemma NotifyConsistent(d: Db, note: Notification, delivers: bool)
    requires Consistent(d) && note.user in d.users
    ensures Consistent(Notify(d, note, delivers))
  {
  }

  // ---------------------------------------------------------------- guest list calls

  lemma InsertConsistent(d: Db, e: EventId, guest: UserId, spread: nat, actor: UserId)
    requires Consistent(d)
    ensures Consistent(InsertInvite(d, e, guest, spread, actor).db)
  {
    var d' := InsertInvite(d, e, guest, spread, actor).db;
    assert InvitesValid(d'.invites, d.events.Keys, d.users.Keys, d'.nextInvite);
  }

  lemma ForwardConsistent(d: Db, e: EventId, guest: UserId, spread: nat, actor: UserId)
    requires Consistent(d)
    ensures Consistent(ForwardInvite(d, e, guest, spread, actor).db)
  {
    InsertConsistent(d, e, guest, spread, actor);
    var o := ForwardInvite(d, e, guest, spread, actor);
    assert o.db == d || o == InsertInvite(d, e, guest, spread, actor);
  }

  lemma AddGuestConsistent(d: Db, e: EventId, guest: UserId, spread: nat, actor: UserId)
    requires Consistent(d) && e in d.events
    ensures Consistent(AddGuest(d, e, guest, spread, actor).db)
  {
    if d.events[e].owner == actor {
      InsertConsistent(d, e, guest, spread, actor);
    } else {
      ForwardConsistent(d, e, guest, 0, actor);
    }
  }

  lemma AddGuestExists(d: Db, e: EventId, guest: UserId, spread: nat, actor: UserId)
    requires e in d.events && AddGuest(d, e, guest, spread, actor).result.Ok?
    ensures guest in AddGuest(d, e, guest, spread, actor).db.users
  {
    if d.events[e].owner == actor {
      assert AddGuest(d, e, guest, spread, actor) == InsertInvite(d, e, guest, spread, actor);
    } else {
      assert AddGuest(d, e, guest, spread, actor) == ForwardInvite(d, e, guest, 0, actor);
    }
  }

  lemma SendConsistent(d: Db, now: Instant, e: EventId, guest: UserId, spread: nat, actor: UserId, delivers: bool)
    requires Consistent(d)
    ensures Consistent(SendInvite(d, now, e, guest, spread, actor, delivers).db)
  {
    if e in d.events {
      var o := AddGuest(d, e, guest, spread, actor);
      AddGuestConsistent(d, e, guest, spread, actor);
      if o.result.Ok? {
        AddGuestExists(d, e, guest, spread, actor);
        NotifyConsistent(o.db, Note(guest, EventInvite, e, actor), delivers);
      }
    }
  }

  lemma RemoveConsistent(d: Db, now: Instant, e: EventId, guest: UserId, actor: UserId, delivers: bool)
    requires Consistent(d)
    ensures Consistent(RemoveInvite(d, now, e, guest, actor, delivers).db)
  {
    var d' := RemoveInvite(d, now, e, guest, actor, delivers).db;
    if d' != d {
      var deleted := DeleteInvite(d, e, guest).db;
      assert d' == Notify(deleted, Note(guest, EventUninvite, e, actor), delivers);
      assert InvitesValid(deleted.invites, d.events.Keys, d.users.Keys, d.nextInvite);
      NotifyConsistent(deleted, Note(guest, EventUninvite, e, actor), delivers);
    }
  }

  lemma RespondConsistent(d: Db, now: Instant, e: EventId, guest: UserId, status: InviteStatus, reason: Option<string>, delivers: bool)
    requires Consistent(d)
    ensures Consistent(Respond(d, now, e, guest, status, reason, delivers).db)
  {
    var d' := Respond(d, now, e, guest, status, reason, delivers).db;
    if d' != d {
      var o := SetResponse(d, e, guest, status, if status == Declined then reason else None);
      var note := ResponseNote(o.result.value.invitedBy, e, guest, status);
      assert d' == Notify(o.db, note, delivers);
      assert InvitesValid(o.db.invites, d.events.Keys, d.users.Keys, d.nextInvite);
      NotifyConsistent(o.db, note, delivers);
    }
  }

  // ---------------------------------------------------------------- event calls

  lemma CreateEventConsistent(d: Db, now: Instant, ev: Event)
    requires Consistent(d)
    ensures Consistent(CreateEvent(d, now, ev).db)
  {
    var o := CreateEvent(d, now, ev);
    if o.result.Ok? {
      assert o.db == d.(events := d.events[d.nextId := ev], nextId := d.nextId + 1);
      assert o.db.events.Keys == d.events.Keys + {d.nextId};
      assert EventsValid(o.db.events, d.users.Keys, d.nextId + 1);
      assert InvitesValid(d.invites, o.db.events.Keys, d.users.Keys, d.nextInvite);
    } else {
      assert o.db == d;
    }
  }

  lemma DeleteEventConsistent(d: Db, e: EventId, actor: UserId)
    requires Consistent(d)
    ensures Consistent(DeleteEvent(d, e, actor).db)
  {
  }

  lemma FanOutUsers(order: seq<Attendee>, e: EventId, exclude: UserId, lost: set<UserId>, users: set<UserId>)
    requires forall a | a in order :: a.user in users
    ensures NotificationsValid(FanOut(order, e, exclude, lost), users)
  {
  }

  lemma UpdateEventConsistent(d: Db, now: Instant, e: EventId, p: EventPatch, actor: UserId, order: seq<Attendee>, lost: set<UserId>)
    requires Consistent(d) && Lists(order, AttendeeRows(d, e))
    ensures Consistent(UpdateEvent(d, now, e, p, actor, order, lost).db)
  {
    var o := UpdateEvent(d, now, e, p, actor, order, lost);
    if o.result.Ok? {
      var row := MergedRow(d.events[e], p);
      assert o.db == d.(events := d.events[e := row], notifications := d.notifications + FanOut(order, e, actor, lost));
      assert o.db.events.Keys == d.events.Keys;
      FanOutUsers(order, e, actor, lost, d.users.Keys);
    } else {
      assert o.db == d;
    }
  }

  // ---------------------------------------------------------------- notifications

  lemma RaiseUsers(order: seq<InviteKey>, kind: NotificationKind, lost: set<InviteKey>, users: set<UserId>)
    requires forall k | k in order :: k.guest in users
    ensures NotificationsValid(Raise(order, kind, lost), users)
  {
  }

  lemma RemindConsistent(d: Db, now: Instant, run: ReminderRun)
    requires Consistent(d) && ReminderRunOf(d, now, run)
    ensures Consistent(DailyReminders(d, run))
  {
    RaiseUsers(run.deadlines, RsvpDeadlineReminder, run.lostDeadlines, d.users.Keys);
    RaiseUsers(run.starting, EventStartingToday, run.lostStarting, d.users.Keys);
  }

  // ---------------------------------------------------------------- people

  lemma MutualConsistent(d: Db, a: UserId, b: UserId)
    requires Consistent(d)
    ensures Consistent(CreateMutualConnection(d, a, b).db)
  {
    var cs := WithConnection(WithConnection(d.connections, a, b), b, a);
    if a != b && a in d.users && b in d.users {
      assert ConnectionsValid(cs, d.users.Keys, d.groups.Keys);
    }
  }

  lemma AcceptConsistent(d: Db, n: NetworkInviteId)
    requires Consistent(d)
    ensures Consistent(MarkInviteAccepted(d, n).db)
  {
  }

  lemma ResolveOneConsistent(d: Db, u: UserId, n: NetworkInviteId, faults: ResolveFaults)
    requires Consistent(d)
    ensures Consistent(ResolveOne(d, u, n, faults).0)
  {
    if n in d.networkInvites && n !in faults.connect {
      var o := CreateMutualConnection(d, d.networkInvites[n].inviter, u);
      MutualConsistent(d, d.networkInvites[n].inviter, u);
      AcceptConsistent(o.db, n);
    }
  }

  lemma {:induction false} ResolveConsistent(d: Db, u: UserId, order: seq<NetworkInviteId>, faults: ResolveFaults)
    requires Consistent(d)
    ensures Consistent(ResolveAll(d, u, order, faults).0)
  {
    if order != [] {
      ResolveConsistent(d, u, order[..|order| - 1], faults);
      ResolveOneConsistent(ResolveAll(d, u, order[..|order| - 1], faults).0, u, order[|order| - 1], faults);
    }
  }

  lemma CreateUserConsistent(d: Db, name: string, email: string, address: Option<string>)
    requires Consistent(d)
    ensures Consistent(CreateUser(d, name, email, address).db)
  {
    var d' := CreateUser(d, name, email, address).db;
    if d' != d {
      var users' := d.users[d.nextId := User(name, email, address, false)];
      assert d' == d.(users := users', credentials := d.credentials[d.nextId := email], nextId := d.nextId + 1);
      assert users'.Keys == d.users.Keys + {d.nextId};
      assert AccountsValid(users', d'.credentials, d'.nextId);
    }
  }

  lemma RegisterConsistent(d: Db, name: string, email: string, address: Option<string>, pending: seq<NetworkInviteId>, faults: ResolveFaults)
    requires Consistent(d)
    ensures Consistent(Register(d, name, email, address, pending, faults).db)
  {
    var created := CreateUser(d, name, email, address);
    CreateUserConsistent(d, name, email, address);
    if created.result.Ok? {
      ResolveConsistent(created.db, created.result.value, pending, faults);
    }
  }

  lemma RefreshedConsistent(d: Db, now: Instant, inviter: UserId, email: string)
    requires Consistent(d)
    ensures Consistent(d.(networkInvites := Refreshed(d.networkInvites, now, inviter, email)))
  {
  }

  lemma WithPendingConsistent(d: Db, row: NetworkInvite)
    requires Consistent(d) && row.inviter in d.users
    requires forall n | n in d.networkInvites :: !PendingFrom(d.networkInvites[n], row.inviter, row.email)
    ensures Consistent(WithPending(d, row))
  {
    assert NetworkInvitesValid(WithPending(d, row).networkInvites, d.users.Keys, d.nextId + 1);
  }

  lemma RefreshConsistent(d: Db, now: Instant, inviter: UserId, email: string)
    requires Consistent(d)
    ensures Consistent(CreateOrRefreshInvite(d, now, inviter, email).db)
  {
    if inviter in d.users {
      if exists n :: n in d.networkInvites && PendingFrom(d.networkInvites[n], inviter, email) {
        RefreshedConsistent(d, now, inviter, email);
      } else {
        WithPendingConsistent(d, NetworkInvite(inviter, email, now, false));
      }
    }
  }

  lemma InviteByEmailConsistent(d: Db, now: Instant, inviter: UserId, email: string, sends: bool)
    requires Consistent(d)
    ensures Consistent(InviteByEmail(d, now, inviter, email, sends).db)
  {
    RefreshConsistent(d, now, inviter, email);
    var d' := InviteByEmail(d, now, inviter, email, sends).db;
    if email == "" || EmailTaken(d.users, email) {
      assert d' == d;
    } else {
      assert d' == CreateOrRefreshInvite(d, now, inviter, email).db;
    }
  }

  lemma OthersUsers(notes: seq<Notification>, u: UserId, users: set<UserId>)
    requires NotificationsValid(notes, users)
    ensures NotificationsValid(Others(notes, u), users)
    ensures forall i | 0 <= i < |Others(notes, u)| :: Others(notes, u)[i].user != u
  {
  }

  lemma ErasedAccounts(d: Db, now: Instant, u: UserId)
    requires Consistent(d) && u in d.users
    requires forall v | v in d.users && v != u :: d.users[v].email != Tombstone(u)
    ensures AccountsValid(Erased(d, now, u).users, Erased(d, now, u).credentials, d.nextId)
    ensures Erased(d, now, u).users.Keys == d.users.Keys
  {
  }

  lemma ErasedGuests(d: Db, now: Instant, u: UserId)
    requires Consistent(d) && u in d.users
    ensures EventsValid(Erased(d, now, u).events, d.users.Keys, d.nextId)
    ensures InvitesValid(Erased(d, now, u).invites, Erased(d, now, u).events.Keys, d.users.Keys, d.nextInvite)
  {
  }

  lemma ErasedOwned<K(!new)>(table: map<K, UserId>, u: UserId, users: set<UserId>)
    requires OwnersValid(table, users)
    ensures OwnersValid(table - OwnedBy(table, u), users)
  {
  }

  lemma ErasedNetwork(d: Db, now: Instant, u: UserId)
    requires Consistent(d) && u in d.users
    ensures ConnectionsValid(Erased(d, now, u).connections, d.users.Keys, Erased(d, now, u).groups.Keys)
    ensures NetworkInvitesValid(Erased(d, now, u).networkInvites, d.users.Keys, d.nextId)
  {
  }

  /** Deleting an account leaves no dangling reference, through every cascade and SET NULL. */
  lemma DeleteUserConsistent(d: Db, now: Instant, u: UserId)
    requires Consistent(d)
    ensures Consistent(DeleteUser(d, now, u).db)
  {
    if DeleteUser(d, now, u).result.Ok? {
      ErasedAccounts(d, now, u);
      ErasedGuests(d, now, u);
      ErasedNetwork(d, now, u);
      OthersUsers(d.notifications, u, d.users.Keys);
      ErasedOwned(d.groups, u, d.users.Keys);
      ErasedOwned(d.templates, u, d.users.Keys);
      ErasedOwned(d.subscriptions, u, d.users.Keys);
    }
  }

  // ---------------------------------------------------------------- every call, every run

  lemma EventSideConsistent(d: Db, t: Timed)
    requires Consistent(d) && Legal(d, t) && EventSide(t.call)
    ensures Consistent(Apply(d, t))
  {
    match t.call
    case CreateEventCall(ev) => CreateEventConsistent(d, t.now, ev);
    case UpdateEventCall(e, p, a, order, lost) => UpdateEventConsistent(d, t.now, e, p, a, order, lost);
    case DeleteEventCall(e, a) => DeleteEventConsistent(d, e, a);
  }

  lemma VisitConsistent(d: Db, u: UserId, page: int)
    requires Consistent(d)
    ensures Consistent(Visit(d, u, page).db)
  {
  }

  lemma NotesSideConsistent(d: Db, t: Timed)
    requires Consistent(d) && Legal(d, t) && NotesSide(t.call)
    ensures Consistent(Apply(d, t))
  {
    match t.call
    case RemindCall(run) => RemindConsistent(d, t.now, run);
    case VisitCall(u, page) => VisitConsistent(d, u, page);
  }

  lemma GuestSideConsistent(d: Db, t: Timed)
    requires Consistent(d) && GuestSide(t.call)
    ensures Consistent(Apply(d, t))
  {
    match t.call
    case SendCall(e, g, s, a, ok) => SendConsistent(d, t.now, e, g, s, a, ok);
    case RemoveCall(e, g, a, ok) => RemoveConsistent(d, t.now, e, g, a, ok);
    case RespondCall(e, a, status, reason, ok) => RespondConsistent(d, t.now, e, a, status, reason, ok);
  }

  lemma AccountSideConsistent(d: Db, t: Timed)
    requires Consistent(d) && (t.call.RegisterCall? || t.call.InviteByEmailCall? || t.call.DeleteUserCall?)
    ensures Consistent(Apply(d, t))
  {
    match t.call
    case RegisterCall(name, email, address, pending, faults) => RegisterConsistent(d, name, email, address, pending, faults);
    case InviteByEmailCall(a, email, sends) => InviteByEmailConsistent(d, t.now, a, email, sends);
    case DeleteUserCall(u) => DeleteUserConsistent(d, t.now, u);
  }

  lemma CallConsistent(d: Db, t: Timed)
    requires Consistent(d) && Legal(d, t)
    ensures Consistent(Apply(d, t))
  {
    if EventSide(t.call) {
      EventSideConsistent(d, t);
    } else if NotesSide(t.call) {
      NotesSideConsistent(d, t);
    } else if GuestSide(t.call) {
      GuestSideConsistent(d, t);
    } else {
      AccountSideConsistent(d, t);
    }
  }

  /** Referential integrity and uniqueness in every reachable state. */
  lemma {:induction false} RunConsistent(d: Db, trace: seq<Timed>)
    requires Consistent(d) && LegalRun(d, trace)
    ensures Consistent(Run(d, trace))
    decreases |trace|
  {
    if trace != [] {
      CallConsistent(d, trace[0]);
      RunConsistent(Apply(d, trace[0]), trace[1..]);
    }
  }
}
