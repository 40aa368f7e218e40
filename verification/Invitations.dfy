/**
 In no reachable state has anyone a pending invitation to the address of their own account: an
 address with an account is refused, a new account has a fresh id, and a deleted account takes
 its invitations along.  So resolving without failures always clears an address.
 */
module Invitations {
  import opened Tables
  import opened InviteRules
  import opened ReminderRules
  import opened FeedRules
  import opened AccountRules
  import opened NetworkRules
  import opened Protocol
  import opened Shapes
  import opened CallEffects
  import opened Consistency
  import Network

  predicate ToOthers(users: map<UserId, User>, row: NetworkInvite) {
    !row.accepted && row.inviter in users ==> users[row.inviter].email != row.email
  }

  ghost predicate NoneToSelf(d: Db) {
    forall n | n in d.networkInvites :: ToOthers(d.users, d.networkInvites[n])
  }

  // ---------------------------------------------------------------- calls about events

  ghost predicate SamePeople(d: Db, d': Db) {
    d'.users == d.users && d'.networkInvites == d.networkInvites
  }

  lemma EventSideSamePeople(d: Db, t: Timed)
    requires EventSide(t.call)
    ensures SamePeople(d, Apply(d, t))
  {
    match t.call
    case CreateEventCall(ev) => CreateExactly(d, t.now, ev);
    case UpdateEventCall(e, p, a, order, lost) =>
      var o := UpdateEvent(d, t.now, e, p, a, order, lost);
      assert o.result.Ok? ==> o.db == d.(events := o.db.events, notifications := o.db.notifications);
    case DeleteEventCall(e, a) =>
      var o := DeleteEvent(d, e, a);
      assert o.db == if o.result.Ok? then DropEvents(d, {e}) else d;
  }

  lemma SendSamePeople(d: Db, now: Instant, e: EventId, guest: UserId, spread: nat, actor: UserId, delivers: bool)
    requires actor in d.users
    ensures SamePeople(d, SendInvite(d, now, e, guest, spread, actor, delivers).db)
  {
    if e in d.events {
      SendExactly(d, now, e, guest, spread, actor, delivers);
    }
  }

  lemma RemoveSamePeople(d: Db, now: Instant, e: EventId, guest: UserId, actor: UserId, delivers: bool)
    ensures SamePeople(d, RemoveInvite(d, now, e, guest, actor, delivers).db)
  {
    if e in d.events {
      RemoveExactly(d, now, e, guest, actor, delivers);
    }
  }

  lemma RespondSamePeople(d: Db, now: Instant, e: EventId, guest: UserId, status: InviteStatus, reason: Option<string>, delivers: bool)
    ensures SamePeople(d, Respond(d, now, e, guest, status, reason, delivers).db)
  {
    if e in d.events {
      RespondExactly(d, now, e, guest, status, reason, delivers);
    }
  }

  lemma GuestSideSamePeople(d: Db, t: Timed)
    requires Legal(d, t) && GuestSide(t.call)
    ensures SamePeople(d, Apply(d, t))
  {
    match t.call
    case SendCall(e, g, s, a, ok) => SendSamePeople(d, t.now, e, g, s, a, ok);
    case RemoveCall(e, g, a, ok) => RemoveSamePeople(d, t.now, e, g, a, ok);
    case RespondCall(e, a, status, reason, ok) => RespondSamePeople(d, t.now, e, a, status, reason, ok);
  }

  lemma NotesSideSamePeople(d: Db, t: Timed)
    requires NotesSide(t.call)
    ensures SamePeople(d, Apply(d, t))
  {
    if t.call.RemindCall? {
      assert Apply(d, t) == DailyReminders(d, t.call.run);
    } else {
      assert Apply(d, t) == Visit(d, t.call.actor, t.call.page).db;
    }
  }

  // ---------------------------------------------------------------- calls about people

  /** Resolving marks some invitations accepted and does nothing else to them. */
  lemma {:induction false} ResolvingAccepts(d: Db, u: UserId, order: seq<NetworkInviteId>, faults: ResolveFaults)
    ensures var d' := ResolveAll(d, u, order, faults).0;
            && d'.users == d.users && d'.networkInvites.Keys == d.networkInvites.Keys
            && forall n | n in d.networkInvites :: d'.networkInvites[n] == d.networkInvites[n].(accepted := d'.networkInvites[n].accepted)
                                                   && (d.networkInvites[n].accepted ==> d'.networkInvites[n].accepted)
  {
    if order != [] {
      var rest, last := order[..|order| - 1], order[|order| - 1];
      ResolvingAccepts(d, u, rest, faults);
      var d1 := ResolveAll(d, u, rest, faults).0;
      if last in d1.networkInvites {
        Network.ResolveOneRows(d1, u, last, faults);
      }
    }
  }

  lemma RegisterRows(d: Db, name: string, email: string, address: Option<string>, pending: seq<NetworkInviteId>, faults: ResolveFaults)
    requires Consistent(d)
    ensures var d' := Register(d, name, email, address, pending, faults).db;
            && (forall v | v in d.users :: v in d'.users && d'.users[v] == d.users[v])
            && d'.networkInvites.Keys == d.networkInvites.Keys
            && (forall n | n in d.networkInvites :: d'.networkInvites[n] == d.networkInvites[n].(accepted := d'.networkInvites[n].accepted)
                                                    && (d.networkInvites[n].accepted ==> d'.networkInvites[n].accepted))
  {
    var created := CreateUser(d, name, email, address);
    if created.result.Ok? {
      assert created.db.users == d.users[d.nextId := User(name, email, address, false)] && created.db.networkInvites == d.networkInvites;
      ResolvingAccepts(created.db, created.result.value, pending, faults);
    }
  }

  lemma RegisterToOthers(d: Db, name: string, email: string, address: Option<string>, pending: seq<NetworkInviteId>, faults: ResolveFaults)
    requires Consistent(d) && NoneToSelf(d)
    ensures NoneToSelf(Register(d, name, email, address, pending, faults).db)
  {
    RegisterRows(d, name, email, address, pending, faults);
    var d' := Register(d, name, email, address, pending, faults).db;
    forall n | n in d'.networkInvites
      ensures ToOthers(d'.users, d'.networkInvites[n])
    {
      assert ToOthers(d.users, d.networkInvites[n]) && d.networkInvites[n].inviter in d.users;
    }
  }

  lemma InviteKeepsUsers(d: Db, now: Instant, inviter: UserId, email: string, sends: bool)
    ensures InviteByEmail(d, now, inviter, email, sends).db.users == d.users
  {
    var d' := InviteByEmail(d, now, inviter, email, sends).db;
    if email == "" || EmailTaken(d.users, email) {
      assert d' == d;
    } else {
      assert d' == CreateOrRefreshInvite(d, now, inviter, email).db;
    }
  }

  lemma InviteToOthers(d: Db, now: Instant, inviter: UserId, email: string, sends: bool)
    requires NoneToSelf(d) && inviter in d.users
    ensures NoneToSelf(InviteByEmail(d, now, inviter, email, sends).db)
  {
    var d' := InviteByEmail(d, now, inviter, email, sends).db;
    InviteKeepsUsers(d, now, inviter, email, sends);
    if email == "" || EmailTaken(d.users, email) {
      assert d' == d;
    } else {
      Network.InviteUpserts(d, now, inviter, email, sends);
      forall n | n in d'.networkInvites
        ensures ToOthers(d'.users, d'.networkInvites[n])
      {
        assert n in d.networkInvites ==> ToOthers(d.users, d.networkInvites[n]);
      }
    }
  }

  lemma DeleteToOthers(d: Db, now: Instant, u: UserId)
    requires NoneToSelf(d)
    ensures NoneToSelf(DeleteUser(d, now, u).db)
  {
    var o := DeleteUser(d, now, u);
    assert o.db == if o.result.Ok? then Erased(d, now, u) else d;
  }

  // ---------------------------------------------------------------- every run

  lemma CallKeepsToOthers(d: Db, t: Timed)
    requires Consistent(d) && NoneToSelf(d) && Legal(d, t)
    ensures NoneToSelf(Apply(d, t))
  {
    if EventSide(t.call) {
      EventSideSamePeople(d, t);
    } else if GuestSide(t.call) {
      GuestSideSamePeople(d, t);
    } else if NotesSide(t.call) {
      NotesSideSamePeople(d, t);
    } else {
      PeopleSideToOthers(d, t);
    }
  }

  lemma PeopleSideToOthers(d: Db, t: Timed)
    requires Consistent(d) && NoneToSelf(d) && Legal(d, t)
    requires t.call.RegisterCall? || t.call.InviteByEmailCall? || t.call.DeleteUserCall?
    ensures NoneToSelf(Apply(d, t))
  {
    match t.call
    case RegisterCall(name, email, address, pending, faults) => RegisterToOthers(d, name, email, address, pending, faults);
    case InviteByEmailCall(a, email, sends) => InviteToOthers(d, t.now, a, email, sends);
    case DeleteUserCall(u) => DeleteToOthers(d, t.now, u);
  }

  lemma {:induction false} RunKeepsToOthers(d: Db, trace: seq<Timed>)
    requires Consistent(d) && NoneToSelf(d) && LegalRun(d, trace)
    ensures Consistent(Run(d, trace)) && NoneToSelf(Run(d, trace))
    decreases |trace|
  {
    if trace != [] {
      CallConsistent(d, trace[0]);
      CallKeepsToOthers(d, trace[0]);
      RunKeepsToOthers(Apply(d, trace[0]), trace[1..]);
    }
  }

  lemma ReachableToOthers(d: Db)
    requires Reachable(d)
    ensures Consistent(d) && NoneToSelf(d)
  {
    var trace :| LegalRun(EMPTY, trace) && Run(EMPTY, trace) == d;
    RunKeepsToOthers(EMPTY, trace);
  }

  /** Running the resolver again without failures, in any reachable state, leaves nothing pending for the user's address. */
  lemma RerunClears(d: Db, u: UserId, order: seq<NetworkInviteId>)
    requires Reachable(d) && u in d.users && Lists(order, PendingFor(d, d.users[u].email))
    ensures var (d', failed) := ResolveAll(d, u, order, ResolveFaults({}, {}));
            && !failed && PendingFor(d', d.users[u].email) == {}
            && (forall n | n in order :: Network.Connected(d', d.networkInvites[n].inviter, u))
  {
    var email, none := d.users[u].email, ResolveFaults({}, {});
    ReachableToOthers(d);
    forall n | n in PendingFor(d, email)
      ensures d.networkInvites[n].inviter != u && Network.Resolves(d, u, n, none)
    {
      assert ToOthers(d.users, d.networkInvites[n]) && d.networkInvites[n].inviter in d.users;
    }
    Network.RerunClearsIff(d, u, email, order);
    Network.ResolveSettles(d, u, email, order, none);
    Network.ResolveAllConnections(d, u, order, none);
  }

  /** A registration in which no call fails connects the new account with everyone who invited its address. */
  lemma RegisteringConnects(d: Db, name: string, email: string, address: Option<string>, pending: seq<NetworkInviteId>)
    requires Reachable(d) && !EmailTaken(d.users, email) && Lists(pending, PendingFor(d, email))
    ensures var o := Register(d, name, email, address, pending, ResolveFaults({}, {}));
            && o.result.Ok? && o.result.value !in d.users && PendingFor(o.db, email) == {}
            && (forall n | n in PendingFor(d, email) :: Network.Connected(o.db, d.networkInvites[n].inviter, o.result.value))
            && (forall n | n in o.db.networkInvites && o.db.networkInvites[n].email == email :: o.db.networkInvites[n].accepted)
            && (forall n | n in d.networkInvites && d.networkInvites[n].email == email && !d.networkInvites[n].accepted ::
                  ConnectionKey(d.networkInvites[n].inviter, o.result.value) in o.db.connections
                  && ConnectionKey(o.result.value, d.networkInvites[n].inviter) in o.db.connections)
  {
    ReachableToOthers(d);
    var created := CreateUser(d, name, email, address);
    FreshAccount(d, name, email, address);
    CreateUserConsistent(d, name, email, address);
    Network.RerunClearsIff(created.db, created.result.value, email, pending);
    Network.ResolveAllConnections(created.db, created.result.value, pending, ResolveFaults({}, {}));
    var o := Register(d, name, email, address, pending, ResolveFaults({}, {}));
    forall n
      ensures n in PendingFor(d, email) <==> n in d.networkInvites && d.networkInvites[n].email == email && !d.networkInvites[n].accepted
      ensures n in PendingFor(o.db, email) <==> n in o.db.networkInvites && o.db.networkInvites[n].email == email && !o.db.networkInvites[n].accepted
    {
    }
  }

  lemma FreshAccount(d: Db, name: string, email: string, address: Option<string>)
    requires Consistent(d) && !EmailTaken(d.users, email)
    ensures var o := CreateUser(d, name, email, address);
            && o.result == Ok(d.nextId) && d.nextId !in d.users && d.nextId in o.db.users
            && o.db.networkInvites == d.networkInvites && PendingFor(o.db, email) == PendingFor(d, email)
            && forall n | n in PendingFor(d, email) :: Network.Resolves(o.db, d.nextId, n, ResolveFaults({}, {}))
  {
    var o := CreateUser(d, name, email, address);
    assert o.db.users == d.users[d.nextId := User(name, email, address, false)] && o.db.networkInvites == d.networkInvites;
    assert forall n | n in PendingFor(d, email) :: d.networkInvites[n].inviter in d.users;
  }

  // ---------------------------------------------------------------- other people's accounts

  lemma CallKeepsAccount(d: Db, t: Timed, v: UserId)
    requires Consistent(d) && Legal(d, t) && v in d.users && t.call != DeleteUserCall(v)
    ensures v in Apply(d, t).users && Apply(d, t).users[v] == d.users[v]
  {
    if EventSide(t.call) {
      EventSideSamePeople(d, t);
    } else if GuestSide(t.call) {
      GuestSideSamePeople(d, t);
    } else if NotesSide(t.call) {
      NotesSideSamePeople(d, t);
    } else {
      PeopleSideKeepsAccount(d, t, v);
    }
  }

  lemma DeleteKeepsOthers(d: Db, now: Instant, u: UserId, v: UserId)
    requires v in d.users && u != v
    ensures v in DeleteUser(d, now, u).db.users && DeleteUser(d, now, u).db.users[v] == d.users[v]
  {
    var o := DeleteUser(d, now, u);
    assert o.db == if o.result.Ok? then Erased(d, now, u) else d;
  }

  lemma PeopleSideKeepsAccount(d: Db, t: Timed, v: UserId)
    requires Consistent(d) && Legal(d, t) && v in d.users && t.call != DeleteUserCall(v)
    requires t.call.RegisterCall? || t.call.InviteByEmailCall? || t.call.DeleteUserCall?
    ensures v in Apply(d, t).users && Apply(d, t).users[v] == d.users[v]
  {
    match t.call
    case RegisterCall(name, email, address, pending, faults) => RegisterRows(d, name, email, address, pending, faults);
    case InviteByEmailCall(a, email, sends) => InviteKeepsUsers(d, t.now, a, email, sends);
    case DeleteUserCall(u) => DeleteKeepsOthers(d, t.now, u, v);
  }

  ghost predicate Keeps(trace: seq<Timed>, v: UserId) {
    forall i | 0 <= i < |trace| :: trace[i].call != DeleteUserCall(v)
  }

  /** For as long as someone else keeps an account under its tombstone address, an account cannot be deleted. */
  lemma {:induction false} HeldTombstoneBlocks(d: Db, trace: seq<Timed>, u: UserId, v: UserId, now: Instant)
    requires Consistent(d) && LegalRun(d, trace) && u != v
    requires v in d.users && d.users[v].email == Tombstone(u) && Keeps(trace, v)
    ensures DeleteUser(Run(d, trace), now, u).result.Err?
    decreases |trace|
  {
    if trace == [] {
      assert v in d.users && v != u && d.users[v].email == Tombstone(u);
    } else {
      CallKeepsAccount(d, trace[0], v);
      CallConsistent(d, trace[0]);
      HeldTombstoneBlocks(Apply(d, trace[0]), trace[1..], u, v, now);
    }
  }
}
