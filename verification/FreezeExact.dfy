/**
 Exactly when the guest list is frozen: after the deadline, with the owner away, no schedule changes
 it if and only if no forward opened in time can still land.
 */
module FreezeExact {
  import opened Tables
  import opened InviteRules
  import opened AccountRules
  import opened NetworkRules
  import opened Protocol
  import opened Shapes
  import opened GuestLists
  import opened ForwardSteps
  import opened RsvpFreeze
  import opened FreezeSteps
  import Invitations

  /** An account, or an identifier the supply has not handed out yet. */
  predicate MayExist(d: Db, u: UserId) {
    u in d.users || u >= d.nextId
  }

  /** The forward can still add its row: budget left, guest not invited, and the guest may be there. */
  ghost predicate CanLand(d: Db, s: Session) {
    Open(s) && HasBudget(d, s.e, s.sender) && NewKey(s) !in d.invites && MayExist(d, s.guest)
  }

  ghost predicate SomeCanLand(w: World, e: EventId) {
    exists id :: id in w.sessions && w.sessions[id].e == e && CanLand(w.db, w.sessions[id])
  }

  /** However the schedule goes on with the owner away, the list stays what it is. */
  ghost predicate StaysFrozen(w: World, e: EventId, since: Instant) {
    forall after | ScheduleAway(w, after, e, since) :: SameList(w.db, Schedule(w, after).db, e)
  }

  // ---------------------------------------------------------------- frozen when none can land

  /** New accounts come from the supply, which never goes back. */
  ghost predicate FreshOnly(d: Db, d': Db) {
    d.nextId <= d'.nextId && forall u | u in d'.users :: MayExist(d, u)
  }

  lemma RegisterFresh(d: Db, name: string, email: string, address: Option<string>, pending: seq<NetworkInviteId>, faults: ResolveFaults)
    ensures FreshOnly(d, Register(d, name, email, address, pending, faults).db)
  {
    var created := CreateUser(d, name, email, address);
    if created.result.Ok? {
      assert created.db.users == d.users[d.nextId := User(name, email, address, false)];
      ResolveKeepsGuests(created.db, created.result.value, pending, faults);
    }
  }

  lemma DeleteUserFresh(d: Db, now: Instant, u: UserId)
    ensures FreshOnly(d, DeleteUser(d, now, u).db)
  {
    var o := DeleteUser(d, now, u);
    assert o.db == if o.result.Ok? then Erased(d, now, u) else d;
  }

  lemma InviteByEmailFresh(d: Db, now: Instant, inviter: UserId, email: string, sends: bool)
    ensures FreshOnly(d, InviteByEmail(d, now, inviter, email, sends).db)
  {
    Invitations.InviteKeepsUsers(d, now, inviter, email, sends);
    InviteByEmailShape(d, now, inviter, email, sends);
  }

  lemma PeopleSideFresh(d: Db, t: Timed)
    requires t.call.RegisterCall? || t.call.InviteByEmailCall? || t.call.DeleteUserCall?
    ensures FreshOnly(d, Apply(d, t))
  {
    match t.call
    case RegisterCall(name, email, address, pending, faults) => RegisterFresh(d, name, email, address, pending, faults);
    case InviteByEmailCall(a, email, sends) => InviteByEmailFresh(d, t.now, a, email, sends);
    case DeleteUserCall(u) => DeleteUserFresh(d, t.now, u);
  }

  lemma CallFresh(d: Db, t: Timed)
    requires GuestListsSound(d) && Legal(d, t)
    ensures FreshOnly(d, Apply(d, t))
  {
    if EventSide(t.call) {
      EventSideTrims(d, t);
      Invitations.EventSideSamePeople(d, t);
    } else if GuestSide(t.call) {
      CallShape(d, t);
      Invitations.GuestSideSamePeople(d, t);
    } else if NotesSide(t.call) {
      NotesSideTrims(d, t);
      Invitations.NotesSideSamePeople(d, t);
    } else {
      PeopleSideFresh(d, t);
    }
  }

  /** Nothing has reached the list, and who is still forwarding at the event was doing so at `w0`. */
  ghost predicate StillFrozen(w0: World, w: World, e: EventId) {
    && SameList(w0.db, w.db, e) && FreshOnly(w0.db, w.db)
    && forall id | id in w.sessions && w.sessions[id].e == e && Open(w.sessions[id]) ::
         id in w0.sessions && Open(w0.sessions[id]) && w.sessions[id] == w0.sessions[id].(phase := w.sessions[id].phase)
  }

  /** Landing depends on the event's rows and on who may exist. */
  lemma LandedThen(w0: World, w: World, id: nat, e: EventId)
    requires StillFrozen(w0, w, e) && id in w.sessions && w.sessions[id].e == e && Open(w.sessions[id])
    requires HasBudget(w.db, e, w.sessions[id].sender) && NewKey(w.sessions[id]) !in w.db.invites && w.sessions[id].guest in w.db.users
    ensures SomeCanLand(w0, e)
  {
    var s, s0 := w.sessions[id], w0.sessions[id];
    assert SentRows(w0.db.invites, e, s.sender) == SentRows(w.db.invites, e, s.sender);
    assert InviteKey(e, s.sender) in w0.db.invites && NewKey(s0) !in w0.db.invites;
    assert CanLand(w0.db, s0);
  }

  lemma CommitFrozen(d0: Db, w0: World, w: World, id: nat, e: EventId)
    requires WorldSound(d0, w) && StillFrozen(w0, w, e) && !SomeCanLand(w0, e)
    requires id in w.sessions && w.sessions[id].phase.Inserted?
    ensures StillFrozen(w0, DoCommit(w, id), e)
  {
    var s := w.sessions[id];
    CommitGrants(w, id);
    CommitWrites(d0, w, id);
    assert SessionSound(w.db, s);
    if s.e == e {
      LandedThen(w0, w, id, e);
    }
    SameAfterOther(w0.db, w.db, DoCommit(w, id).db, NewKey(s), e);
  }

  lemma SameAfterOther(d0: Db, d: Db, d': Db, k: InviteKey, e: EventId)
    requires SameList(d0, d, e) && k.event != e && d'.events == d.events && k in d'.invites && d'.invites == d.invites[k := d'.invites[k]]
    ensures SameList(d0, d', e)
  {
  }

  lemma BeginFrozen(w0: World, w: World, id: nat, now: Instant, e': EventId, sender: UserId, guest: UserId, e: EventId, since: Instant)
    requires StillFrozen(w0, w, e) && RsvpClosed(w0.db.events[e], since) && since <= now
    ensures StillFrozen(w0, DoBegin(w, id, now, e', sender, guest), e)
  {
    var w' := DoBegin(w, id, now, e', sender, guest);
    if w' != w {
      assert w' == WithSession(w, id, Session(e', sender, guest, Begun)) && e' != e;
    }
  }

  lemma OwnStepFrozen(w0: World, w: World, a: Action, e: EventId)
    requires StillFrozen(w0, w, e) && (a.Lock? || a.Count? || a.Insert? || a.Abort?)
    ensures StillFrozen(w0, Next(w, a), e)
  {
    OwnStepGoesOn(w, a);
  }

  lemma SameListTrans(a: Db, b: Db, c: Db, e: EventId)
    requires SameList(a, b, e) && SameList(b, c, e)
    ensures SameList(a, c, e)
  {
  }

  lemma ElsewhereFrozen(d0: Db, w0: World, w: World, t: Timed, e: EventId, since: Instant)
    requires WorldSound(d0, w) && StillFrozen(w0, w, e) && RsvpClosed(w0.db.events[e], since)
    requires StepAway(w, Elsewhere(t), e, since)
    ensures StillFrozen(w0, DoElsewhere(w, t), e)
  {
    var w' := DoElsewhere(w, t);
    if w' != w {
      FrozenCall(w.db, t, e);
      CallFresh(w.db, t);
      SameListTrans(w0.db, w.db, w'.db, e);
    }
  }

  lemma StepFrozen(d0: Db, w0: World, w: World, a: Action, e: EventId, since: Instant)
    requires WorldSound(d0, w) && StillFrozen(w0, w, e) && !SomeCanLand(w0, e)
    requires RsvpClosed(w0.db.events[e], since) && StepAway(w, a, e, since)
    ensures StillFrozen(w0, Next(w, a), e)
  {
    match a
    case Begin(id, now, e', sender, guest) => BeginFrozen(w0, w, id, now, e', sender, guest, e, since);
    case Commit(id) =>
      if id in w.sessions && w.sessions[id].phase.Inserted? {
        CommitFrozen(d0, w0, w, id, e);
      }
    case Elsewhere(t) => ElsewhereFrozen(d0, w0, w, t, e, since);
    case _ => OwnStepFrozen(w0, w, a, e);
  }

  lemma {:induction false} NoneLands(d0: Db, w0: World, after: seq<Action>, e: EventId, since: Instant)
    requires WorldSound(d0, w0) && e in w0.db.events && w0.db.events[e].rsvpDeadline.Some? && w0.db.events[e].rsvpDeadline.value < since
    requires !SomeCanLand(w0, e) && ScheduleAway(w0, after, e, since)
    ensures WorldSound(d0, Schedule(w0, after)) && StillFrozen(w0, Schedule(w0, after), e)
  {
    if after != [] {
      var n := |after| - 1;
      NoneLands(d0, w0, after[..n], e, since);
      StepFrozen(d0, w0, Schedule(w0, after[..n]), after[n], e, since);
      StepSound(d0, Schedule(w0, after[..n]), after[n]);
    }
  }

  // ---------------------------------------------------------------- a schedule that lands

  /** `after` is a schedule with the owner away, and the row is there in the end. */
  ghost predicate Lands(w: World, after: seq<Action>, e: EventId, since: Instant, k: InviteKey) {
    ScheduleAway(w, after, e, since) && k in Schedule(w, after).db.invites
  }

  lemma {:induction false} StepFirst(w: World, a: Action, rest: seq<Action>, e: EventId, since: Instant)
    requires StepAway(w, a, e, since) && ScheduleAway(Next(w, a), rest, e, since)
    ensures Schedule(w, [a] + rest) == Schedule(Next(w, a), rest) && ScheduleAway(w, [a] + rest, e, since)
  {
    var all := [a] + rest;
    if rest == [] {
      assert all[..0] == [] && all == [a];
      assert ScheduleAway(w, all[..0], e, since);
    } else {
      var n := |rest| - 1;
      assert all[..n + 1] == [a] + rest[..n] && all[n + 1] == rest[n];
      StepFirst(w, a, rest[..n], e, since);
    }
  }

  lemma FromInserted(w: World, id: nat, e: EventId, since: Instant) returns (after: seq<Action>)
    requires id in w.sessions && w.sessions[id].phase.Inserted?
    ensures Lands(w, after, e, since, NewKey(w.sessions[id]))
  {
    StepFirst(w, Commit(id), [], e, since);
    after := [Commit(id)] + [];
  }

  /** No other transaction has the row in without having committed. */
  ghost predicate NoRival(w: World, id: nat)
    requires id in w.sessions
  {
    !PendingElsewhere(w, id, NewKey(w.sessions[id]))
  }

  /** All that the remaining steps of session `id` will look at. */
  ghost predicate Ready(w: World, id: nat) {
    && id in w.sessions && NoRival(w, id) && CanLand(w.db, w.sessions[id])
    && var s := w.sessions[id];
    && s.e in w.db.events && s.sender in w.db.users && s.guest in w.db.users
    && (s.phase.Locked? ==> s.phase.sender == w.db.invites[LockKey(s)])
  }

  lemma SoundReady(d0: Db, w: World, id: nat)
    requires WorldSound(d0, w) && id in w.sessions && NoRival(w, id)
    requires CanLand(w.db, w.sessions[id]) && w.sessions[id].guest in w.db.users
    ensures Ready(w, id) && Exclusive(w.sessions)
  {
    var s := w.sessions[id];
    assert SessionSound(w.db, s) && LockKey(s) in w.db.invites;
  }

  lemma FromCounted(w: World, id: nat, e: EventId, since: Instant) returns (after: seq<Action>)
    requires Ready(w, id) && w.sessions[id].phase.Counted?
    ensures Lands(w, after, e, since, NewKey(w.sessions[id]))
  {
    var w' := Advance(w, id, Inserted);
    assert Next(w, Insert(id)) == w';
    var rest := FromInserted(w', id, e, since);
    StepFirst(w, Insert(id), rest, e, since);
    after := [Insert(id)] + rest;
  }

  lemma StaysReady(w: World, id: nat, j: nat, phase: Phase)
    requires Ready(w, id) && j in w.sessions && !phase.Inserted?
    requires if j == id then phase.Counted? || phase == Locked(w.db.invites[LockKey(w.sessions[id])]) else phase.Aborted?
    ensures Ready(Advance(w, j, phase), id)
  {
  }

  lemma FromLocked(w: World, id: nat, e: EventId, since: Instant) returns (after: seq<Action>)
    requires Ready(w, id) && w.sessions[id].phase.Locked?
    ensures Lands(w, after, e, since, NewKey(w.sessions[id]))
  {
    var s := w.sessions[id];
    var phase := Counted(s.phase.sender, |SentRows(w.db.invites, s.e, s.sender)|);
    assert Next(w, Count(id)) == Advance(w, id, phase);
    StaysReady(w, id, id, phase);
    var rest := FromCounted(Advance(w, id, phase), id, e, since);
    StepFirst(w, Count(id), rest, e, since);
    after := [Count(id)] + rest;
  }

  lemma FromBegun(w: World, id: nat, e: EventId, since: Instant) returns (after: seq<Action>)
    requires Ready(w, id) && w.sessions[id].phase.Begun? && !LockedByOther(w, id, LockKey(w.sessions[id]))
    ensures Lands(w, after, e, since, NewKey(w.sessions[id]))
  {
    var phase := Locked(w.db.invites[LockKey(w.sessions[id])]);
    assert Next(w, Lock(id)) == Advance(w, id, phase);
    StaysReady(w, id, id, phase);
    var rest := FromLocked(Advance(w, id, phase), id, e, since);
    StepFirst(w, Lock(id), rest, e, since);
    after := [Lock(id)] + rest;
  }

  /** Whoever holds the sender's lock may be aborted; nobody else can hold it then. */
  lemma FromWaiting(w: World, id: nat, e: EventId, since: Instant) returns (after: seq<Action>)
    requires Ready(w, id) && w.sessions[id].phase.Begun? && Exclusive(w.sessions)
    ensures Lands(w, after, e, since, NewKey(w.sessions[id]))
  {
    var k := LockKey(w.sessions[id]);
    if j :| j in w.sessions && j != id && HoldsLock(w.sessions[j]) && LockKey(w.sessions[j]) == k {
      assert Next(w, Abort(j)) == Advance(w, j, Aborted);
      StaysReady(w, id, j, Aborted);
      LockFreed(w, id, j);
      var rest := FromBegun(Advance(w, j, Aborted), id, e, since);
      StepFirst(w, Abort(j), rest, e, since);
      after := [Abort(j)] + rest;
    } else {
      after := FromBegun(w, id, e, since);
    }
  }

  lemma LockFreed(w: World, id: nat, j: nat)
    requires Exclusive(w.sessions) && id in w.sessions && j in w.sessions && j != id
    requires HoldsLock(w.sessions[j]) && LockKey(w.sessions[j]) == LockKey(w.sessions[id])
    ensures !LockedByOther(Advance(w, j, Aborted), id, LockKey(w.sessions[id]))
  {
  }

  lemma FromReady(w: World, id: nat, e: EventId, since: Instant) returns (after: seq<Action>)
    requires Ready(w, id) && Exclusive(w.sessions)
    ensures Lands(w, after, e, since, NewKey(w.sessions[id]))
  {
    match w.sessions[id].phase
    case Begun => after := FromWaiting(w, id, e, since);
    case Locked(_) => after := FromLocked(w, id, e, since);
    case Counted(_, _) => after := FromCounted(w, id, e, since);
    case Inserted => after := FromInserted(w, id, e, since);
  }

  // ---------------------------------------------------------------- the guest signs up first

  lemma {:induction false} LongestEmail(users: map<UserId, User>) returns (n: nat)
    ensures forall u | u in users :: |users[u].email| <= n
  {
    n := 0;
    if users.Keys != {} {
      var u :| u in users;
      var m := LongestEmail(users - {u});
      n := if m < |users[u].email| then |users[u].email| else m;
      assert forall v | v in users && v != u :: v in users - {u} && (users - {u})[v] == users[v];
    }
  }

  lemma FreshEmail(users: map<UserId, User>) returns (email: string)
    ensures !EmailTaken(users, email)
  {
    var n := LongestEmail(users);
    email := seq(n + 1, i => 'x');
  }

  lemma {:induction false} Listing<T(!new)>(rows: set<T>) returns (order: seq<T>)
    ensures Lists(order, rows)
  {
    order := [];
    if rows != {} {
      var x :| x in rows;
      var rest := Listing(rows - {x});
      order := rest + [x];
      assert forall y :: y in order <==> y in rest || y == x;
    }
  }

  lemma NoneBlocks(d: Db, d': Db, sessions: map<nat, Session>)
    requires SessionsSound(d, sessions) && d'.invites == d.invites
    ensures !exists i :: i in sessions && Blocks(sessions[i], d, d')
  {
    assert forall i | i in sessions :: SessionSound(d, sessions[i]);
  }

  /** Any time anyone may sign up, and takes the next identifier. */
  lemma NextSignup(w: World, e: EventId, since: Instant) returns (t: Timed)
    requires Consistent(w.db) && SessionsSound(w.db, w.sessions) && e in w.db.events
    ensures StepAway(w, Elsewhere(t), e, since)
    ensures SignedUp(w, Next(w, Elsewhere(t)))
  {
    var email := FreshEmail(w.db.users);
    var pending := Listing(PendingFor(w.db, email));
    t := Timed(since, RegisterCall("", email, None, pending, ResolveFaults({}, {})));
    SignupWrites(w.db, email, pending);
    var d' := Register(w.db, "", email, None, pending, ResolveFaults({}, {})).db;
    assert Apply(w.db, t) == d';
    Unblocked(w, t);
  }

  lemma Unblocked(w: World, t: Timed)
    requires SessionsSound(w.db, w.sessions) && Apply(w.db, t).invites == w.db.invites
    requires !IsForward(w.db, t) && Legal(w.db, t)
    ensures Next(w, Elsewhere(t)) == w.(db := Apply(w.db, t), log := w.log + [Other(t)])
  {
    NoneBlocks(w.db, Apply(w.db, t), w.sessions);
  }

  /** One more account, and the forwards and the list as they were. */
  ghost predicate SignedUp(w: World, w': World) {
    && w'.sessions == w.sessions && w'.db.invites == w.db.invites && w'.db.events == w.db.events
    && w'.db.users.Keys == w.db.users.Keys + {w.db.nextId} && w'.db.nextId == w.db.nextId + 1
  }

  lemma StillExpected(w: World, w': World, id: nat)
    requires SignedUp(w, w') && id in w.sessions && NoRival(w, id) && CanLand(w.db, w.sessions[id])
    ensures NoRival(w', id) && CanLand(w'.db, w'.sessions[id])
  {
  }

  lemma SignupWrites(d: Db, email: string, pending: seq<NetworkInviteId>)
    requires Consistent(d) && !EmailTaken(d.users, email)
    ensures var d' := Register(d, "", email, None, pending, ResolveFaults({}, {})).db;
            && d'.invites == d.invites && d'.events == d.events
            && d'.users.Keys == d.users.Keys + {d.nextId} && d'.nextId == d.nextId + 1
  {
    Invitations.FreshAccount(d, "", email, None);
    var created := CreateUser(d, "", email, None);
    assert created.db == d.(users := created.db.users, credentials := created.db.credentials, nextId := d.nextId + 1);
    assert created.db.users == d.users[d.nextId := User("", email, None, false)];
    ResolveKeepsGuests(created.db, d.nextId, pending, ResolveFaults({}, {}));
  }

  /** As many signups as it takes for the guest to be there, and then the forward. */
  lemma {:induction false} FromExpected(d0: Db, w: World, id: nat, e: EventId, since: Instant) returns (after: seq<Action>)
    requires WorldSound(d0, w) && id in w.sessions && NoRival(w, id) && CanLand(w.db, w.sessions[id]) && e in w.db.events
    ensures Lands(w, after, e, since, NewKey(w.sessions[id]))
    decreases if w.sessions[id].guest in w.db.users then 0 else w.sessions[id].guest - w.db.nextId + 1
  {
    if w.sessions[id].guest in w.db.users {
      SoundReady(d0, w, id);
      after := FromReady(w, id, e, since);
    } else {
      var t := NextSignup(w, e, since);
      var w' := Next(w, Elsewhere(t));
      StepSound(d0, w, Elsewhere(t));
      StillExpected(w, w', id);
      var rest := FromExpected(d0, w', id, e, since);
      StepFirst(w, Elsewhere(t), rest, e, since);
      after := [Elsewhere(t)] + rest;
    }
  }

  /**
   The list is frozen for as long as the owner stays away exactly when no forward that was open at the
   deadline has an accepted sender with budget left and a guest who is not invited and can be there.
   */
  lemma FrozenIff(d0: Db, w: World, e: EventId, since: Instant)
    requires WorldSound(d0, w) && e in w.db.events && w.db.events[e].rsvpDeadline.Some? && w.db.events[e].rsvpDeadline.value < since
    ensures StaysFrozen(w, e, since) <==> !SomeCanLand(w, e)
  {
    if SomeCanLand(w, e) {
      var id :| id in w.sessions && w.sessions[id].e == e && CanLand(w.db, w.sessions[id]);
      var k := NewKey(w.sessions[id]);
      var after: seq<Action>;
      if NoRival(w, id) {
        after := FromExpected(d0, w, id, e, since);
      } else {
        var j :| j in w.sessions && j != id && w.sessions[j].phase.Inserted? && NewKey(w.sessions[j]) == k;
        after := FromInserted(w, j, e, since);
      }
      assert Lands(w, after, e, since, k) && k !in w.db.invites;
      assert !SameList(w.db, Schedule(w, after).db, e);
    } else {
      forall after | ScheduleAway(w, after, e, since)
        ensures SameList(w.db, Schedule(w, after).db, e)
      {
        NoneLands(d0, w, after, e, since);
      }
    }
  }
}
