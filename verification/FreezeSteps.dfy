/**
 The RSVP freeze when forwarding takes several steps: the deadline is checked before the
 transaction begins, so a forward opened in time may still commit after the deadline.  Nothing else
 reaches the guest list while the owner is away.
 */
module FreezeSteps {
  import opened Tables
  import opened InviteRules
  import opened Protocol
  import opened GuestLists
  import opened ForwardSteps
  import opened RsvpFreeze
  import Scenarios

  /** The step happens after `since`, and the owner of `e` leaves the event alone. */
  ghost predicate StepAway(w: World, a: Action, e: EventId, since: Instant) {
    match a
    case Begin(_, now, _, _, _) => since <= now
    case Elsewhere(t) => since <= t.now && e in w.db.events && !OwnerActs(w.db, t.call, e)
    case _ => true
  }

  ghost predicate ScheduleAway(w: World, actions: seq<Action>, e: EventId, since: Instant) {
    actions == [] ||
    var n := |actions| - 1;
    ScheduleAway(w, actions[..n], e, since) && StepAway(Schedule(w, actions[..n]), actions[n], e, since)
  }

  /** Sessions at the event that are open now were open at `w0`. */
  ghost predicate OpenedBefore(w0: World, w: World, e: EventId) {
    forall id | id in w.sessions && w.sessions[id].e == e && Open(w.sessions[id]) ::
      id in w0.sessions && Open(w0.sessions[id]) && w0.sessions[id].e == e && NewKey(w0.sessions[id]) == NewKey(w.sessions[id])
  }

  /** Session `id` was open at `w0` and has since committed this row. */
  ghost predicate CommittedBy(w0: World, w: World, k: InviteKey, row: Invite, id: nat) {
    && id in w0.sessions && Open(w0.sessions[id]) && NewKey(w0.sessions[id]) == k
    && id in w.sessions && w.sessions[id].phase == Finished(Ok(row))
  }

  /** The event and its rows are as they were, but for the rows of forwards that were open at `w0`. */
  ghost predicate LateRows(w0: World, w: World, e: EventId) {
    && e in w0.db.events && e in w.db.events && w.db.events[e] == w0.db.events[e]
    && (forall k | k in w0.db.invites && k.event == e :: k in w.db.invites && w.db.invites[k] == w0.db.invites[k])
    && (forall k | k in w.db.invites && k.event == e && k !in w0.db.invites :: exists id :: CommittedBy(w0, w, k, w.db.invites[k], id))
  }

  /** Steps that commit no row of the event and keep its list keep what was established. */
  lemma QuietLate(w0: World, w: World, w': World, e: EventId)
    requires LateRows(w0, w, e) && SameList(w.db, w'.db, e)
    requires forall id | id in w.sessions && w.sessions[id].phase.Finished? :: id in w'.sessions && w'.sessions[id] == w.sessions[id]
    ensures LateRows(w0, w', e)
  {
    forall k | k in w'.db.invites && k.event == e && k !in w0.db.invites
      ensures exists id :: CommittedBy(w0, w', k, w'.db.invites[k], id)
    {
      assert k in w.db.invites;
      var id :| CommittedBy(w0, w, k, w.db.invites[k], id);
      assert CommittedBy(w0, w', k, w'.db.invites[k], id);
    }
  }

  lemma CommitWrites(d0: Db, w: World, id: nat)
    requires WorldSound(d0, w) && id in w.sessions && w.sessions[id].phase.Inserted?
    ensures var s, w' := w.sessions[id], DoCommit(w, id);
            var row := Invite(s.sender, Pending, 0, w.db.nextInvite, None);
            && NewKey(s) !in w.db.invites && w'.db.events == w.db.events && w'.db.invites == w.db.invites[NewKey(s) := row]
            && w'.sessions == w.sessions[id := s.(phase := Finished(Ok(row)))]
  {
    CommitGrants(w, id);
  }

  lemma RowLate(w0: World, w: World, w': World, id: nat, row: Invite, e: EventId)
    requires LateRows(w0, w, e) && OpenedBefore(w0, w, e)
    requires id in w.sessions && Open(w.sessions[id]) && NewKey(w.sessions[id]) !in w.db.invites
    requires w'.db.events == w.db.events && w'.db.invites == w.db.invites[NewKey(w.sessions[id]) := row]
    requires w'.sessions == w.sessions[id := w.sessions[id].(phase := Finished(Ok(row)))]
    ensures LateRows(w0, w', e)
  {
    forall k | k in w'.db.invites && k.event == e && k !in w0.db.invites
      ensures exists i :: CommittedBy(w0, w', k, w'.db.invites[k], i)
    {
      if k == NewKey(w.sessions[id]) {
        assert CommittedBy(w0, w', k, w'.db.invites[k], id);
      } else {
        var i :| CommittedBy(w0, w, k, w.db.invites[k], i);
        assert CommittedBy(w0, w', k, w'.db.invites[k], i);
      }
    }
  }

  /** Sessions keep their transaction, and an ended one stays ended. */
  ghost predicate SessionsGoOn(w: World, w': World) {
    && (forall id | id in w.sessions && w.sessions[id].phase.Finished? :: id in w'.sessions && w'.sessions[id] == w.sessions[id])
    && (forall id | id in w'.sessions && Open(w'.sessions[id]) ::
          id in w.sessions && Open(w.sessions[id]) && w'.sessions[id] == w.sessions[id].(phase := w'.sessions[id].phase))
  }

  lemma OwnStepGoesOn(w: World, a: Action)
    requires a.Lock? || a.Count? || a.Insert? || a.Abort?
    ensures SessionsGoOn(w, Next(w, a)) && Next(w, a).db == w.db
  {
    var w' := Next(w, a);
    if a.id in w.sessions && w'.sessions != w.sessions {
      assert w'.sessions == w.sessions[a.id := w.sessions[a.id].(phase := w'.sessions[a.id].phase)];
    }
  }

  lemma ElsewhereLate(d0: Db, w0: World, w: World, t: Timed, e: EventId, since: Instant)
    requires WorldSound(d0, w) && LateRows(w0, w, e) && RsvpClosed(w0.db.events[e], since)
    requires StepAway(w, Elsewhere(t), e, since)
    ensures LateRows(w0, DoElsewhere(w, t), e)
  {
    FrozenCall(w.db, t, e);
    QuietLate(w0, w, DoElsewhere(w, t), e);
  }

  lemma StepLate(d0: Db, w0: World, w: World, a: Action, e: EventId, since: Instant)
    requires WorldSound(d0, w) && LateRows(w0, w, e) && OpenedBefore(w0, w, e)
    requires e in w0.db.events && RsvpClosed(w0.db.events[e], since) && StepAway(w, a, e, since)
    ensures LateRows(w0, Next(w, a), e) && OpenedBefore(w0, Next(w, a), e)
  {
    match a
    case Begin(id, now, e', sender, guest) => BeginLate(w0, w, id, now, e', sender, guest, e, since);
    case Commit(id) =>
      if id in w.sessions && w.sessions[id].phase.Inserted? {
        CommitLate(d0, w0, w, id, e);
      }
    case Elsewhere(t) => ElsewhereLate(d0, w0, w, t, e, since);
    case _ => OwnStepLate(w0, w, a, e);
  }

  /** Nothing opens at an event whose deadline is past. */
  lemma BeginLate(w0: World, w: World, id: nat, now: Instant, e': EventId, sender: UserId, guest: UserId, e: EventId, since: Instant)
    requires LateRows(w0, w, e) && OpenedBefore(w0, w, e) && RsvpClosed(w0.db.events[e], since) && since <= now
    ensures LateRows(w0, DoBegin(w, id, now, e', sender, guest), e) && OpenedBefore(w0, DoBegin(w, id, now, e', sender, guest), e)
  {
    var w' := DoBegin(w, id, now, e', sender, guest);
    if w' != w {
      assert w' == WithSession(w, id, Session(e', sender, guest, Begun)) && e' != e;
      QuietLate(w0, w, w', e);
    }
  }

  lemma CommitLate(d0: Db, w0: World, w: World, id: nat, e: EventId)
    requires WorldSound(d0, w) && LateRows(w0, w, e) && OpenedBefore(w0, w, e)
    requires id in w.sessions && w.sessions[id].phase.Inserted?
    ensures LateRows(w0, DoCommit(w, id), e) && OpenedBefore(w0, DoCommit(w, id), e)
  {
    CommitWrites(d0, w, id);
    var s := w.sessions[id];
    RowLate(w0, w, DoCommit(w, id), id, Invite(s.sender, Pending, 0, w.db.nextInvite, None), e);
  }

  lemma OwnStepLate(w0: World, w: World, a: Action, e: EventId)
    requires LateRows(w0, w, e) && OpenedBefore(w0, w, e)
    requires a.Lock? || a.Count? || a.Insert? || a.Abort?
    ensures LateRows(w0, Next(w, a), e) && OpenedBefore(w0, Next(w, a), e)
  {
    OwnStepGoesOn(w, a);
    QuietLate(w0, w, Next(w, a), e);
  }

  lemma {:induction false} LateRowsKept(d0: Db, before: seq<Action>, after: seq<Action>, e: EventId, since: Instant)
    requires GuestListsSound(d0)
    requires var w0 := Schedule(World(d0, map[], []), before);
             e in w0.db.events && RsvpClosed(w0.db.events[e], since) && ScheduleAway(w0, after, e, since)
    ensures var w0 := Schedule(World(d0, map[], []), before);
            var w := Schedule(w0, after);
            WorldSound(d0, w) && LateRows(w0, w, e) && OpenedBefore(w0, w, e)
  {
    var w0 := Schedule(World(d0, map[], []), before);
    if after == [] {
      ScheduleSound(d0, before);
    } else {
      var n := |after| - 1;
      LateRowsKept(d0, before, after[..n], e, since);
      StepLate(d0, w0, Schedule(w0, after[..n]), after[n], e, since);
      StepSound(d0, Schedule(w0, after[..n]), after[n]);
    }
  }

  /**
   Over any schedule after the deadline in which the owner does nothing, every row stays as it was, and
   each row that appears is the one a forward opened in time has committed since.
   */
  lemma FrozenSchedule(d0: Db, before: seq<Action>, after: seq<Action>, e: EventId, since: Instant)
    requires GuestListsSound(d0)
    requires var w0 := Schedule(World(d0, map[], []), before);
             e in w0.db.events && w0.db.events[e].rsvpDeadline.Some? && w0.db.events[e].rsvpDeadline.value < since && ScheduleAway(w0, after, e, since)
    ensures var w0 := Schedule(World(d0, map[], []), before);
            var w := Schedule(w0, after);
            && LateRows(w0, w, e)
            && ((forall id | id in w0.sessions && Open(w0.sessions[id]) :: w0.sessions[id].e != e) ==> SameList(w0.db, w.db, e))
  {
    LateRowsKept(d0, before, after, e, since);
  }

  // ---------------------------------------------------------------- it happens

  /** The accepted guest's forward up to its insert, all before the deadline. */
  function InTime(): seq<Action> {
    [Begin(0, 0, 3, 1, 2), Lock(0), Count(0), Insert(0)]
  }

  lemma UpToInsert(w: World)
    requires w.sessions == map[] && 3 in w.db.events && w.db.events[3].owner != 1 && !RsvpClosed(w.db.events[3], 0)
    requires 1 in w.db.users && 2 in w.db.users && InviteKey(3, 2) !in w.db.invites && SentRows(w.db.invites, 3, 1) == {}
    requires InviteKey(3, 1) in w.db.invites && w.db.invites[InviteKey(3, 1)].status == Accepted && w.db.invites[InviteKey(3, 1)].spread > 0
    ensures Schedule(w, InTime()) == w.(sessions := map[0 := Session(3, 1, 2, Inserted)])
  {
    var sender := w.db.invites[InviteKey(3, 1)];
    var s := InTime();
    var w1 := w.(sessions := map[0 := Session(3, 1, 2, Begun)]);
    var w2 := w.(sessions := map[0 := Session(3, 1, 2, Locked(sender))]);
    var w3 := w.(sessions := map[0 := Session(3, 1, 2, Counted(sender, 0))]);
    assert s[..1][..0] == [] && s[..2][..1] == s[..1] && s[..3][..2] == s[..2] && s[..3] == s[..|s| - 1];
    assert Schedule(w, s[..1]) == DoBegin(w, 0, 0, 3, 1, 2) == w1;
    assert Schedule(w, s[..2]) == DoLock(w1, 0) == w2;
    assert Schedule(w, s[..3]) == DoCount(w2, 0) == w3;
    assert DoInsert(w3, 0) == w.(sessions := map[0 := Session(3, 1, 2, Inserted)]);
  }

  lemma InTimeInserts()
    ensures var w := Schedule(World(Scenarios.GuestIsIn(), map[], []), InTime());
            w.db == Scenarios.GuestIsIn() && w.sessions == map[0 := Session(3, 1, 2, Inserted)]
  {
    assert SentRows(Scenarios.GuestIsIn().invites, 3, 1) == {};
    UpToInsert(World(Scenarios.GuestIsIn(), map[], []));
  }

  /** From a reachable state: a forward checked before the deadline adds its row after it. */
  lemma LateCommitHappens(since: Instant)
    requires 50 < since
    ensures Reachable(Scenarios.GuestIsIn())
    ensures var w := Schedule(World(Scenarios.GuestIsIn(), map[], []), InTime());
            && 3 in w.db.events && w.db.events[3].rsvpDeadline.Some? && w.db.events[3].rsvpDeadline.value < since && ScheduleAway(w, [Commit(0)], 3, since)
            && InviteKey(3, 2) !in w.db.invites && InviteKey(3, 2) in Schedule(w, [Commit(0)]).db.invites
  {
    Scenarios.GuestIsInReachable();
    InTimeInserts();
    var w := Schedule(World(Scenarios.GuestIsIn(), map[], []), InTime());
    assert [Commit(0)][..0] == [];
    assert Schedule(w, [Commit(0)]) == DoCommit(w, 0);
  }
}
