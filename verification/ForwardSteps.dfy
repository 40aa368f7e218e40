/**
 The forwarding transaction as the database runs it: begin, lock the sender's row, count, insert,
 commit, interleaved with other such transactions and with every other service call.

 Read-committed visibility: a statement sees committed rows and the transaction's own.  A row lock
 blocks every other write to that row; an uncommitted insert blocks another insert of the same key.
 A blocked step simply does not happen yet.
 */
module ForwardSteps {
  import opened Tables
  import opened InviteRules
  import opened Protocol
  import opened Shapes
  import opened Consistency
  import opened GuestLists

  datatype Phase =
    | Begun
    | Locked(sender: Invite)
    | Counted(sender: Invite, sent: nat)
    | Inserted
    | Finished(result: Result<Invite>)
    | Aborted

  /** One call of `SendEventInvite` by a guest, from its service check on. */
  datatype Session = Session(e: EventId, sender: UserId, guest: UserId, phase: Phase)

  /** What took effect, in commit order. */
  datatype Entry =
    | Forward(id: nat, e: EventId, sender: UserId, guest: UserId, result: Result<Invite>)
    | Other(t: Timed)

  datatype World = World(db: Db, sessions: map<nat, Session>, log: seq<Entry>)

  datatype Action =
    | Begin(id: nat, now: Instant, e: EventId, sender: UserId, guest: UserId)
    | Lock(id: nat)
    | Count(id: nat)
    | Insert(id: nat)
    | Commit(id: nat)
    | Abort(id: nat)
    | Elsewhere(t: Timed)

  // ---------------------------------------------------------------- locks

  predicate HoldsLock(s: Session) {
    s.phase.Locked? || s.phase.Counted? || s.phase.Inserted?
  }

  function LockKey(s: Session): InviteKey {
    InviteKey(s.e, s.sender)
  }

  function NewKey(s: Session): InviteKey {
    InviteKey(s.e, s.guest)
  }

  predicate LockedByOther(w: World, id: nat, k: InviteKey) {
    exists i :: i in w.sessions && i != id && HoldsLock(w.sessions[i]) && LockKey(w.sessions[i]) == k
  }

  predicate PendingElsewhere(w: World, id: nat, k: InviteKey) {
    exists i :: i in w.sessions && i != id && w.sessions[i].phase.Inserted? && NewKey(w.sessions[i]) == k
  }

  /** Another call would have to wait for this session. */
  ghost predicate Blocks(s: Session, d: Db, d': Db) {
    || (HoldsLock(s) && LockKey(s) in d.invites && !(LockKey(s) in d'.invites && d'.invites[LockKey(s)] == d.invites[LockKey(s)]))
    || (s.phase.Inserted? && NewKey(s) in d'.invites)
  }

  /** Guests forward through sessions only. */
  predicate IsForward(d: Db, t: Timed) {
    t.call.SendCall? && !(t.call.e in d.events && d.events[t.call.e].owner == t.call.actor)
  }

  // ---------------------------------------------------------------- steps

  function WithSession(w: World, id: nat, s: Session): World {
    w.(sessions := w.sessions[id := s])
  }

  function Advance(w: World, id: nat, phase: Phase): World
    requires id in w.sessions
  {
    WithSession(w, id, w.sessions[id].(phase := phase))
  }

  predicate Open(s: Session) {
    !s.phase.Finished? && !s.phase.Aborted?
  }

  function LogEntry(id: nat, s: Session, result: Result<Invite>): Entry {
    Forward(id, s.e, s.sender, s.guest, result)
  }

  /** The transaction ends here with this answer. */
  function Finish(w: World, id: nat, result: Result<Invite>): World
    requires id in w.sessions
  {
    Advance(w, id, Finished(result)).(log := w.log + [LogEntry(id, w.sessions[id], result)])
  }

  /** The service checks before it opens the transaction; a refused call opens none. */
  function DoBegin(w: World, id: nat, now: Instant, e: EventId, sender: UserId, guest: UserId): World {
    if id in w.sessions || guest == sender || sender !in w.db.users || e !in w.db.events
       || w.db.events[e].owner == sender || RsvpClosed(w.db.events[e], now) then w
    else WithSession(w, id, Session(e, sender, guest, Begun))
  }

  /** SELECT ... FOR UPDATE. */
  function DoLock(w: World, id: nat): World
    requires id in w.sessions && w.sessions[id].phase.Begun?
  {
    var k := LockKey(w.sessions[id]);
    if LockedByOther(w, id, k) then w
    else if k !in w.db.invites then Finish(w, id, Err(InviteNotAllowed))
    else Advance(w, id, Locked(w.db.invites[k]))
  }

  /** SELECT COUNT(*), then the test on the row that was locked. */
  function DoCount(w: World, id: nat): World
    requires id in w.sessions && w.sessions[id].phase.Locked?
  {
    var s := w.sessions[id];
    var sent := |SentRows(w.db.invites, s.e, s.sender)|;
    if s.phase.sender.status != Accepted || sent >= s.phase.sender.spread
    then Finish(w, id, Err(InviteNotAllowed))
    else Advance(w, id, Counted(s.phase.sender, sent))
  }

  /** INSERT: waits for an uncommitted row with the same key, then meets the constraints. */
  function DoInsert(w: World, id: nat): World
    requires id in w.sessions && w.sessions[id].phase.Counted?
  {
    var s := w.sessions[id];
    if PendingElsewhere(w, id, NewKey(s)) then w
    else if NewKey(s) in w.db.invites then Finish(w, id, Err(AlreadyInvited))
    else if s.e !in w.db.events || s.sender !in w.db.users then Finish(w, id, Err(DatabaseError))
    else if s.guest !in w.db.users then Finish(w, id, Err(InvitedUserNotFound))
    else Advance(w, id, Inserted)
  }

  /** COMMIT: the row becomes visible. */
  function DoCommit(w: World, id: nat): World
    requires id in w.sessions && w.sessions[id].phase.Inserted?
  {
    var s := w.sessions[id];
    var row := Invite(s.sender, Pending, 0, w.db.nextInvite, None);
    var db' := w.db.(invites := w.db.invites[NewKey(s) := row], nextInvite := w.db.nextInvite + 1);
    Finish(w, id, Ok(row)).(db := db')
  }

  ghost function DoElsewhere(w: World, t: Timed): World {
    if IsForward(w.db, t) || !Legal(w.db, t)
       || exists i :: i in w.sessions && Blocks(w.sessions[i], w.db, Apply(w.db, t)) then w
    else w.(db := Apply(w.db, t), log := w.log + [Other(t)])
  }

  ghost function Next(w: World, a: Action): World {
    match a
    case Begin(id, now, e, sender, guest) => DoBegin(w, id, now, e, sender, guest)
    case Lock(id) => if id in w.sessions && w.sessions[id].phase.Begun? then DoLock(w, id) else w
    case Count(id) => if id in w.sessions && w.sessions[id].phase.Locked? then DoCount(w, id) else w
    case Insert(id) => if id in w.sessions && w.sessions[id].phase.Counted? then DoInsert(w, id) else w
    case Commit(id) => if id in w.sessions && w.sessions[id].phase.Inserted? then DoCommit(w, id) else w
    case Abort(id) =>
      if id in w.sessions && Open(w.sessions[id]) then Advance(w, id, Aborted) else w
    case Elsewhere(t) => DoElsewhere(w, t)
  }

  ghost function Schedule(w: World, actions: seq<Action>): World {
    if actions == [] then w else Next(Schedule(w, actions[..|actions| - 1]), actions[|actions| - 1])
  }

  // ---------------------------------------------------------------- the sequential run

  function Effect(d: Db, entry: Entry): Db {
    match entry
    case Forward(_, e, sender, guest, _) => ForwardInvite(d, e, guest, 0, sender).db
    case Other(t) => Apply(d, t)
  }

  /** The log one entry at a time, every forward as one atomic step. */
  function Replay(d: Db, log: seq<Entry>): Db {
    if log == [] then d else Effect(Replay(d, log[..|log| - 1]), log[|log| - 1])
  }

  /** Each forward got the answer the atomic one gives at its place in the log. */
  ghost predicate Answers(d: Db, log: seq<Entry>) {
    forall i | 0 <= i < |log| && log[i].Forward? ::
      ForwardInvite(Replay(d, log[..i]), log[i].e, log[i].guest, 0, log[i].sender).result == log[i].result
  }

  // ---------------------------------------------------------------- what every schedule keeps

  ghost predicate SessionSound(d: Db, s: Session) {
    && s.e < d.nextId && s.sender in d.users && s.guest != s.sender
    && (s.e in d.events ==> d.events[s.e].owner != s.sender)
    && (s.phase.Locked? ==> LockKey(s) in d.invites && d.invites[LockKey(s)] == s.phase.sender)
    && (s.phase.Counted? || s.phase.Inserted? ==> HasBudget(d, s.e, s.sender))
    && (s.phase.Inserted? ==> s.guest in d.users && NewKey(s) !in d.invites)
  }

  /** At most one session holds a row lock, and at most one has a key pending. */
  ghost predicate Exclusive(sessions: map<nat, Session>) {
    forall i, j | i in sessions && j in sessions && i != j ::
      && (HoldsLock(sessions[i]) && HoldsLock(sessions[j]) ==> LockKey(sessions[i]) != LockKey(sessions[j]))
      && (sessions[i].phase.Inserted? && sessions[j].phase.Inserted? ==> NewKey(sessions[i]) != NewKey(sessions[j]))
  }

  ghost predicate SessionsSound(d: Db, sessions: map<nat, Session>) {
    Exclusive(sessions) && forall i | i in sessions :: SessionSound(d, sessions[i])
  }

  ghost predicate LogSound(d0: Db, d: Db, log: seq<Entry>) {
    Replay(d0, log) == d && Answers(d0, log)
  }

  lemma LogForward(d0: Db, d: Db, log: seq<Entry>, id: nat, e: EventId, sender: UserId, guest: UserId, o: Outcome<Invite>)
    requires LogSound(d0, d, log) && o == ForwardInvite(d, e, guest, 0, sender)
    ensures LogSound(d0, o.db, log + [Forward(id, e, sender, guest, o.result)])
  {
    var log' := log + [Forward(id, e, sender, guest, o.result)];
    assert log'[..|log|] == log;
    forall i | 0 <= i < |log'| && log'[i].Forward?
      ensures ForwardInvite(Replay(d0, log'[..i]), log'[i].e, log'[i].guest, 0, log'[i].sender).result == log'[i].result
    {
      assert i < |log| ==> log'[..i] == log[..i] && log'[i] == log[i];
    }
  }

  lemma LogOther(d0: Db, d: Db, log: seq<Entry>, t: Timed)
    requires LogSound(d0, d, log)
    ensures LogSound(d0, Apply(d, t), log + [Other(t)])
  {
    var log' := log + [Other(t)];
    assert log'[..|log|] == log;
    forall i | 0 <= i < |log'| && log'[i].Forward?
      ensures ForwardInvite(Replay(d0, log'[..i]), log'[i].e, log'[i].guest, 0, log'[i].sender).result == log'[i].result
    {
      assert log'[..i] == log[..i] && log'[i] == log[i];
    }
  }

  /** Replacing one session by one that is sound and claims nothing another session has. */
  lemma AdvanceSound(d: Db, sessions: map<nat, Session>, id: nat, s: Session)
    requires SessionsSound(d, sessions) && SessionSound(d, s)
    requires HoldsLock(s) ==> forall i | i in sessions && i != id && HoldsLock(sessions[i]) :: LockKey(sessions[i]) != LockKey(s)
    requires s.phase.Inserted? ==> forall i | i in sessions && i != id && sessions[i].phase.Inserted? :: NewKey(sessions[i]) != NewKey(s)
    ensures SessionsSound(d, sessions[id := s])
  {
  }

  /** A transaction that ends without a row: the atomic forward refuses at the same point. */
  lemma FinishSound(d0: Db, w: World, id: nat, error: Error)
    requires LogSound(d0, w.db, w.log) && SessionsSound(w.db, w.sessions) && id in w.sessions
    requires ForwardInvite(w.db, w.sessions[id].e, w.sessions[id].guest, 0, w.sessions[id].sender) == Outcome(w.db, Err(error))
    ensures var w' := Finish(w, id, Err(error));
            w'.db == w.db && LogSound(d0, w.db, w'.log) && SessionsSound(w.db, w'.sessions)
  {
    var s := w.sessions[id];
    LogForward(d0, w.db, w.log, id, s.e, s.sender, s.guest, Outcome(w.db, Err(error)));
    AdvanceSound(w.db, w.sessions, id, s.(phase := Finished(Err(error))));
  }

  /** What a step that leaves the tables alone has to keep. */
  ghost predicate Quiet(d0: Db, w: World, w': World) {
    w'.db == w.db && LogSound(d0, w.db, w'.log) && SessionsSound(w.db, w'.sessions)
  }

  lemma LockQuiet(d0: Db, w: World, id: nat)
    requires LogSound(d0, w.db, w.log) && SessionsSound(w.db, w.sessions)
    requires id in w.sessions && w.sessions[id].phase.Begun?
    ensures Quiet(d0, w, DoLock(w, id))
  {
    var s := w.sessions[id];
    if !LockedByOther(w, id, LockKey(s)) {
      if LockKey(s) !in w.db.invites {
        FinishSound(d0, w, id, InviteNotAllowed);
      } else {
        AdvanceSound(w.db, w.sessions, id, s.(phase := Locked(w.db.invites[LockKey(s)])));
      }
    }
  }

  lemma CountQuiet(d0: Db, w: World, id: nat)
    requires LogSound(d0, w.db, w.log) && SessionsSound(w.db, w.sessions)
    requires id in w.sessions && w.sessions[id].phase.Locked?
    ensures Quiet(d0, w, DoCount(w, id))
  {
    var s := w.sessions[id];
    assert SessionSound(w.db, s);
    var sent := |SentRows(w.db.invites, s.e, s.sender)|;
    if s.phase.sender.status != Accepted || sent >= s.phase.sender.spread {
      FinishSound(d0, w, id, InviteNotAllowed);
    } else {
      AdvanceSound(w.db, w.sessions, id, s.(phase := Counted(s.phase.sender, sent)));
    }
  }

  lemma InsertQuiet(d0: Db, w: World, id: nat)
    requires LogSound(d0, w.db, w.log) && SessionsSound(w.db, w.sessions)
    requires id in w.sessions && w.sessions[id].phase.Counted?
    ensures Quiet(d0, w, DoInsert(w, id))
  {
    var s := w.sessions[id];
    assert SessionSound(w.db, s);
    if !PendingElsewhere(w, id, NewKey(s)) {
      if NewKey(s) in w.db.invites {
        FinishSound(d0, w, id, AlreadyInvited);
      } else if s.e !in w.db.events || s.sender !in w.db.users {
        FinishSound(d0, w, id, DatabaseError);
      } else if s.guest !in w.db.users {
        FinishSound(d0, w, id, InvitedUserNotFound);
      } else {
        AdvanceSound(w.db, w.sessions, id, s.(phase := Inserted));
      }
    }
  }

  lemma BeginQuiet(d0: Db, w: World, id: nat, now: Instant, e: EventId, sender: UserId, guest: UserId)
    requires LogSound(d0, w.db, w.log) && SessionsSound(w.db, w.sessions)
    requires EventsValid(w.db.events, w.db.users.Keys, w.db.nextId)
    ensures Quiet(d0, w, DoBegin(w, id, now, e, sender, guest))
  {
    if DoBegin(w, id, now, e, sender, guest) != w {
      AdvanceSound(w.db, w.sessions, id, Session(e, sender, guest, Begun));
    }
  }

  // ---------------------------------------------------------------- commit

  lemma CommitForwards(w: World, id: nat)
    requires SessionsSound(w.db, w.sessions) && EventsOfInvites(w.db)
    requires id in w.sessions && w.sessions[id].phase.Inserted?
    ensures var s := w.sessions[id];
            ForwardInvite(w.db, s.e, s.guest, 0, s.sender)
            == Outcome(DoCommit(w, id).db, Ok(Invite(s.sender, Pending, 0, w.db.nextInvite, None)))
  {
  }

  ghost predicate EventsOfInvites(d: Db) {
    forall k | k in d.invites :: k.event in d.events
  }

  /** The row a commit makes visible is granted by an accepted sender with budget left, just then. */
  lemma CommitGrants(w: World, id: nat)
    requires SessionsSound(w.db, w.sessions) && EventsOfInvites(w.db)
    requires id in w.sessions && w.sessions[id].phase.Inserted?
    ensures var s := w.sessions[id];
            HasBudget(w.db, s.e, s.sender) && RowGranted(w.db, DoCommit(w, id).db, NewKey(s), 0, s.sender)
  {
  }

  lemma SessionAfterGrant(d: Db, d': Db, added: InviteKey, spread: nat, actor: UserId, s: Session)
    requires SessionSound(d, s) && RowGranted(d, d', added, spread, actor)
    requires HoldsLock(s) ==> LockKey(s) != InviteKey(added.event, actor)
    requires s.phase.Inserted? ==> NewKey(s) != added
    ensures SessionSound(d', s)
  {
    GrantExtendsSent(d, d', added, spread, actor, s.e, s.sender);
  }

  lemma SessionsAfterGrant(d: Db, d': Db, added: InviteKey, spread: nat, actor: UserId, sessions: map<nat, Session>)
    requires SessionsSound(d, sessions) && RowGranted(d, d', added, spread, actor)
    requires forall i | i in sessions && HoldsLock(sessions[i]) :: LockKey(sessions[i]) != InviteKey(added.event, actor)
    requires forall i | i in sessions && sessions[i].phase.Inserted? :: NewKey(sessions[i]) != added
    ensures SessionsSound(d', sessions)
  {
    forall i | i in sessions
      ensures SessionSound(d', sessions[i])
    {
      SessionAfterGrant(d, d', added, spread, actor, sessions[i]);
    }
  }

  lemma SessionAfterTrim(d: Db, d': Db, s: Session)
    requires SessionSound(d, s) && RowsTrimmed(d, d')
    requires !Blocks(s, d, d')
    ensures SessionSound(d', s)
  {
    SmallerSubset(SentRows(d'.invites, s.e, s.sender), SentRows(d.invites, s.e, s.sender));
  }

  lemma CommitSessions(w: World, id: nat)
    requires SessionsSound(w.db, w.sessions) && EventsOfInvites(w.db)
    requires id in w.sessions && w.sessions[id].phase.Inserted?
    ensures SessionsSound(DoCommit(w, id).db, DoCommit(w, id).sessions)
  {
    var s := w.sessions[id];
    var done := s.(phase := DoCommit(w, id).sessions[id].phase);
    CommitGrants(w, id);
    AdvanceSound(w.db, w.sessions, id, done);
    SessionsAfterGrant(w.db, DoCommit(w, id).db, NewKey(s), 0, s.sender, w.sessions[id := done]);
  }

  lemma CommitLog(d0: Db, w: World, id: nat)
    requires LogSound(d0, w.db, w.log) && SessionsSound(w.db, w.sessions) && EventsOfInvites(w.db)
    requires id in w.sessions && w.sessions[id].phase.Inserted?
    ensures LogSound(d0, DoCommit(w, id).db, DoCommit(w, id).log)
  {
    var s := w.sessions[id];
    CommitForwards(w, id);
    LogForward(d0, w.db, w.log, id, s.e, s.sender, s.guest, ForwardInvite(w.db, s.e, s.guest, 0, s.sender));
  }

  lemma CommitKeepsLists(w: World, id: nat)
    requires SessionsSound(w.db, w.sessions) && GuestListsSound(w.db)
    requires id in w.sessions && w.sessions[id].phase.Inserted?
    ensures GuestListsSound(DoCommit(w, id).db)
  {
    var s := w.sessions[id];
    CommitForwards(w, id);
    CommitGrants(w, id);
    ForwardConsistent(w.db, s.e, s.guest, 0, s.sender);
    SoundAfter(w.db, DoCommit(w, id).db);
  }

  // ---------------------------------------------------------------- other calls

  /** The owner is never the sender a session locked. */
  lemma OwnerSendSessions(d: Db, sessions: map<nat, Session>, t: Timed)
    requires SessionsSound(d, sessions) && t.call.SendCall? && !IsForward(d, t)
    requires forall i | i in sessions :: !Blocks(sessions[i], d, Apply(d, t))
    ensures SessionsSound(Apply(d, t), sessions)
  {
    var c := t.call;
    SendShape(d, t.now, c.e, c.guest, c.spread, c.actor, c.delivers);
    if SendInvite(d, t.now, c.e, c.guest, c.spread, c.actor, c.delivers).result.Ok? {
      assert forall i | i in sessions :: SessionSound(d, sessions[i]);
      SessionsAfterGrant(d, Apply(d, t), InviteKey(c.e, c.guest), c.spread, c.actor, sessions);
    }
  }

  lemma TrimSessions(d: Db, d': Db, sessions: map<nat, Session>)
    requires SessionsSound(d, sessions) && RowsTrimmed(d, d')
    requires forall i | i in sessions :: !Blocks(sessions[i], d, d')
    ensures SessionsSound(d', sessions)
  {
    forall i | i in sessions
      ensures SessionSound(d', sessions[i])
    {
      SessionAfterTrim(d, d', sessions[i]);
    }
  }

  lemma ElsewhereSessions(d: Db, sessions: map<nat, Session>, t: Timed)
    requires SessionsSound(d, sessions) && d.nextId !in d.events && !IsForward(d, t)
    requires forall i | i in sessions :: !Blocks(sessions[i], d, Apply(d, t))
    ensures SessionsSound(Apply(d, t), sessions)
  {
    if t.call.SendCall? {
      OwnerSendSessions(d, sessions, t);
    } else {
      OthersTrim(d, t);
      TrimSessions(d, Apply(d, t), sessions);
    }
  }

  // ---------------------------------------------------------------- every schedule

  ghost predicate WorldSound(d0: Db, w: World) {
    GuestListsSound(w.db) && SessionsSound(w.db, w.sessions) && LogSound(d0, w.db, w.log)
  }

  lemma OwnStepSound(d0: Db, w: World, a: Action)
    requires WorldSound(d0, w) && !a.Elsewhere? && !a.Commit?
    ensures WorldSound(d0, Next(w, a))
  {
    match a
    case Begin(id, now, e, sender, guest) => BeginQuiet(d0, w, id, now, e, sender, guest);
    case Lock(id) =>
      if id in w.sessions && w.sessions[id].phase.Begun? {
        LockQuiet(d0, w, id);
      }
    case Count(id) =>
      if id in w.sessions && w.sessions[id].phase.Locked? {
        CountQuiet(d0, w, id);
      }
    case Insert(id) =>
      if id in w.sessions && w.sessions[id].phase.Counted? {
        InsertQuiet(d0, w, id);
      }
    case Abort(id) =>
      if id in w.sessions && Open(w.sessions[id]) {
        AdvanceSound(w.db, w.sessions, id, w.sessions[id].(phase := Aborted));
      }
  }

  lemma StepSound(d0: Db, w: World, a: Action)
    requires WorldSound(d0, w)
    ensures WorldSound(d0, Next(w, a))
  {
    match a
    case Commit(id) =>
      if id in w.sessions && w.sessions[id].phase.Inserted? {
        CommitSessions(w, id);
        CommitLog(d0, w, id);
        CommitKeepsLists(w, id);
      }
    case Elsewhere(t) =>
      if DoElsewhere(w, t) != w {
        ElsewhereSessions(w.db, w.sessions, t);
        LogOther(d0, w.db, w.log, t);
        CallKeepsSound(w.db, t);
      }
    case _ => OwnStepSound(d0, w, a);
  }

  lemma {:induction false} ScheduleSound(d0: Db, actions: seq<Action>)
    requires GuestListsSound(d0)
    ensures WorldSound(d0, Schedule(World(d0, map[], []), actions))
  {
    if actions != [] {
      ScheduleSound(d0, actions[..|actions| - 1]);
      StepSound(d0, Schedule(World(d0, map[], []), actions[..|actions| - 1]), actions[|actions| - 1]);
    }
  }

  /** The log's entry at `i` is the one of session `id`, which has ended with this answer. */
  ghost predicate IsEntryOf(w: World, i: nat, id: nat) {
    && i < |w.log| && id in w.sessions && w.sessions[id].phase.Finished?
    && w.log[i] == LogEntry(id, w.sessions[id], w.sessions[id].phase.result)
  }

  /** Transactions that have ended without an abort and forwards in the log correspond one to one. */
  ghost predicate OneEntryEach(w: World) {
    && (forall i | 0 <= i < |w.log| && w.log[i].Forward? :: IsEntryOf(w, i, w.log[i].id))
    && (forall id | id in w.sessions && w.sessions[id].phase.Finished? :: exists i: nat :: IsEntryOf(w, i, id))
    && (forall i, j | 0 <= i < j < |w.log| && w.log[i].Forward? && w.log[j].Forward? :: w.log[i].id != w.log[j].id)
  }

  lemma FinishEntered(w: World, id: nat, result: Result<Invite>)
    requires OneEntryEach(w) && id in w.sessions && Open(w.sessions[id])
    ensures OneEntryEach(Finish(w, id, result))
  {
    var w' := Finish(w, id, result);
    var n := |w.log|;
    forall i | 0 <= i < |w'.log| && w'.log[i].Forward?
      ensures IsEntryOf(w', i, w'.log[i].id)
      ensures i < n ==> w'.log[i].id != id
    {
      assert i < n ==> w'.log[i] == w.log[i] && IsEntryOf(w, i, w.log[i].id);
    }
    forall i | i in w'.sessions && w'.sessions[i].phase.Finished?
      ensures exists m: nat :: IsEntryOf(w', m, i)
    {
      if i == id {
        assert IsEntryOf(w', n, id);
      } else {
        var m: nat :| IsEntryOf(w, m, i);
        assert IsEntryOf(w', m, i);
      }
    }
  }

  /** A step of an open session that does not end it, and anything that is no session's step. */
  lemma OpenEntered(w: World, w': World)
    requires OneEntryEach(w)
    requires w'.log == w.log || exists t :: w'.log == w.log + [Other(t)]
    requires forall id | id in w.sessions && w.sessions[id].phase.Finished? :: id in w'.sessions && w'.sessions[id] == w.sessions[id]
    requires forall id | id in w'.sessions && w'.sessions[id].phase.Finished? :: id in w.sessions && w'.sessions[id] == w.sessions[id]
    ensures OneEntryEach(w')
  {
    forall i | 0 <= i < |w'.log| && w'.log[i].Forward?
      ensures IsEntryOf(w', i, w'.log[i].id)
    {
      assert IsEntryOf(w, i, w.log[i].id);
    }
    forall id | id in w'.sessions && w'.sessions[id].phase.Finished?
      ensures exists i: nat :: IsEntryOf(w', i, id)
    {
      var i: nat :| IsEntryOf(w, i, id);
      assert IsEntryOf(w', i, id);
    }
  }

  lemma StepEntered(w: World, a: Action)
    requires OneEntryEach(w)
    ensures OneEntryEach(Next(w, a))
  {
    var w' := Next(w, a);
    if w' != w {
      if a.Begin? || a.Abort? || a.Elsewhere? {
        OpenEntered(w, w');
      } else if w'.sessions[a.id].phase.Finished? {
        FinishEntered(w, a.id, w'.sessions[a.id].phase.result);
        CommitEntered(w, w', a);
      } else {
        OpenEntered(w, w');
      }
    }
  }

  /** Committing moves the tables too, which the log does not mind. */
  lemma CommitEntered(w: World, w': World, a: Action)
    requires (a.Lock? || a.Count? || a.Insert? || a.Commit?) && a.id in w.sessions
    requires w' == Next(w, a) != w && w'.sessions[a.id].phase.Finished?
    requires OneEntryEach(Finish(w, a.id, w'.sessions[a.id].phase.result))
    ensures OneEntryEach(w')
  {
    var f := Finish(w, a.id, w'.sessions[a.id].phase.result);
    assert w'.sessions == f.sessions && w'.log == f.log;
    OpenEntered(f, w');
  }

  /**
   Every schedule of steps ends in the state that the atomic forwards and the other calls reach
   one after the other in commit order; every transaction that has ended and was not aborted is in
   that order exactly once, with the answer the atomic forward gives there, and no other is.
   */
  lemma {:induction false} ScheduleIsSequential(d0: Db, actions: seq<Action>)
    requires GuestListsSound(d0)
    ensures var w := Schedule(World(d0, map[], []), actions);
            Replay(d0, w.log) == w.db && Answers(d0, w.log) && OneEntryEach(w)
  {
    ScheduleSound(d0, actions);
    if actions != [] {
      ScheduleIsSequential(d0, actions[..|actions| - 1]);
      StepEntered(Schedule(World(d0, map[], []), actions[..|actions| - 1]), actions[|actions| - 1]);
    }
  }

  /** At each commit of any schedule the sender is accepted and below its spread in the committed state. */
  lemma CommitsAreSafe(d0: Db, actions: seq<Action>, id: nat)
    requires GuestListsSound(d0)
    ensures var w := Schedule(World(d0, map[], []), actions);
            Next(w, Commit(id)).db != w.db ==>
              id in w.sessions && HasBudget(w.db, w.sessions[id].e, w.sessions[id].sender)
  {
    ScheduleSound(d0, actions);
    var w := Schedule(World(d0, map[], []), actions);
    if id in w.sessions && w.sessions[id].phase.Inserted? {
      CommitGrants(w, id);
    }
  }
}
