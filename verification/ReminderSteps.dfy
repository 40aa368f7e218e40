/**
 The daily job taken apart: it lists, inserts one reminder at a time, lists again and inserts
 again, beside other jobs and every other call.  Nothing locks the listings, so two jobs can both
 raise a reminder; `ReminderStepsUnique` says exactly when they do.
 */
module ReminderSteps {
  import opened Tables
  import opened InviteRules
  import opened ReminderRules
  import opened FeedRules
  import opened AccountRules
  import opened Protocol
  import opened Shapes
  import opened Reminders
  import Scenarios

  /** A batch was listed when the log had `since` entries and has inserted `done` of its rows. */
  datatype Phase =
    | Started
    | Raising(kind: NotificationKind, order: seq<InviteKey>, done: nat, since: nat)

  datatype Job = Job(now: Instant, phase: Phase)

  /** A reminder that was delivered, or an account whose notifications were deleted. */
  datatype Entry =
    | Sent(job: nat, kind: NotificationKind, k: InviteKey, since: nat)
    | Cleared(user: UserId)

  datatype World = World(db: Db, jobs: map<nat, Job>, log: seq<Entry>)

  datatype Action =
    | Start(id: nat, now: Instant)
    | List(id: nat, order: seq<InviteKey>)
    | Insert(id: nat, delivers: bool)
    | Elsewhere(t: Timed)

  // ---------------------------------------------------------------- steps

  function Advance(w: World, id: nat, phase: Phase): World
    requires id in w.jobs
  {
    w.(jobs := w.jobs[id := w.jobs[id].(phase := phase)])
  }

  /** The first listing, or the second once every row of the first was tried. */
  ghost function DoList(w: World, id: nat, order: seq<InviteKey>): World
    requires id in w.jobs
  {
    var job := w.jobs[id];
    if job.phase.Started? && Lists(order, DeadlineRows(w.db, CalendarDay(job.now + DAY))) then
      Advance(w, id, Raising(RsvpDeadlineReminder, order, 0, |w.log|))
    else if job.phase.Raising? && job.phase.kind == RsvpDeadlineReminder && job.phase.done == |job.phase.order|
         && Lists(order, StartingRows(w.db, CalendarDay(job.now))) then
      Advance(w, id, Raising(EventStartingToday, order, 0, |w.log|))
    else w
  }

  function DoInsert(w: World, id: nat, delivers: bool): World
    requires id in w.jobs
  {
    var p := w.jobs[id].phase;
    if !p.Raising? || p.done >= |p.order| then w
    else
      var k := p.order[p.done];
      var next := Advance(w, id, p.(done := p.done + 1));
      if delivers then next.(db := Notify(w.db, Reminder(k, p.kind), true), log := w.log + [Sent(id, p.kind, k, p.since)])
      else next
  }

  /** Jobs run as jobs only; of the other calls, a deleted account takes its notifications along. */
  ghost function DoElsewhere(w: World, t: Timed): World {
    if t.call.RemindCall? || !Legal(w.db, t) then w
    else
      w.(db := Apply(w.db, t),
         log := if t.call.DeleteUserCall? && Deletable(w.db, t.call.actor) then w.log + [Cleared(t.call.actor)] else w.log)
  }

  ghost function Next(w: World, a: Action): World {
    match a
    case Start(id, now) => if id in w.jobs then w else w.(jobs := w.jobs[id := Job(now, Started)])
    case List(id, order) => if id in w.jobs then DoList(w, id, order) else w
    case Insert(id, delivers) => if id in w.jobs then DoInsert(w, id, delivers) else w
    case Elsewhere(t) => DoElsewhere(w, t)
  }

  ghost function Schedule(w: World, actions: seq<Action>): World {
    if actions == [] then w else Next(Schedule(w, actions[..|actions| - 1]), actions[|actions| - 1])
  }

  // ---------------------------------------------------------------- counting reminders

  datatype Tag = Tag(user: UserId, kind: NotificationKind, event: EventId)

  function TagOf(n: Notification): Tag {
    Tag(n.user, n.kind, n.event)
  }

  function TagFor(kind: NotificationKind, k: InviteKey): Tag {
    Tag(k.guest, kind, k.event)
  }

  function Count(notes: seq<Notification>, tag: Tag): nat {
    if notes == [] then 0
    else Count(notes[..|notes| - 1], tag) + if TagOf(notes[|notes| - 1]) == tag then 1 else 0
  }

  /** How many reminders with this tag there are, going by the log alone. */
  function Logged(start: seq<Notification>, log: seq<Entry>, tag: Tag): nat {
    if log == [] then Count(start, tag)
    else
      var before, entry := Logged(start, log[..|log| - 1], tag), log[|log| - 1];
      match entry
      case Sent(_, kind, k, _) => before + if TagFor(kind, k) == tag then 1 else 0
      case Cleared(u) => if u == tag.user then 0 else before
  }

  lemma {:induction false} CountAppend(a: seq<Notification>, b: seq<Notification>, tag: Tag)
    ensures Count(a + b, tag) == Count(a, tag) + Count(b, tag)
  {
    if b == [] {
      assert a + b == a;
    } else {
      assert (a + b)[..|a + b| - 1] == a + b[..|b| - 1];
      CountAppend(a, b[..|b| - 1], tag);
    }
  }

  lemma {:induction false} CountNone(notes: seq<Notification>, tag: Tag)
    ensures Count(notes, tag) == 0 <==> forall n | n in notes :: TagOf(n) != tag
  {
    if notes != [] {
      var rest, last := notes[..|notes| - 1], notes[|notes| - 1];
      assert notes == rest + [last];
      CountNone(rest, tag);
    }
  }

  lemma {:induction false} UniqueIff(notes: seq<Notification>)
    ensures RemindersUnique(notes) <==> forall tag: Tag | IsReminder(tag.kind) :: Count(notes, tag) <= 1
  {
    if notes != [] {
      var rest, last := notes[..|notes| - 1], notes[|notes| - 1];
      assert notes == rest + [last];
      UniqueIff(rest);
      CountNone(rest, TagOf(last));
      UniqueLast(rest, last);
      forall tag: Tag
        ensures Count(notes, tag) == Count(rest, tag) + if TagOf(last) == tag then 1 else 0
      {
      }
    }
  }

  lemma UniqueLast(rest: seq<Notification>, last: Notification)
    ensures RemindersUnique(rest + [last]) <==> RemindersUnique(rest) && forall n | n in rest :: !SameReminder(n, last)
  {
    var notes := rest + [last];
    if RemindersUnique(notes) {
      forall i, j | 0 <= i < j < |rest|
        ensures !SameReminder(rest[i], rest[j])
      {
        assert !SameReminder(notes[i], notes[j]);
      }
      forall n | n in rest
        ensures !SameReminder(n, last)
      {
        var i :| 0 <= i < |rest| && rest[i] == n;
        assert !SameReminder(notes[i], notes[|rest|]);
      }
    }
  }

  lemma {:induction false} CountAfterVisit(notes: seq<Notification>, u: UserId, tag: Tag)
    ensures Count(MarkRead(notes, u), tag) == Count(notes, tag)
  {
    if notes != [] {
      assert MarkRead(notes, u)[..|notes| - 1] == MarkRead(notes[..|notes| - 1], u);
      CountAfterVisit(notes[..|notes| - 1], u, tag);
    }
  }

  lemma {:induction false} CountOthers(notes: seq<Notification>, u: UserId, tag: Tag)
    ensures Count(Others(notes, u), tag) == if tag.user == u then 0 else Count(notes, tag)
  {
    if notes != [] {
      var rest, last := notes[..|notes| - 1], notes[|notes| - 1];
      CountOthers(rest, u, tag);
      CountAppend(Others(rest, u), if last.user == u then [] else [last], tag);
    }
  }

  // ---------------------------------------------------------------- other calls

  lemma AppendedCounts(notes: seq<Notification>, more: seq<Notification>, tag: Tag)
    requires IsReminder(tag.kind) && forall n | n in more :: !IsReminder(n.kind)
    ensures Count(notes + more, tag) == Count(notes, tag)
  {
    CountAppend(notes, more, tag);
    CountNone(more, tag);
  }

  lemma EventSideCount(d: Db, t: Timed, tag: Tag)
    requires EventSide(t.call) && IsReminder(tag.kind)
    ensures Count(Apply(d, t).notifications, tag) == Count(d.notifications, tag)
  {
    match t.call
    case CreateEventCall(ev) =>
      assert CreateEvent(d, t.now, ev).db.notifications == d.notifications;
    case UpdateEventCall(e, p, a, order, lost) =>
      UpdateNotes(d, t.now, e, p, a, order, lost);
      FanOutNoReminder(order, e, a, lost);
      AppendedCounts(d.notifications, FanOut(order, e, a, lost), tag);
    case DeleteEventCall(e, a) =>
      assert DeleteEvent(d, e, a).db.notifications == d.notifications;
  }

  lemma GuestSideCount(d: Db, t: Timed, tag: Tag)
    requires GuestSide(t.call) && IsReminder(tag.kind)
    ensures Count(Apply(d, t).notifications, tag) == Count(d.notifications, tag)
  {
    GuestSideNotes(d, t);
    var d' := Apply(d, t);
    if d'.notifications != d.notifications {
      var n :| d'.notifications == d.notifications + [n] && !IsReminder(n.kind) && !n.read;
      AppendedCounts(d.notifications, [n], tag);
    }
  }

  lemma RestCount(d: Db, t: Timed, tag: Tag)
    requires t.call.VisitCall? || t.call.RegisterCall? || t.call.InviteByEmailCall?
    ensures Count(Apply(d, t).notifications, tag) == Count(d.notifications, tag)
  {
    match t.call
    case VisitCall(u, page) => CountAfterVisit(d.notifications, u, tag);
    case RegisterCall(name, email, address, pending, faults) => RegisterNotes(d, name, email, address, pending, faults);
    case InviteByEmailCall(a, email, sends) => InviteByEmailNotes(d, t.now, a, email, sends);
  }

  lemma DeleteUserCount(d: Db, now: Instant, u: UserId, tag: Tag)
    ensures Count(DeleteUser(d, now, u).db.notifications, tag)
         == if Deletable(d, u) && tag.user == u then 0 else Count(d.notifications, tag)
  {
    CountOthers(d.notifications, u, tag);
    assert DeleteUser(d, now, u).db == if Deletable(d, u) then Erased(d, now, u) else d;
  }

  lemma ElsewhereCount(start: seq<Notification>, w: World, t: Timed, tag: Tag)
    requires IsReminder(tag.kind) && Count(w.db.notifications, tag) == Logged(start, w.log, tag)
    ensures Count(DoElsewhere(w, t).db.notifications, tag) == Logged(start, DoElsewhere(w, t).log, tag)
  {
    if EventSide(t.call) {
      EventSideCount(w.db, t, tag);
    } else if GuestSide(t.call) {
      GuestSideCount(w.db, t, tag);
    } else if t.call.DeleteUserCall? {
      DeleteUserCount(w.db, t.now, t.call.actor, tag);
      assert (w.log + [Cleared(t.call.actor)])[..|w.log|] == w.log;
    } else if !t.call.RemindCall? {
      RestCount(w.db, t, tag);
    }
  }

  // ---------------------------------------------------------------- what every schedule keeps

  predicate SameTag(a: Entry, b: Entry) {
    a.Sent? && b.Sent? && TagFor(a.kind, a.k) == TagFor(b.kind, b.k)
  }

  /** When the batch was listed the reminder was not there, and the batch delivers it once. */
  ghost predicate EntrySound(start: seq<Notification>, log: seq<Entry>, j: nat)
    requires j < |log|
  {
    log[j].Sent? ==>
      && IsReminder(log[j].kind) && log[j].since <= j
      && Logged(start, log[..log[j].since], TagFor(log[j].kind, log[j].k)) == 0
      && forall i | log[j].since <= i < j && SameTag(log[i], log[j]) :: log[i].job != log[j].job
  }

  ghost predicate JobSound(start: seq<Notification>, log: seq<Entry>, id: nat, p: Phase) {
    p.Raising? ==>
      && IsReminder(p.kind) && p.done <= |p.order| && p.since <= |log|
      && (forall i, j | 0 <= i < j < |p.order| :: p.order[i] != p.order[j])
      && (forall k | k in p.order :: Logged(start, log[..p.since], TagFor(p.kind, k)) == 0)
      && (forall i | p.since <= i < |log| && log[i].Sent? && log[i].job == id :: log[i].kind == p.kind && log[i].k in p.order[..p.done])
  }

  ghost predicate LogSound(start: seq<Notification>, log: seq<Entry>) {
    forall j | 0 <= j < |log| :: EntrySound(start, log, j)
  }

  ghost predicate JobsSound(start: seq<Notification>, log: seq<Entry>, jobs: map<nat, Job>) {
    forall id | id in jobs :: JobSound(start, log, id, jobs[id].phase)
  }

  ghost predicate CountsLogged(start: seq<Notification>, notes: seq<Notification>, log: seq<Entry>) {
    forall tag: Tag | IsReminder(tag.kind) :: Count(notes, tag) == Logged(start, log, tag)
  }

  ghost predicate WorldSound(start: seq<Notification>, w: World) {
    LogSound(start, w.log) && JobsSound(start, w.log, w.jobs) && CountsLogged(start, w.db.notifications, w.log)
  }

  /** One more entry leaves what is known of the earlier ones. */
  lemma EntryAdded(start: seq<Notification>, log: seq<Entry>, entry: Entry)
    requires LogSound(start, log)
    requires EntrySound(start, log + [entry], |log|)
    ensures LogSound(start, log + [entry])
  {
    var log' := log + [entry];
    forall j | 0 <= j < |log'|
      ensures EntrySound(start, log', j)
    {
      if j < |log| {
        assert EntrySound(start, log, j);
        if log[j].Sent? {
          assert log'[..log[j].since] == log[..log[j].since];
        }
      }
    }
  }

  lemma OtherJobAfter(start: seq<Notification>, log: seq<Entry>, entry: Entry, id: nat, p: Phase)
    requires JobSound(start, log, id, p) && (entry.Sent? ==> entry.job != id)
    ensures JobSound(start, log + [entry], id, p)
  {
    if p.Raising? {
      assert (log + [entry])[..p.since] == log[..p.since];
    }
  }

  lemma ListSound(start: seq<Notification>, w: World, id: nat, kind: NotificationKind, order: seq<InviteKey>)
    requires WorldSound(start, w) && id in w.jobs && IsReminder(kind)
    requires forall i, j | 0 <= i < j < |order| :: order[i] != order[j]
    requires forall k | k in order :: !Reminded(w.db.notifications, k, kind)
    ensures WorldSound(start, Advance(w, id, Raising(kind, order, 0, |w.log|)))
  {
    forall k | k in order
      ensures Logged(start, w.log[..|w.log|], TagFor(kind, k)) == 0
    {
      assert w.log[..|w.log|] == w.log;
      CountNone(w.db.notifications, TagFor(kind, k));
    }
  }

  lemma DeliverSound(start: seq<Notification>, w: World, id: nat)
    requires WorldSound(start, w) && id in w.jobs
    ensures WorldSound(start, DoInsert(w, id, true))
  {
    var p := w.jobs[id].phase;
    if p.Raising? && p.done < |p.order| {
      var k := p.order[p.done];
      var entry := Sent(id, p.kind, k, p.since);
      var log' := w.log + [entry];
      assert JobSound(start, w.log, id, p);
      assert k in p.order && k !in p.order[..p.done];
      assert log'[..p.since] == w.log[..p.since];
      EntryAdded(start, w.log, entry);
      assert JobSound(start, log', id, p.(done := p.done + 1)) by {
        assert p.order[..p.done + 1] == p.order[..p.done] + [k];
      }
      forall i | i in w.jobs && i != id
        ensures JobSound(start, log', i, w.jobs[i].phase)
      {
        OtherJobAfter(start, w.log, entry, i, w.jobs[i].phase);
      }
      forall tag: Tag | IsReminder(tag.kind)
        ensures Count(w.db.notifications + [Reminder(k, p.kind)], tag) == Logged(start, log', tag)
      {
        assert log'[..|w.log|] == w.log;
        CountAppend(w.db.notifications, [Reminder(k, p.kind)], tag);
        assert Count([Reminder(k, p.kind)], tag) == if TagFor(p.kind, k) == tag then 1 else 0;
      }
    }
  }

  lemma LoseSound(start: seq<Notification>, w: World, id: nat)
    requires WorldSound(start, w) && id in w.jobs
    ensures WorldSound(start, DoInsert(w, id, false))
  {
    var p := w.jobs[id].phase;
    if p.Raising? && p.done < |p.order| {
      assert JobSound(start, w.log, id, p);
      assert p.order[..p.done + 1] == p.order[..p.done] + [p.order[p.done]];
    }
  }

  lemma ElsewhereSound(start: seq<Notification>, w: World, t: Timed)
    requires WorldSound(start, w)
    ensures WorldSound(start, DoElsewhere(w, t))
  {
    var w' := DoElsewhere(w, t);
    forall tag: Tag | IsReminder(tag.kind)
      ensures Count(w'.db.notifications, tag) == Logged(start, w'.log, tag)
    {
      ElsewhereCount(start, w, t, tag);
    }
    if w'.log != w.log {
      var entry := Cleared(t.call.actor);
      EntryAdded(start, w.log, entry);
      forall id | id in w.jobs
        ensures JobSound(start, w'.log, id, w.jobs[id].phase)
      {
        OtherJobAfter(start, w.log, entry, id, w.jobs[id].phase);
      }
    }
  }

  lemma StepSound(start: seq<Notification>, w: World, a: Action)
    requires WorldSound(start, w)
    ensures WorldSound(start, Next(w, a))
  {
    match a
    case Start(id, now) =>
    case List(id, order) =>
      if id in w.jobs && DoList(w, id, order) != w {
        ListSound(start, w, id, if w.jobs[id].phase.Started? then RsvpDeadlineReminder else EventStartingToday, order);
      }
    case Insert(id, delivers) =>
      if id in w.jobs {
        if delivers { DeliverSound(start, w, id); } else { LoseSound(start, w, id); }
      }
    case Elsewhere(t) => ElsewhereSound(start, w, t);
  }

  lemma {:induction false} ScheduleSound(d: Db, actions: seq<Action>)
    ensures WorldSound(d.notifications, Schedule(World(d, map[], []), actions))
  {
    if actions != [] {
      ScheduleSound(d, actions[..|actions| - 1]);
      StepSound(d.notifications, Schedule(World(d, map[], []), actions[..|actions| - 1]), actions[|actions| - 1]);
    }
  }

  // ---------------------------------------------------------------- when a reminder is sent twice

  /** The user's notifications were not deleted after entry `i`. */
  ghost predicate Standing(log: seq<Entry>, i: nat)
    requires i < |log| && log[i].Sent?
  {
    forall m | i < m < |log| :: log[m] != Cleared(log[i].k.guest)
  }

  /** Job `log[j].job` had listed the reminder before `log[i].job` delivered it, and then delivered it too. */
  ghost predicate Doubled(log: seq<Entry>, i: nat, j: nat) {
    && i < j < |log| && SameTag(log[i], log[j]) && log[i].job != log[j].job
    && log[j].since <= i && Standing(log, i)
  }

  lemma StandingGrows(log: seq<Entry>, i: nat)
    requires i < |log| - 1 && log[i].Sent? && Standing(log[..|log| - 1], i)
    requires log[|log| - 1] != Cleared(log[i].k.guest)
    ensures Standing(log, i)
  {
    var init := log[..|log| - 1];
    forall m | i < m < |log|
      ensures log[m] != Cleared(log[i].k.guest)
    {
      assert m < |init| ==> init[m] == log[m] && init[m] != Cleared(init[i].k.guest);
    }
  }

  lemma {:induction false} StandingCounts(start: seq<Notification>, log: seq<Entry>, i: nat)
    requires i < |log| && log[i].Sent? && Standing(log, i)
    ensures Logged(start, log, TagFor(log[i].kind, log[i].k)) >= 1
  {
    var n := |log| - 1;
    if i < n {
      assert log[n] != Cleared(log[i].k.guest);
      StandingCounts(start, log[..n], i);
    }
  }

  lemma {:induction false} DoubledCounts(start: seq<Notification>, log: seq<Entry>, i: nat, j: nat)
    requires Doubled(log, i, j)
    ensures Logged(start, log, TagFor(log[i].kind, log[i].k)) >= 2
  {
    var n := |log| - 1;
    if j == n {
      StandingCounts(start, log[..n], i);
    } else {
      assert log[n] != Cleared(log[i].k.guest);
      DoubledCounts(start, log[..n], i, j);
    }
  }

  /** A count that rose from nothing rose by an entry that still stands. */
  lemma {:induction false} SentSince(start: seq<Notification>, log: seq<Entry>, tag: Tag, since: nat) returns (i: nat)
    requires since <= |log| && Logged(start, log[..since], tag) == 0 && Logged(start, log, tag) >= 1
    ensures since <= i < |log| && log[i].Sent? && TagFor(log[i].kind, log[i].k) == tag && Standing(log, i)
  {
    var n := |log| - 1;
    assert log[..|log|] == log;
    if log[n].Sent? && TagFor(log[n].kind, log[n].k) == tag {
      i := n;
    } else {
      assert log[..n][..since] == log[..since];
      i := SentSince(start, log[..n], tag, since);
      assert log[n] != Cleared(tag.user);
    }
  }

  lemma {:induction false} TwiceDoubled(start: seq<Notification>, log: seq<Entry>, tag: Tag) returns (i: nat, j: nat)
    requires LogSound(start, log) && Count(start, tag) <= 1 && Logged(start, log, tag) >= 2
    ensures Doubled(log, i, j) && TagFor(log[i].kind, log[i].k) == tag
  {
    var n := |log| - 1;
    assert EntrySound(start, log, n);
    var init := log[..n];
    if log[n].Sent? && TagFor(log[n].kind, log[n].k) == tag {
      j := n;
      assert init[..log[n].since] == log[..log[n].since];
      i := SentSince(start, init, tag, log[n].since);
      StandingGrows(log, i);
    } else {
      assert LogSound(start, init) by {
        forall m | 0 <= m < |init|
          ensures EntrySound(start, init, m)
        {
          assert EntrySound(start, log, m);
          if log[m].Sent? {
            assert init[..log[m].since] == log[..log[m].since];
          }
        }
      }
      i, j := TwiceDoubled(start, init, tag);
      assert log[n] != Cleared(tag.user);
      StandingGrows(log, i);
    }
  }

  /**
   Whatever jobs and calls run beside each other and whichever inserts fail: some reminder is there
   twice exactly when two jobs had both listed it before the first of them delivered it and both
   delivered it, the account not being deleted since.
   */
  lemma ReminderStepsUnique(d: Db, actions: seq<Action>)
    requires RemindersUnique(d.notifications)
    ensures var w := Schedule(World(d, map[], []), actions);
            RemindersUnique(w.db.notifications) <==> !exists i: nat, j: nat :: Doubled(w.log, i, j)
  {
    var w := Schedule(World(d, map[], []), actions);
    ScheduleSound(d, actions);
    UniqueIff(d.notifications);
    UniqueIff(w.db.notifications);
    if i: nat, j: nat :| Doubled(w.log, i, j) {
      var tag := TagFor(w.log[i].kind, w.log[i].k);
      DoubledCounts(d.notifications, w.log, i, j);
      assert EntrySound(d.notifications, w.log, i);
      assert Count(w.db.notifications, tag) == Logged(d.notifications, w.log, tag);
    } else if !RemindersUnique(w.db.notifications) {
      var tag: Tag :| IsReminder(tag.kind) && Count(w.db.notifications, tag) > 1;
      var i, j := TwiceDoubled(d.notifications, w.log, tag);
      assert false;
    }
  }

  // ---------------------------------------------------------------- a job with nothing beside it

  /** The inserts of one batch; those for `lost` rows fail. */
  function Inserts(id: nat, order: seq<InviteKey>, lost: set<InviteKey>): seq<Action> {
    if order == [] then []
    else Inserts(id, order[..|order| - 1], lost) + [Insert(id, order[|order| - 1] !in lost)]
  }

  function JobSteps(id: nat, now: Instant, run: ReminderRun): seq<Action> {
    [Start(id, now), List(id, run.deadlines)] + Inserts(id, run.deadlines, run.lostDeadlines)
    + ([List(id, run.starting)] + Inserts(id, run.starting, run.lostStarting))
  }

  lemma Then(w: World, steps: seq<Action>, a: Action)
    ensures Schedule(w, steps + [a]) == Next(Schedule(w, steps), a)
  {
    assert (steps + [a])[..|steps|] == steps;
  }

  lemma {:induction false} ScheduleConcat(w: World, a: seq<Action>, b: seq<Action>)
    ensures Schedule(w, a + b) == Schedule(Schedule(w, a), b)
  {
    if b == [] {
      assert a + b == a;
    } else {
      var n := |b| - 1;
      var rest, last := b[..n], b[n];
      ScheduleConcat(w, a, rest);
      Then(w, a + rest, last);
      Then(Schedule(w, a), rest, last);
      assert a + b == (a + rest) + [last] && b == rest + [last];
    }
  }

  lemma InsertRaises(w: World, id: nat, delivers: bool)
    requires id in w.jobs && w.jobs[id].phase.Raising? && w.jobs[id].phase.done < |w.jobs[id].phase.order|
    ensures var p, w' := w.jobs[id].phase, DoInsert(w, id, delivers);
            && w'.db == Notify(w.db, Reminder(p.order[p.done], p.kind), delivers)
            && id in w'.jobs && w'.jobs[id] == w.jobs[id].(phase := p.(done := p.done + 1))
  {
  }

  /** After the inserts of the first `m` rows of a batch. */
  lemma {:induction false} BatchRaises(w: World, id: nat, order: seq<InviteKey>, lost: set<InviteKey>, m: nat)
    requires id in w.jobs && w.jobs[id].phase.Raising? && w.jobs[id].phase.order == order && w.jobs[id].phase.done == 0
    requires m <= |order|
    ensures var w' := Schedule(w, Inserts(id, order[..m], lost));
            && w'.db == w.db.(notifications := w.db.notifications + ReminderRules.Raise(order[..m], w.jobs[id].phase.kind, lost))
            && id in w'.jobs && w'.jobs[id] == w.jobs[id].(phase := w.jobs[id].phase.(done := m))
  {
    if m > 0 {
      var rest, k, kind := order[..m - 1], order[m - 1], w.jobs[id].phase.kind;
      BatchRaises(w, id, order, lost, m - 1);
      assert order[..m] == rest + [k];
      var steps := Inserts(id, rest, lost);
      var w1 := Schedule(w, steps);
      Then(w, steps, Insert(id, k !in lost));
      InsertRaises(w1, id, k !in lost);
      assert Inserts(id, order[..m], lost) == steps + [Insert(id, k !in lost)];
      assert ReminderRules.Raise(order[..m], kind, lost)
          == ReminderRules.Raise(rest, kind, lost) + if k in lost then [] else [Reminder(k, kind)];
    }
  }

  /** Step by step with nothing in between, a job does what `DailyReminders` says in one go. */
  lemma JobAlone(w: World, id: nat, now: Instant, run: ReminderRun)
    requires id !in w.jobs && ReminderRunOf(w.db, now, run)
    ensures Schedule(w, JobSteps(id, now, run)).db == DailyReminders(w.db, run)
  {
    var first := [Start(id, now), List(id, run.deadlines)];
    var second := Inserts(id, run.deadlines, run.lostDeadlines);
    var third := [List(id, run.starting)];
    var fourth := Inserts(id, run.starting, run.lostStarting);
    var w1 := OpeningSteps(w, id, now, run.deadlines);
    assert run.deadlines[..|run.deadlines|] == run.deadlines && run.starting[..|run.starting|] == run.starting;
    BatchRaises(w1, id, run.deadlines, run.lostDeadlines, |run.deadlines|);
    var w2 := Schedule(w1, second);
    assert w2.db == AfterDeadlines(w.db, run);
    assert third[..0] == [];
    assert Schedule(w2, third) == DoList(w2, id, run.starting);
    BatchRaises(Schedule(w2, third), id, run.starting, run.lostStarting, |run.starting|);
    ScheduleConcat(w, first, second);
    ScheduleConcat(w, first + second, third + fourth);
    ScheduleConcat(w2, third, fourth);
  }

  lemma OpeningSteps(w: World, id: nat, now: Instant, order: seq<InviteKey>) returns (w': World)
    requires id !in w.jobs && Lists(order, DeadlineRows(w.db, CalendarDay(now + DAY)))
    ensures w' == Schedule(w, [Start(id, now), List(id, order)])
    ensures w' == w.(jobs := w.jobs[id := Job(now, Raising(RsvpDeadlineReminder, order, 0, |w.log|))])
  {
    var started := w.(jobs := w.jobs[id := Job(now, Started)]);
    Then(w, [], Start(id, now));
    assert [] + [Start(id, now)] == [Start(id, now)];
    assert Schedule(w, [Start(id, now)]) == started;
    Then(w, [Start(id, now)], List(id, order));
    assert [Start(id, now)] + [List(id, order)] == [Start(id, now), List(id, order)];
    w' := DoList(started, id, order);
  }

  // ---------------------------------------------------------------- it happens

  /** Two jobs of the same day that list the same accepted guest before either delivers. */
  function TwoJobs(k: InviteKey): seq<Action> {
    [Start(0, 0), List(0, [])] + [Start(1, 0), List(1, [])] + [List(0, [k]), List(1, [k]), Insert(0, true), Insert(1, true)]
  }

  lemma FourSteps(w: World, a: Action, b: Action, c: Action, e: Action)
    ensures Schedule(w, [a, b, c, e]) == Next(Next(Next(Next(w, a), b), c), e)
  {
    Then(w, [], a);
    assert [] + [a] == [a] && [a] + [b] == [a, b] && [a, b] + [c] == [a, b, c] && [a, b, c] + [e] == [a, b, c, e];
    Then(w, [a], b);
    Then(w, [a, b], c);
    Then(w, [a, b, c], e);
  }

  lemma BothListed(d: Db, k: InviteKey) returns (w: World)
    requires DeadlineRows(d, CalendarDay(0 + DAY)) == {} && StartingRows(d, CalendarDay(0)) == {k}
    ensures w == Schedule(World(d, map[], []), [Start(0, 0), List(0, [])] + [Start(1, 0), List(1, [])])
    ensures var listed := Job(0, Raising(RsvpDeadlineReminder, [], 0, 0));
            w == World(d, map[0 := listed, 1 := listed], [])
  {
    var w1 := OpeningSteps(World(d, map[], []), 0, 0, []);
    w := OpeningSteps(w1, 1, 0, []);
    ScheduleConcat(World(d, map[], []), [Start(0, 0), List(0, [])], [Start(1, 0), List(1, [])]);
  }

  lemma BothDeliver(w: World, k: InviteKey)
    requires StartingRows(w.db, CalendarDay(0)) == {k} && w.log == []
    requires var listed := Job(0, Raising(RsvpDeadlineReminder, [], 0, 0)); w.jobs == map[0 := listed, 1 := listed]
    ensures Schedule(w, [List(0, [k]), List(1, [k]), Insert(0, true), Insert(1, true)]).db.notifications
         == w.db.notifications + [Reminder(k, EventStartingToday)] + [Reminder(k, EventStartingToday)]
  {
    FourSteps(w, List(0, [k]), List(1, [k]), Insert(0, true), Insert(1, true));
    var raising := Raising(EventStartingToday, [k], 0, 0);
    var w1 := Advance(w, 0, raising);
    var w2 := Advance(w1, 1, raising);
    assert Next(w, List(0, [k])) == w1;
    assert Next(w1, List(1, [k])) == w2;
    var w3 := Next(w2, Insert(0, true));
    assert w3.db == Notify(w.db, Reminder(k, EventStartingToday), true) && w3.jobs[1].phase == raising;
  }

  lemma GuestIsListed()
    ensures DeadlineRows(Scenarios.GuestIsIn(), CalendarDay(0 + DAY)) == {}
    ensures StartingRows(Scenarios.GuestIsIn(), CalendarDay(0)) == {Scenarios.GUEST_KEY}
  {
    OnlyStarting(Scenarios.GuestIsIn(), Scenarios.GUEST_KEY, 0);
  }

  lemma OnlyStarting(d: Db, k: InviteKey, today: int)
    requires d.invites.Keys == {k} && d.invites[k].status == Accepted && d.notifications == []
    requires k.event in d.events && CalendarDay(d.events[k.event].date) == today
    ensures DeadlineRows(d, CalendarDay(0 + DAY)) == {} && StartingRows(d, today) == {k}
  {
  }

  /** From a state that a run of calls reaches, overlapping jobs tell the guest twice. */
  lemma TwoJobsSendTwice()
    ensures var d := Scenarios.GuestIsIn();
            && Reachable(d) && RemindersUnique(d.notifications)
            && !RemindersUnique(Schedule(World(d, map[], []), TwoJobs(Scenarios.GUEST_KEY)).db.notifications)
  {
    Scenarios.GuestIsInReachable();
    var d, k := Scenarios.GuestIsIn(), Scenarios.GUEST_KEY;
    GuestIsListed();
    var w := BothListed(d, k);
    BothDeliver(w, k);
    ScheduleConcat(World(d, map[], []), [Start(0, 0), List(0, [])] + [Start(1, 0), List(1, [])],
                   [List(0, [k]), List(1, [k]), Insert(0, true), Insert(1, true)]);
    var notes := Schedule(World(d, map[], []), TwoJobs(k)).db.notifications;
    assert SameReminder(notes[0], notes[1]);
  }
}
