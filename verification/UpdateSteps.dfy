/**
 Updating an event as the service does it: read the row and check, then write without a lock.
 Between the two anything may happen, other updates included.
 */
module UpdateSteps {
  import opened Tables
  import opened InviteRules
  import opened Protocol
  import opened EventUpdates
  import Scenarios

  /** An update that has passed its check and has not been written. */
  datatype Checked = Checked(e: EventId, patch: EventPatch, actor: UserId)

  datatype World = World(db: Db, updates: map<nat, Checked>)

  /** The write carries the listing and the failing inserts of the fan-out. */
  datatype Action =
    | Check(id: nat, now: Instant, e: EventId, patch: EventPatch, actor: UserId)
    | Write(id: nat, order: seq<Attendee>, lost: set<UserId>)
    | Elsewhere(t: Timed)

  function DoCheck(w: World, id: nat, now: Instant, e: EventId, patch: EventPatch, actor: UserId): World {
    if id in w.updates || e !in w.db.events || w.db.events[e].owner != actor
       || UpdateRefused(w.db.events[e], patch, now).Some? then w
    else w.(updates := w.updates[id := Checked(e, patch, actor)])
  }

  /** The statement merges into the row it finds now; an event deleted meanwhile is not there. */
  function DoWrite(w: World, id: nat, order: seq<Attendee>, lost: set<UserId>): World
    requires id in w.updates
  {
    var u := w.updates[id];
    var rest := w.(updates := w.updates - {id});
    if u.e !in w.db.events || w.db.events[u.e].owner != u.actor then rest
    else rest.(db := w.db.(events := w.db.events[u.e := MergedRow(w.db.events[u.e], u.patch)],
                           notifications := w.db.notifications + FanOut(order, u.e, u.actor, lost)))
  }

  ghost function Next(w: World, a: Action): World {
    match a
    case Check(id, now, e, patch, actor) => DoCheck(w, id, now, e, patch, actor)
    case Write(id, order, lost) =>
      if id in w.updates && Lists(order, AttendeeRows(w.db, w.updates[id].e)) then DoWrite(w, id, order, lost) else w
    case Elsewhere(t) => if Legal(w.db, t) then w.(db := Apply(w.db, t)) else w
  }

  ghost function Schedule(w: World, actions: seq<Action>): World {
    if actions == [] then w else Next(Schedule(w, actions[..|actions| - 1]), actions[|actions| - 1])
  }

  /** Date and deadline come together or not at all. */
  predicate Balanced(p: EventPatch) {
    p.date.Some? == p.rsvpDeadline.Some?
  }

  /** An update that has passed its check carries a patch that some row in order passes with. */
  ghost predicate UpdatesSound(updates: map<nat, Checked>) {
    forall id | id in updates :: Balanced(updates[id].patch) && exists row, now :: UpdateRefused(row, updates[id].patch, now).None?
  }

  lemma StaleWriteInOrder(row: Event, p: EventPatch)
    requires InOrder(row) && Balanced(p) && exists read, now :: UpdateRefused(read, p, now).None?
    ensures InOrder(MergedRow(row, p))
  {
    var read, now :| UpdateRefused(read, p, now).None?;
    StaleCheckSafeIff(read, p, now);
  }

  lemma StepInOrder(w: World, a: Action)
    requires DeadlinesInOrder(w.db.events) && UpdatesSound(w.updates) && (a.Check? ==> Balanced(a.patch))
    ensures DeadlinesInOrder(Next(w, a).db.events) && UpdatesSound(Next(w, a).updates)
  {
    match a
    case Check(id, now, e, patch, actor) =>
      var w' := DoCheck(w, id, now, e, patch, actor);
      if w' != w {
        assert UpdateRefused(w.db.events[e], patch, now).None?;
      }
    case Write(id, order, lost) =>
      if id in w.updates {
        WriteInOrder(w, id, order, lost);
      }
    case Elsewhere(t) => CallInOrder(w.db, t);
  }

  lemma WriteInOrder(w: World, id: nat, order: seq<Attendee>, lost: set<UserId>)
    requires DeadlinesInOrder(w.db.events) && UpdatesSound(w.updates) && id in w.updates
    ensures DeadlinesInOrder(DoWrite(w, id, order, lost).db.events)
  {
    var u := w.updates[id];
    if u.e in w.db.events {
      StaleWriteInOrder(w.db.events[u.e], u.patch);
    }
  }

  /**
   Deadlines stay on or before their events over every schedule of checks, writes and other calls in
   which each payload carries both dates or neither.
   */
  lemma {:induction false} ScheduleInOrder(d: Db, actions: seq<Action>)
    requires DeadlinesInOrder(d.events)
    requires forall i | 0 <= i < |actions| && actions[i].Check? :: Balanced(actions[i].patch)
    ensures var w := Schedule(World(d, map[]), actions);
            DeadlinesInOrder(w.db.events) && UpdatesSound(w.updates)
  {
    if actions != [] {
      var n := |actions| - 1;
      ScheduleInOrder(d, actions[..n]);
      StepInOrder(Schedule(World(d, map[]), actions[..n]), actions[n]);
    }
  }

  /** An update whose write follows its check at once does what the call does in one step. */
  lemma UpdateAlone(w: World, id: nat, now: Instant, e: EventId, patch: EventPatch, actor: UserId, order: seq<Attendee>, lost: set<UserId>)
    requires id !in w.updates && Lists(order, AttendeeRows(w.db, e))
    ensures Schedule(w, [Check(id, now, e, patch, actor), Write(id, order, lost)]).db
         == UpdateEvent(w.db, now, e, patch, actor, order, lost).db
  {
    var steps := [Check(id, now, e, patch, actor), Write(id, order, lost)];
    var w1 := DoCheck(w, id, now, e, patch, actor);
    assert steps[..1] == [steps[0]] && steps[..1][..0] == [];
    assert Schedule(w, steps[..1]) == w1;
    assert Schedule(w, steps) == Next(w1, steps[1]);
    if w1 != w {
      assert DoWrite(w1, id, order, lost).db == w.db.(events := w.db.events[e := MergedRow(w.db.events[e], patch)],
                                                      notifications := w.db.notifications + FanOut(order, e, actor, lost));
    }
  }

  // ---------------------------------------------------------------- it happens

  const EARLIER := EventPatch(None, Some(55), None, None, None, false)
  const WITH_DEADLINE := EventPatch(None, None, Some(60), None, None, false)

  /** One tab moves the party, another sets a deadline; both have read before either writes. */
  function TwoTabs(): seq<Action> {
    var order := [Attendee(0, true)];
    [Check(0, 0, 3, WITH_DEADLINE, 0), Check(1, 0, 3, EARLIER, 0), Write(1, order, {}), Write(0, order, {})]
  }

  lemma TwoTabsWrite(w: World)
    requires w.updates == map[] && 3 in w.db.events && Lists([Attendee(0, true)], AttendeeRows(w.db, 3))
    requires w.db.events[3].owner == 0 && w.db.events[3].date == 100 && w.db.events[3].rsvpDeadline == Some(50)
    ensures var d' := Schedule(w, TwoTabs()).db;
            3 in d'.events && d'.events[3].date == 55 && d'.events[3].rsvpDeadline == Some(60)
  {
    var order, s := [Attendee(0, true)], TwoTabs();
    var w1 := w.(updates := map[0 := Checked(3, WITH_DEADLINE, 0)]);
    var w2 := w.(updates := map[0 := Checked(3, WITH_DEADLINE, 0), 1 := Checked(3, EARLIER, 0)]);
    assert s[..1][..0] == [] && s[..2][..1] == s[..1] && s[..3][..2] == s[..2] && s[..3] == s[..|s| - 1];
    assert Schedule(w, s[..1]) == DoCheck(w, 0, 0, 3, WITH_DEADLINE, 0) == w1;
    assert Schedule(w, s[..2]) == DoCheck(w1, 1, 0, 3, EARLIER, 0) == w2;
    var w3 := Schedule(w, s[..3]);
    assert w3 == DoWrite(w2, 1, order, {});
    assert AttendeeRows(w3.db, 3) == AttendeeRows(w.db, 3);
    assert Schedule(w, s) == DoWrite(w3, 0, order, {});
  }

  /** From a reachable state, two interleaved updates leave the deadline after the event. */
  lemma TwoTabsBreakOrder()
    ensures var d := Scenarios.PartyWith(map[], 0);
            && Reachable(d) && DeadlinesInOrder(d.events)
            && !DeadlinesInOrder(Schedule(World(d, map[]), TwoTabs()).db.events)
  {
    Scenarios.PartyReachable();
    var d := Scenarios.PartyWith(map[], 0);
    assert d.events[3] == Scenarios.PARTY;
    assert AttendeeRows(d, 3) == {Attendee(0, true)};
    TwoTabsWrite(World(d, map[]));
  }
}
