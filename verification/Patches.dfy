/** Any number of updates: each field of an event shows the last accepted patch that carried it. */
module Patches {
  import opened Tables
  import opened InviteRules
  import opened CallEffects

  /** One update request, with the clock and the fan-out it meets. */
  datatype Attempt = Attempt(now: Instant, patch: EventPatch, actor: UserId, order: seq<Attendee>, lost: set<UserId>)

  /** The requests one after the other. */
  function Edited(d: Db, e: EventId, attempts: seq<Attempt>): Db {
    if attempts == [] then d
    else
      var n, a := |attempts| - 1, attempts[|attempts| - 1];
      UpdateEvent(Edited(d, e, attempts[..n]), a.now, e, a.patch, a.actor, a.order, a.lost).db
  }

  predicate AcceptedAt(d: Db, e: EventId, attempts: seq<Attempt>, i: nat)
    requires i < |attempts|
  {
    var a := attempts[i];
    UpdateEvent(Edited(d, e, attempts[..i]), a.now, e, a.patch, a.actor, a.order, a.lost).result.Ok?
  }

  lemma {:induction false} EventStays(d: Db, e: EventId, attempts: seq<Attempt>)
    requires e in d.events
    ensures e in Edited(d, e, attempts).events && Edited(d, e, attempts).events[e].owner == d.events[e].owner
  {
    if attempts != [] {
      EventStays(d, e, attempts[..|attempts| - 1]);
      EditStep(d, e, attempts);
    }
  }

  lemma EditStep(d: Db, e: EventId, attempts: seq<Attempt>)
    requires attempts != [] && e in Edited(d, e, attempts[..|attempts| - 1]).events
    ensures var n := |attempts| - 1;
            var before, d' := Edited(d, e, attempts[..n]), Edited(d, e, attempts);
            && e in d'.events
            && (if AcceptedAt(d, e, attempts, n) then Patched(before.events[e], attempts[n].patch, d'.events[e])
                else d'.events[e] == before.events[e])
  {
    var n := |attempts| - 1;
    var before, a := Edited(d, e, attempts[..n]), attempts[n];
    var row := MergedRow(before.events[e], a.patch);
    PatchedRow(before.events[e], a.patch);
    UpdateExactly(before, a.now, e, a.patch, a.actor, a.order, a.lost, row);
  }

  /** `carried` says what a patch gives a field that `field` reads. */
  ghost predicate Carries<T(!new)>(field: Event -> T, carried: EventPatch -> Option<T>) {
    forall row, p, row' | Patched(row, p, row') :: field(row') == if carried(p).Some? then carried(p).value else field(row)
  }

  /** Request `i` was accepted and carried the field, and no later one was and did. */
  ghost predicate LastCarried<T>(d: Db, e: EventId, attempts: seq<Attempt>, carried: EventPatch -> Option<T>, i: int) {
    && -1 <= i < |attempts|
    && (i >= 0 ==> AcceptedAt(d, e, attempts, i) && carried(attempts[i].patch).Some?)
    && forall j | i < j < |attempts| :: AcceptedAt(d, e, attempts, j) ==> carried(attempts[j].patch).None?
  }

  lemma {:induction false} LastCarriedStands<T(!new)>(d: Db, e: EventId, attempts: seq<Attempt>, field: Event -> T, carried: EventPatch -> Option<T>, i: int)
    requires e in d.events && Carries(field, carried) && LastCarried(d, e, attempts, carried, i)
    ensures e in Edited(d, e, attempts).events
    ensures field(Edited(d, e, attempts).events[e]) == if i < 0 then field(d.events[e]) else carried(attempts[i].patch).value
  {
    if attempts != [] {
      var n := |attempts| - 1;
      var init := attempts[..n];
      EventStays(d, e, init);
      EditStep(d, e, attempts);
      assert forall j | 0 <= j < n :: attempts[..j] == init[..j];
      assert forall j | 0 <= j < n :: AcceptedAt(d, e, init, j) == AcceptedAt(d, e, attempts, j);
      if i < n {
        LastCarriedStands(d, e, init, field, carried, i);
      }
    }
  }

  /**
   Name, date, deadline and default spread each hold what the last accepted patch that had one gave,
   or what they held at first; `-1` stands for no such patch.
   */
  lemma LastPatchStands(d: Db, e: EventId, attempts: seq<Attempt>, name: int, date: int, deadline: int, spread: int)
    requires e in d.events
    requires LastCarried(d, e, attempts, (p: EventPatch) => p.name, name)
    requires LastCarried(d, e, attempts, (p: EventPatch) => p.date, date)
    requires LastCarried(d, e, attempts, (p: EventPatch) => p.rsvpDeadline, deadline)
    requires LastCarried(d, e, attempts, (p: EventPatch) => p.defaultSpread, spread)
    ensures e in Edited(d, e, attempts).events
    ensures var row, row' := d.events[e], Edited(d, e, attempts).events[e];
            && row'.owner == row.owner
            && row'.name == (if name < 0 then row.name else attempts[name].patch.name.value)
            && row'.date == (if date < 0 then row.date else attempts[date].patch.date.value)
            && row'.rsvpDeadline == (if deadline < 0 then row.rsvpDeadline else attempts[deadline].patch.rsvpDeadline)
            && row'.defaultSpread == (if spread < 0 then row.defaultSpread else attempts[spread].patch.defaultSpread.value)
  {
    EventStays(d, e, attempts);
    LastCarriedStands(d, e, attempts, (ev: Event) => ev.name, (p: EventPatch) => p.name, name);
    LastCarriedStands(d, e, attempts, (ev: Event) => ev.date, (p: EventPatch) => p.date, date);
    LastCarriedStands(d, e, attempts, (ev: Event) => ev.defaultSpread, (p: EventPatch) => p.defaultSpread, spread);
    LastDeadlineStands(d, e, attempts, deadline);
  }

  lemma LastDeadlineStands(d: Db, e: EventId, attempts: seq<Attempt>, i: int)
    requires e in d.events && LastCarried(d, e, attempts, (p: EventPatch) => p.rsvpDeadline, i)
    ensures e in Edited(d, e, attempts).events
    ensures Edited(d, e, attempts).events[e].rsvpDeadline == if i < 0 then d.events[e].rsvpDeadline else attempts[i].patch.rsvpDeadline
  {
    var carried := (p: EventPatch) => if p.rsvpDeadline.Some? then Some(p.rsvpDeadline) else None;
    assert LastCarried(d, e, attempts, carried, i);
    LastCarriedStands(d, e, attempts, (ev: Event) => ev.rsvpDeadline, carried, i);
  }

  /** The icon a patch asks for: none when it clears, whatever else it has. */
  function IconAsked(p: EventPatch): Option<Option<string>> {
    if p.clearIcon then Some(None) else if p.icon.Some? then Some(p.icon) else None
  }

  /** The icon is what the last accepted patch that set or cleared it asked for. */
  lemma LastIconStands(d: Db, e: EventId, attempts: seq<Attempt>, i: int)
    requires e in d.events && LastCarried(d, e, attempts, IconAsked, i)
    ensures e in Edited(d, e, attempts).events
    ensures var row' := Edited(d, e, attempts).events[e];
            row'.icon == if i < 0 then d.events[e].icon else if attempts[i].patch.clearIcon then None else attempts[i].patch.icon
  {
    LastCarriedStands(d, e, attempts, (ev: Event) => ev.icon, IconAsked, i);
  }
}
