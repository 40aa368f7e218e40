/**
 How many events two users share, computed three ways: by the mock backend's loops, by the lateral
 join of the connection list, and by the grouped query for potential connections.
 */
module Attendance {
  import opened Tables

  datatype MockEvent = MockEvent(id: EventId, owner: UserId)
  datatype MockInvite = MockInvite(event: EventId, guest: UserId, status: InviteStatus)

  // ---------------------------------------------------------------- what the loops compute

  /** `events.find(...)`: the first match. */
  function FindOwner(events: seq<MockEvent>, e: EventId): set<UserId> {
    if events == [] then {}
    else if events[0].id == e then {events[0].owner}
    else FindOwner(events[1..], e)
  }

  function GuestsOf(invites: seq<MockInvite>, e: EventId): set<UserId> {
    set i | 0 <= i < |invites| && invites[i].event == e && invites[i].status != Declined :: invites[i].guest
  }

  function Attendees(events: seq<MockEvent>, invites: seq<MockInvite>, e: EventId): set<UserId> {
    FindOwner(events, e) + GuestsOf(invites, e)
  }

  function OwnedIds(events: seq<MockEvent>, u: UserId): set<EventId> {
    set i | 0 <= i < |events| && events[i].owner == u :: events[i].id
  }

  function InvitedIds(invites: seq<MockInvite>, u: UserId): set<EventId> {
    set i | 0 <= i < |invites| && invites[i].guest == u && invites[i].status != Declined :: invites[i].event
  }

  /** The events `u` attended: owned, or invited to and not declined. */
  function Attended(events: seq<MockEvent>, invites: seq<MockInvite>, u: UserId): set<EventId> {
    OwnedIds(events, u) + InvitedIds(invites, u)
  }

  function Ids(events: seq<MockEvent>): set<EventId> {
    set i | 0 <= i < |events| :: events[i].id
  }

  ghost predicate UniqueIds(events: seq<MockEvent>) {
    forall i, j | 0 <= i < j < |events| :: events[i].id != events[j].id
  }

  /** The in-memory arrays of the mock backend. */
  class MockBackend {
    var events: seq<MockEvent>
    var invites: seq<MockInvite>
    var connections: seq<ConnectionKey>

    method EventAttendees(e: EventId) returns (attendees: set<UserId>)
      ensures attendees == Attendees(events, invites, e)
    {
      attendees := {};
      var i := 0;
      while i < |events| && events[i].id != e
        invariant 0 <= i <= |events|
        invariant FindOwner(events, e) == FindOwner(events[i..], e)
      {
        i := i + 1;
      }
      if i < |events| {
        attendees := attendees + {events[i].owner};
      }
      assert attendees == FindOwner(events, e);
      i := 0;
      while i < |invites|
        invariant 0 <= i <= |invites|
        invariant attendees == FindOwner(events, e) + GuestsOf(invites[..i], e)
      {
        GuestsStep(invites, e, i);
        if invites[i].event == e && invites[i].status != Declined {
          attendees := attendees + {invites[i].guest};
        }
        i := i + 1;
      }
      assert invites[..i] == invites;
    }

    method EventsTogetherCount(u: UserId, v: UserId) returns (count: nat)
      requires UniqueIds(events)
      ensures count == |Attended(events, invites, u) * Attended(events, invites, v) * Ids(events)|
    {
      count := 0;
      var i := 0;
      NothingShared(events, invites, u, v);
      while i < |events|
        invariant 0 <= i <= |events| && count == |SharedAmong(events, invites, u, v, i)|
      {
        var attendees := EventAttendees(events[i].id);
        TogetherStep(events, invites, u, v, i);
        if u in attendees && v in attendees {
          count := count + 1;
        }
        i := i + 1;
      }
      AllShared(events, invites, u, v);
    }

    /** Counts accumulate in a map over the caller's events and their attendees. */
    method ListPotentialConnections(u: UserId) returns (counts: map<UserId, nat>)
      requires UniqueIds(events)
      ensures IsPotential(events, invites, connections, u, counts)
    {
      var mine := OwnedIds(events, u);
      var i := 0;
      while i < |invites|
        invariant 0 <= i <= |invites|
        invariant mine == OwnedIds(events, u) + InvitedIds(invites[..i], u)
      {
        InvitedStep(invites, u, i);
        if invites[i].guest == u && invites[i].status != Declined {
          mine := mine + {invites[i].event};
        }
        i := i + 1;
      }
      assert invites[..i] == invites;
      var contacts := set k | k in connections && k.user == u :: k.contact;

      counts := map[];
      var rest := mine;
      NothingAccumulated(events, invites, u, contacts);
      assert mine - rest == {};
      while rest != {}
        invariant rest <= mine
        invariant Accumulated(events, invites, u, contacts, mine - rest, {}, counts)
      {
        var e :| e in rest;
        var attendees := EventAttendees(e);
        var left := attendees;
        assert attendees - left == {};
        while left != {}
          invariant left <= attendees
          invariant Accumulated(events, invites, u, contacts, mine - rest, attendees - left, counts)
        {
          var a :| a in left;
          SeenOne(events, invites, u, contacts, mine - rest, attendees - left, a, counts);
          if a != u && a !in contacts {
            counts := counts[a := (if a in counts then counts[a] else 0) + 1];
          }
          assert attendees - (left - {a}) == (attendees - left) + {a};
          left := left - {a};
        }
        assert attendees - {} == attendees;
        EventDone(events, invites, u, contacts, mine - rest, e, counts);
        assert mine - (rest - {e}) == (mine - rest) + {e};
        rest := rest - {e};
      }
      assert mine - {} == mine;
      PotentialFromAccumulated(events, invites, connections, u, contacts, counts);
    }
  }

  // ---------------------------------------------------------------- loop steps

  lemma GuestsStep(invites: seq<MockInvite>, e: EventId, i: nat)
    requires i < |invites|
    ensures GuestsOf(invites[..i + 1], e)
         == GuestsOf(invites[..i], e) + (if invites[i].event == e && invites[i].status != Declined then {invites[i].guest} else {})
  {
  }

  lemma InvitedStep(invites: seq<MockInvite>, u: UserId, i: nat)
    requires i < |invites|
    ensures InvitedIds(invites[..i + 1], u)
         == InvitedIds(invites[..i], u) + (if invites[i].guest == u && invites[i].status != Declined then {invites[i].event} else {})
  {
  }

  lemma IdsStep(events: seq<MockEvent>, i: nat)
    requires i < |events|
    ensures Ids(events[..i + 1]) == Ids(events[..i]) + {events[i].id}
  {
  }

  /** The shared events among the first `n`. */
  function SharedAmong(events: seq<MockEvent>, invites: seq<MockInvite>, u: UserId, v: UserId, n: nat): set<EventId>
    requires n <= |events|
  {
    Attended(events, invites, u) * Attended(events, invites, v) * Ids(events[..n])
  }

  lemma NothingShared(events: seq<MockEvent>, invites: seq<MockInvite>, u: UserId, v: UserId)
    ensures SharedAmong(events, invites, u, v, 0) == {}
  {
  }

  lemma AllShared(events: seq<MockEvent>, invites: seq<MockInvite>, u: UserId, v: UserId)
    ensures SharedAmong(events, invites, u, v, |events|) == Attended(events, invites, u) * Attended(events, invites, v) * Ids(events)
  {
  }

  lemma TogetherStep(events: seq<MockEvent>, invites: seq<MockInvite>, u: UserId, v: UserId, i: nat)
    requires UniqueIds(events) && i < |events|
    ensures var attendees := Attendees(events, invites, events[i].id);
            |SharedAmong(events, invites, u, v, i + 1)|
            == |SharedAmong(events, invites, u, v, i)| + (if u in attendees && v in attendees then 1 else 0)
  {
    var e := events[i].id;
    AttendsIff(events, invites, e, u);
    AttendsIff(events, invites, e, v);
    IdsStep(events, i);
    var before := SharedAmong(events, invites, u, v, i);
    var both := u in Attendees(events, invites, e) && v in Attendees(events, invites, e);
    assert e !in Ids(events[..i]);
    assert SharedAmong(events, invites, u, v, i + 1) == before + (if both then {e} else {});
  }

  lemma {:induction false} FindOwnerIff(events: seq<MockEvent>, e: EventId, u: UserId)
    requires UniqueIds(events)
    ensures u in FindOwner(events, e) <==> exists i :: 0 <= i < |events| && events[i] == MockEvent(e, u)
  {
    if events != [] {
      var rest := events[1..];
      FindOwnerIff(rest, e, u);
      if events[0].id != e {
        forall i | 0 <= i < |events| && events[i] == MockEvent(e, u)
          ensures rest[i - 1] == MockEvent(e, u)
        {
        }
        assert forall i | 0 <= i < |rest| :: rest[i] == events[i + 1];
      } else {
        assert events[0] == MockEvent(e, events[0].owner);
      }
    }
  }

  /** Being an attendee and having attended are the same thing. */
  lemma AttendsIff(events: seq<MockEvent>, invites: seq<MockInvite>, e: EventId, u: UserId)
    requires UniqueIds(events)
    ensures u in Attendees(events, invites, e) <==> e in Attended(events, invites, u)
  {
    FindOwnerIff(events, e, u);
    assert u in FindOwner(events, e) <==> e in OwnedIds(events, u);
    assert u in GuestsOf(invites, e) <==> e in InvitedIds(invites, u);
  }

  // ---------------------------------------------------------------- the map of counts

  predicate Candidate(u: UserId, contacts: set<UserId>, v: UserId) {
    v != u && v !in contacts
  }

  function SharedIn(events: seq<MockEvent>, invites: seq<MockInvite>, done: set<EventId>, v: UserId): set<EventId> {
    set e | e in done && v in Attendees(events, invites, e)
  }

  /** The counts after the events in `done`, plus one for everybody in `seen`. */
  ghost predicate Accumulated(events: seq<MockEvent>, invites: seq<MockInvite>, u: UserId, contacts: set<UserId>,
                              done: set<EventId>, seen: set<UserId>, counts: map<UserId, nat>) {
    forall v :: CountRight(events, invites, u, contacts, done, seen, v, counts)
  }

  ghost predicate CountRight(events: seq<MockEvent>, invites: seq<MockInvite>, u: UserId, contacts: set<UserId>,
                             done: set<EventId>, seen: set<UserId>, v: UserId, counts: map<UserId, nat>) {
    var n := if Candidate(u, contacts, v) then |SharedIn(events, invites, done, v)| + (if v in seen then 1 else 0) else 0;
    if v in counts then counts[v] == n && n > 0 else n == 0
  }

  lemma NothingAccumulated(events: seq<MockEvent>, invites: seq<MockInvite>, u: UserId, contacts: set<UserId>)
    ensures Accumulated(events, invites, u, contacts, {}, {}, map[])
  {
  }

  lemma SeenOne(events: seq<MockEvent>, invites: seq<MockInvite>, u: UserId, contacts: set<UserId>,
                done: set<EventId>, seen: set<UserId>, a: UserId, counts: map<UserId, nat>)
    requires a !in seen && Accumulated(events, invites, u, contacts, done, seen, counts)
    ensures Accumulated(events, invites, u, contacts, done, seen + {a},
              if Candidate(u, contacts, a) then counts[a := (if a in counts then counts[a] else 0) + 1] else counts)
  {
    var counts' := if Candidate(u, contacts, a) then counts[a := (if a in counts then counts[a] else 0) + 1] else counts;
    forall v
      ensures CountRight(events, invites, u, contacts, done, seen + {a}, v, counts')
    {
      assert CountRight(events, invites, u, contacts, done, seen, v, counts);
    }
  }

  lemma EventDone(events: seq<MockEvent>, invites: seq<MockInvite>, u: UserId, contacts: set<UserId>,
                  done: set<EventId>, e: EventId, counts: map<UserId, nat>)
    requires e !in done
    requires Accumulated(events, invites, u, contacts, done, Attendees(events, invites, e), counts)
    ensures Accumulated(events, invites, u, contacts, done + {e}, {}, counts)
  {
    forall v
      ensures CountRight(events, invites, u, contacts, done + {e}, {}, v, counts)
    {
      var seen := Attendees(events, invites, e);
      assert CountRight(events, invites, u, contacts, done, seen, v, counts);
      assert SharedIn(events, invites, done + {e}, v)
          == SharedIn(events, invites, done, v) + (if v in seen then {e} else {});
    }
  }

  /** Exactly the other users who are not contacts yet and share an event, with how many they share. */
  ghost predicate IsPotential(events: seq<MockEvent>, invites: seq<MockInvite>, connections: seq<ConnectionKey>, u: UserId, counts: map<UserId, nat>) {
    forall v ::
      var shared := Attended(events, invites, u) * Attended(events, invites, v);
      && (v in counts <==> v != u && ConnectionKey(u, v) !in connections && shared != {})
      && (v in counts ==> counts[v] == |shared|)
  }

  lemma PotentialFromAccumulated(events: seq<MockEvent>, invites: seq<MockInvite>, connections: seq<ConnectionKey>,
                                 u: UserId, contacts: set<UserId>, counts: map<UserId, nat>)
    requires UniqueIds(events) && contacts == set k | k in connections && k.user == u :: k.contact
    requires Accumulated(events, invites, u, contacts, Attended(events, invites, u), {}, counts)
    ensures IsPotential(events, invites, connections, u, counts)
  {
    forall v
      ensures var shared := Attended(events, invites, u) * Attended(events, invites, v);
              && (v in counts <==> v != u && ConnectionKey(u, v) !in connections && shared != {})
              && (v in counts ==> counts[v] == |shared|)
    {
      assert CountRight(events, invites, u, contacts, Attended(events, invites, u), {}, v, counts);
      forall e
        ensures v in Attendees(events, invites, e) <==> e in Attended(events, invites, v)
      {
        AttendsIff(events, invites, e, v);
      }
      assert SharedIn(events, invites, Attended(events, invites, u), v)
          == Attended(events, invites, u) * Attended(events, invites, v);
      assert v in contacts <==> ConnectionKey(u, v) in connections;
    }
  }

  // ---------------------------------------------------------------- read off the arrays

  /** `u` owns the event or holds an invite to it that is accepted or still open. */
  predicate TookPart(events: seq<MockEvent>, invites: seq<MockInvite>, e: EventId, u: UserId) {
    MockEvent(e, u) in events || MockInvite(e, u, Pending) in invites || MockInvite(e, u, Accepted) in invites
  }

  lemma AttendedIff(events: seq<MockEvent>, invites: seq<MockInvite>, e: EventId, u: UserId)
    ensures e in Attended(events, invites, u) <==> TookPart(events, invites, e, u)
  {
    if i :| 0 <= i < |events| && events[i].owner == u && events[i].id == e {
      assert events[i] == MockEvent(e, u);
    }
    if i :| 0 <= i < |invites| && invites[i].guest == u && invites[i].event == e && invites[i].status != Declined {
      assert invites[i] == MockInvite(e, u, invites[i].status);
    }
  }

  /** What `shared` must be to hold the events that both took part in. */
  ghost predicate IsShared(events: seq<MockEvent>, invites: seq<MockInvite>, u: UserId, v: UserId, shared: set<EventId>) {
    forall e :: e in shared <==> TookPart(events, invites, e, u) && TookPart(events, invites, e, v)
  }

  /** Attendees, suggestions and pairwise counts in terms of who took part in what. */
  lemma CountsAreShared(events: seq<MockEvent>, invites: seq<MockInvite>, connections: seq<ConnectionKey>, u: UserId, v: UserId, counts: map<UserId, nat>, shared: set<EventId>)
    requires UniqueIds(events) && IsShared(events, invites, u, v, shared) && IsPotential(events, invites, connections, u, counts)
    ensures v in counts <==> v != u && ConnectionKey(u, v) !in connections && shared != {}
    ensures v in counts ==> counts[v] == |shared|
    ensures forall e :: v in Attendees(events, invites, e) <==> TookPart(events, invites, e, v)
  {
    var both := Attended(events, invites, u) * Attended(events, invites, v);
    forall e
      ensures e in both <==> e in shared
      ensures v in Attendees(events, invites, e) <==> TookPart(events, invites, e, v)
    {
      AttendedIff(events, invites, e, u);
      AttendedIff(events, invites, e, v);
      AttendsIff(events, invites, e, v);
    }
    assert both == shared;
  }

  /** The pairwise loop counts the events both took part in that are still listed. */
  lemma TogetherIsShared(events: seq<MockEvent>, invites: seq<MockInvite>, u: UserId, v: UserId, listed: set<EventId>)
    requires forall e :: e in listed <==> TookPart(events, invites, e, u) && TookPart(events, invites, e, v) && exists o :: MockEvent(e, o) in events
    ensures |Attended(events, invites, u) * Attended(events, invites, v) * Ids(events)| == |listed|
  {
    forall e
      ensures e in Attended(events, invites, u) * Attended(events, invites, v) * Ids(events) <==> e in listed
    {
      AttendedIff(events, invites, e, u);
      AttendedIff(events, invites, e, v);
      if i :| 0 <= i < |events| && events[i].id == e {
        assert MockEvent(e, events[i].owner) in events;
      }
    }
    assert Attended(events, invites, u) * Attended(events, invites, v) * Ids(events) == listed;
  }

  // ---------------------------------------------------------------- the queries

  /** The UNION in the lateral join and in `my_events`. */
  function AttendedRows(d: Db, u: UserId): set<EventId> {
    (set e | e in d.events && d.events[e].owner == u)
    + set k | k in d.invites && k.guest == u && d.invites[k].status != Declined :: k.event
  }

  /** COUNT(DISTINCT ...) over the join of the two unions. */
  function LateralCount(d: Db, u: UserId, v: UserId): nat {
    |set e | e in AttendedRows(d, u) && e in AttendedRows(d, v)|
  }

  datatype AttendeeRow = AttendeeRow(user: UserId, event: EventId)

  /** The `attendees` common table expression. */
  function AttendeeTable(d: Db): set<AttendeeRow> {
    (set e | e in d.events :: AttendeeRow(d.events[e].owner, e))
    + set k | k in d.invites && d.invites[k].status != Declined :: AttendeeRow(k.guest, k.event)
  }

  /** The rows the grouped query is left with after its joins and its WHERE. */
  function PotentialRows(d: Db, u: UserId): set<AttendeeRow> {
    set r | r in AttendeeTable(d) && r.event in AttendedRows(d, u) && r.user in d.users
            && r.user != u && ConnectionKey(u, r.user) !in d.connections
  }

  /** GROUP BY user: the distinct events of one group. */
  function Group(d: Db, u: UserId, v: UserId): set<EventId> {
    set r | r in PotentialRows(d, u) && r.user == v :: r.event
  }

  function GroupedCounts(d: Db, u: UserId): map<UserId, nat> {
    map v | v in (set r | r in PotentialRows(d, u) :: r.user) :: |Group(d, u, v)|
  }

  /** The arrays list the rows of the tables, each once. */
  ghost predicate SameData(events: seq<MockEvent>, invites: seq<MockInvite>, connections: seq<ConnectionKey>, d: Db) {
    && UniqueIds(events)
    && (forall e, o :: MockEvent(e, o) in events <==> e in d.events && d.events[e].owner == o)
    && (forall e, g, s :: MockInvite(e, g, s) in invites <==> InviteKey(e, g) in d.invites && d.invites[InviteKey(e, g)].status == s)
    && (forall k :: k in connections <==> k in d.connections)
  }

  lemma SameAttended(events: seq<MockEvent>, invites: seq<MockInvite>, connections: seq<ConnectionKey>, d: Db, u: UserId)
    requires SameData(events, invites, connections, d)
    ensures Attended(events, invites, u) == AttendedRows(d, u)
  {
    forall e
      ensures e in OwnedIds(events, u) <==> e in d.events && d.events[e].owner == u
    {
      assert MockEvent(e, u) in events <==> e in d.events && d.events[e].owner == u;
      if i: int :| 0 <= i < |events| && events[i] == MockEvent(e, u) {
        assert events[i].owner == u;
      }
    }
    forall e
      ensures e in InvitedIds(invites, u) <==> InviteKey(e, u) in d.invites && d.invites[InviteKey(e, u)].status != Declined
    {
      if InviteKey(e, u) in d.invites {
        assert MockInvite(e, u, d.invites[InviteKey(e, u)].status) in invites;
      }
      if i: int :| 0 <= i < |invites| && invites[i].event == e && invites[i].guest == u && invites[i].status != Declined {
        assert invites[i] == MockInvite(e, u, invites[i].status) && invites[i] in invites;
      }
    }
  }

  lemma TableIsAttended(d: Db, v: UserId, e: EventId)
    ensures AttendeeRow(v, e) in AttendeeTable(d) <==> e in AttendedRows(d, v)
  {
  }

  lemma AttendeesExist(d: Db, v: UserId, e: EventId)
    requires Consistent(d) && e in AttendedRows(d, v)
    ensures v in d.users
  {
  }

  /** Someone is grouped with an event exactly when both attended it. */
  lemma GroupIsShared(d: Db, u: UserId, v: UserId)
    requires Consistent(d)
    ensures Group(d, u, v) == if v != u && ConnectionKey(u, v) !in d.connections
                              then AttendedRows(d, u) * AttendedRows(d, v) else {}
  {
    forall e
      ensures e in Group(d, u, v) <==> v != u && ConnectionKey(u, v) !in d.connections && e in AttendedRows(d, u) && e in AttendedRows(d, v)
    {
      TableIsAttended(d, v, e);
      if e in AttendedRows(d, v) {
        AttendeesExist(d, v, e);
      }
      assert e in Group(d, u, v) <==> AttendeeRow(v, e) in PotentialRows(d, u);
    }
  }

  lemma GroupKeys(d: Db, u: UserId, v: UserId)
    ensures v in GroupedCounts(d, u) <==> Group(d, u, v) != {}
    ensures v in GroupedCounts(d, u) ==> GroupedCounts(d, u)[v] == |Group(d, u, v)|
  {
    if v in GroupedCounts(d, u) {
      var r :| r in PotentialRows(d, u) && r.user == v;
      assert r.event in Group(d, u, v);
    }
  }

  lemma LateralIsShared(d: Db, u: UserId, v: UserId)
    ensures LateralCount(d, u, v) == |AttendedRows(d, u) * AttendedRows(d, v)| == LateralCount(d, v, u)
  {
    var shared := AttendedRows(d, u) * AttendedRows(d, v);
    assert (set e | e in AttendedRows(d, u) && e in AttendedRows(d, v)) == shared;
    assert (set e | e in AttendedRows(d, v) && e in AttendedRows(d, u)) == shared;
  }

  /** Whether `u` took part in `e`, by the rows of the two tables. */
  predicate TookPartRow(d: Db, e: EventId, u: UserId) {
    || (e in d.events && d.events[e].owner == u)
    || (InviteKey(e, u) in d.invites && (d.invites[InviteKey(e, u)].status == Pending || d.invites[InviteKey(e, u)].status == Accepted))
  }

  /** Both queries count the events that both users took part in. */
  lemma QueriesCountShared(d: Db, u: UserId, v: UserId, shared: set<EventId>)
    requires Consistent(d) && forall e :: e in shared <==> TookPartRow(d, e, u) && TookPartRow(d, e, v)
    ensures LateralCount(d, u, v) == |shared|
    ensures v in GroupedCounts(d, u) <==> v != u && ConnectionKey(u, v) !in d.connections && shared != {}
    ensures v in GroupedCounts(d, u) ==> GroupedCounts(d, u)[v] == |shared|
  {
    forall e, w
      ensures e in AttendedRows(d, w) <==> TookPartRow(d, e, w)
    {
      if e in AttendedRows(d, w) && !(e in d.events && d.events[e].owner == w) {
        assert d.invites[InviteKey(e, w)].status != Declined;
      }
    }
    assert shared == AttendedRows(d, u) * AttendedRows(d, v);
    LateralIsShared(d, u, v);
    GroupIsShared(d, u, v);
    GroupKeys(d, u, v);
  }

  /** On the same data the accumulated map is the grouped query's result. */
  lemma LoopIsGroupedQuery(events: seq<MockEvent>, invites: seq<MockInvite>, connections: seq<ConnectionKey>, d: Db, u: UserId, counts: map<UserId, nat>)
    requires Consistent(d) && SameData(events, invites, connections, d)
    requires IsPotential(events, invites, connections, u, counts)
    ensures counts == GroupedCounts(d, u)
  {
    var grouped := GroupedCounts(d, u);
    forall v
      ensures v in counts <==> v in grouped
      ensures v in counts ==> counts[v] == grouped[v]
    {
      CountAgrees(events, invites, connections, d, u, v, counts);
    }
    SameCounts(counts, grouped);
  }

  lemma SameCounts(a: map<UserId, nat>, b: map<UserId, nat>)
    requires forall v :: v in a <==> v in b
    requires forall v | v in a :: a[v] == b[v]
    ensures a == b
  {
  }

  /** Every count is the lateral count of the two users, which does not depend on who asks. */
  lemma CountAgrees(events: seq<MockEvent>, invites: seq<MockInvite>, connections: seq<ConnectionKey>, d: Db, u: UserId, v: UserId, counts: map<UserId, nat>)
    requires Consistent(d) && SameData(events, invites, connections, d)
    requires IsPotential(events, invites, connections, u, counts)
    ensures v in counts <==> v in GroupedCounts(d, u)
    ensures v in counts ==> counts[v] == GroupedCounts(d, u)[v] == LateralCount(d, u, v) == LateralCount(d, v, u)
  {
    var shared := Attended(events, invites, u) * Attended(events, invites, v);
    SameAttended(events, invites, connections, d, u);
    SameAttended(events, invites, connections, d, v);
    GroupIsShared(d, u, v);
    GroupKeys(d, u, v);
    LateralIsShared(d, u, v);
    assert v in counts <==> v != u && ConnectionKey(u, v) !in connections && shared != {};
  }

  /** When every invite's event exists, the pairwise loop gives the lateral count too. */
  lemma TogetherIsLateral(events: seq<MockEvent>, invites: seq<MockInvite>, connections: seq<ConnectionKey>, d: Db, u: UserId, v: UserId)
    requires Consistent(d) && SameData(events, invites, connections, d)
    ensures |Attended(events, invites, u) * Attended(events, invites, v) * Ids(events)| == LateralCount(d, u, v)
  {
    SameAttended(events, invites, connections, d, u);
    SameAttended(events, invites, connections, d, v);
    LateralIsShared(d, u, v);
    forall e | e in AttendedRows(d, u)
      ensures e in Ids(events)
    {
      assert MockEvent(e, d.events[e].owner) in events;
    }
    TogetherCountIff(events, invites, u, v);
  }

  /** The pairwise loop counts the shared events that exist; it is the shared count exactly when all of them do. */
  lemma TogetherCountIff(events: seq<MockEvent>, invites: seq<MockInvite>, u: UserId, v: UserId)
    ensures var shared := Attended(events, invites, u) * Attended(events, invites, v);
            |shared * Ids(events)| == |shared| <==> shared <= Ids(events)
  {
    var shared := Attended(events, invites, u) * Attended(events, invites, v);
    if shared <= Ids(events) {
      assert shared * Ids(events) == shared;
    } else {
      assert shared == shared * Ids(events) + (shared - Ids(events));
      var e :| e in shared - Ids(events);
      assert |shared - Ids(events)| > 0;
    }
  }

  /** Two guests of a deleted event: the mock keeps the invites, so one loop counts it and the other does not. */
  lemma OrphanInvitesDisagree()
    ensures var invites := [MockInvite(3, 0, Pending), MockInvite(3, 1, Pending)];
            var shared := Attended([], invites, 0) * Attended([], invites, 1);
            |shared * Ids([])| != |shared|
  {
    var invites := [MockInvite(3, 0, Pending), MockInvite(3, 1, Pending)];
    OrphanAttended(invites, 0);
    OrphanAttended(invites, 1);
    TogetherCountIff([], invites, 0, 1);
    assert Ids([]) == {};
  }

  lemma OrphanAttended(invites: seq<MockInvite>, i: nat)
    requires i < |invites| && invites[i].status != Declined
    ensures invites[i].event in Attended([], invites, invites[i].guest)
  {
  }
}
