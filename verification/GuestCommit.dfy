/**
 Saving the guest list as its owner: the page sends one request per difference, all at once, and
 the server may serve them in any order.
 */
module GuestCommit {
  import opened Tables
  import opened InviteRules
  import opened Shapes
  import opened CallEffects
  import EventRepository
  import EventService

  // ---------------------------------------------------------------- the page

  datatype Guest = Guest(id: UserId, isHost: bool)

  datatype Request = Add(guest: UserId) | Drop(guest: UserId)

  function OriginalIds(attendees: seq<Attendee>): set<UserId> {
    set a | a in attendees && !a.isOwner :: a.user
  }

  function NextIds(guests: seq<Guest>): set<UserId> {
    set g | g in guests && !g.isHost :: g.id
  }

  /** One request for each difference between the loaded list and the draft. */
  function Requests(original: set<UserId>, next: set<UserId>): set<Request> {
    (set g | g in next && g !in original :: Add(g)) + set g | g in original && g !in next :: Drop(g)
  }

  // ---------------------------------------------------------------- the server

  /** A request with the circumstances it is served in. */
  datatype Served = Served(request: Request, now: Instant, delivers: bool)

  function Serve(d: Db, e: EventId, owner: UserId, s: Served): Db {
    match s.request
    case Add(g) => SendInvite(d, s.now, e, g, 0, owner, s.delivers).db
    case Drop(g) => RemoveInvite(d, s.now, e, g, owner, s.delivers).db
  }

  function ServeAll(d: Db, e: EventId, owner: UserId, order: seq<Served>): Db {
    if order == [] then d else Serve(ServeAll(d, e, owner, order[..|order| - 1]), e, owner, order[|order| - 1])
  }

  function RequestsOf(order: seq<Served>): seq<Request> {
    seq(|order|, i requires 0 <= i < |order| => order[i].request)
  }

  function InvitedTo(d: Db, e: EventId): set<UserId> {
    set k | k in d.invites && k.event == e :: k.guest
  }

  /** The server refuses to invite the owner and unknown users. */
  predicate Invitable(d: Db, owner: UserId, g: UserId) {
    g in d.users && g != owner
  }

  /** The guests of the draft who were there already or whom the server accepts. */
  function Admitted(d: Db, owner: UserId, original: set<UserId>, next: set<UserId>): set<UserId> {
    set g | g in next && (g in original || Invitable(d, owner, g))
  }

  // ---------------------------------------------------------------- one request

  lemma ServeAdd(d: Db, e: EventId, owner: UserId, g: UserId, now: Instant, delivers: bool)
    requires e in d.events && d.events[e].owner == owner && owner in d.users
    ensures var d' := Serve(d, e, owner, Served(Add(g), now, delivers));
            && d'.events == d.events && d'.users == d.users
            && d'.invites == if Invitable(d, owner, g) && InviteKey(e, g) !in d.invites
                             then d.invites[InviteKey(e, g) := Invite(owner, Pending, 0, d.nextInvite, None)] else d.invites
  {
    SendExactly(d, now, e, g, 0, owner, delivers);
  }

  lemma ServeDrop(d: Db, e: EventId, owner: UserId, g: UserId, now: Instant, delivers: bool)
    requires e in d.events && d.events[e].owner == owner
    ensures var d' := Serve(d, e, owner, Served(Drop(g), now, delivers));
            d'.events == d.events && d'.users == d.users && d'.invites == d.invites - {InviteKey(e, g)}
  {
    RemoveExactly(d, now, e, g, owner, delivers);
  }

  // ---------------------------------------------------------------- all of them

  /** What the requests served so far did to the row at `k`. */
  ghost predicate RowServed(d: Db, d': Db, e: EventId, owner: UserId, requests: seq<Request>, k: InviteKey) {
    if k.event == e && Drop(k.guest) in requests then k !in d'.invites
    else if k.event == e && Add(k.guest) in requests && Invitable(d, owner, k.guest) then
      k in d'.invites && d'.invites[k] == Invite(owner, Pending, 0, d'.invites[k].created, None)
    else (k in d'.invites <==> k in d.invites) && (k in d.invites ==> d'.invites[k] == d.invites[k])
  }

  /** Requests concern different guests, and only missing guests are added. */
  ghost predicate Apart(d: Db, e: EventId, requests: seq<Request>) {
    && (forall i, j | 0 <= i < j < |requests| :: requests[i].guest != requests[j].guest)
    && (forall r | r in requests && r.Add? :: InviteKey(e, r.guest) !in d.invites)
  }

  lemma {:induction false} ServeAllRows(d: Db, e: EventId, owner: UserId, order: seq<Served>)
    requires e in d.events && d.events[e].owner == owner && owner in d.users && Apart(d, e, RequestsOf(order))
    ensures var d' := ServeAll(d, e, owner, order);
            && d'.events == d.events && d'.users == d.users
            && forall k :: RowServed(d, d', e, owner, RequestsOf(order), k)
  {
    if order != [] {
      var rest, last := order[..|order| - 1], order[|order| - 1];
      assert order == rest + [last];
      assert RequestsOf(order) == RequestsOf(rest) + [last.request];
      ApartInit(d, e, RequestsOf(rest), last.request);
      ServeAllRows(d, e, owner, rest);
      var d1, d' := ServeAll(d, e, owner, rest), ServeAll(d, e, owner, order);
      if last.request.Add? {
        ServeAdd(d1, e, owner, last.request.guest, last.now, last.delivers);
      } else {
        ServeDrop(d1, e, owner, last.request.guest, last.now, last.delivers);
      }
      forall k
        ensures RowServed(d, d', e, owner, RequestsOf(order), k)
      {
        assert RowServed(d, d1, e, owner, RequestsOf(rest), k);
        RowStep(d, d1, d', e, owner, RequestsOf(rest), last.request, k);
      }
    }
  }

  lemma ApartInit(d: Db, e: EventId, rest: seq<Request>, last: Request)
    requires Apart(d, e, rest + [last])
    ensures Apart(d, e, rest) && forall r | r in rest :: r.guest != last.guest
  {
    var all := rest + [last];
    assert forall i | 0 <= i < |rest| :: rest[i] == all[i];
    assert all[|rest|] == last;
    forall r | r in rest
      ensures r.guest != last.guest
    {
      var i :| 0 <= i < |rest| && rest[i] == r;
      assert all[i].guest != all[|rest|].guest;
    }
  }

  lemma RowStep(d: Db, d1: Db, d': Db, e: EventId, owner: UserId, rest: seq<Request>, last: Request, k: InviteKey)
    requires RowServed(d, d1, e, owner, rest, k) && Apart(d, e, rest + [last]) && d1.users == d.users
    requires RowServed(d, d1, e, owner, rest, InviteKey(e, last.guest))
    requires d'.invites == match last
             case Add(g) => if Invitable(d1, owner, g) && InviteKey(e, g) !in d1.invites
                            then d1.invites[InviteKey(e, g) := Invite(owner, Pending, 0, d1.nextInvite, None)] else d1.invites
             case Drop(g) => d1.invites - {InviteKey(e, g)}
    ensures RowServed(d, d', e, owner, rest + [last], k)
  {
    ApartInit(d, e, rest, last);
    assert last in rest + [last];
    assert forall r :: r in rest + [last] <==> r in rest || r == last;
    if k == InviteKey(e, last.guest) {
      assert Drop(k.guest) !in rest && Add(k.guest) !in rest;
    } else {
      assert k.event == e ==> k.guest != last.guest;
    }
  }

  lemma RequestsApart(d: Db, e: EventId, original: set<UserId>, next: set<UserId>, requests: seq<Request>)
    requires original == InvitedTo(d, e) && Lists(requests, Requests(original, next))
    ensures Apart(d, e, requests)
  {
    forall i, j | 0 <= i < j < |requests|
      ensures requests[i].guest != requests[j].guest
    {
      assert requests[i] in Requests(original, next) && requests[j] in Requests(original, next);
    }
  }

  /**
   In whatever order the requests are served, the guests invited in the end are those of the draft
   whom the server accepts, every kept guest's row is untouched, and so is every other event.
   */
  lemma CommitInAnyOrder(d: Db, e: EventId, owner: UserId, original: set<UserId>, next: set<UserId>, order: seq<Served>)
    requires e in d.events && d.events[e].owner == owner && owner in d.users
    requires original == InvitedTo(d, e) && Lists(RequestsOf(order), Requests(original, next))
    ensures var d' := ServeAll(d, e, owner, order);
            && InvitedTo(d', e) == Admitted(d, owner, original, next)
            && (forall g | g in original && g in next :: InviteKey(e, g) in d'.invites && d'.invites[InviteKey(e, g)] == d.invites[InviteKey(e, g)])
            && (forall k: InviteKey | k.event != e :: (k in d'.invites <==> k in d.invites) && (k in d.invites ==> d'.invites[k] == d.invites[k]))
  {
    var requests := RequestsOf(order);
    var d' := ServeAll(d, e, owner, order);
    RequestsApart(d, e, original, next, requests);
    ServeAllRows(d, e, owner, order);
    forall g
      ensures g in InvitedTo(d', e) <==> g in next && (g in original || Invitable(d, owner, g))
      ensures g in original && g in next ==> InviteKey(e, g) in d'.invites && d'.invites[InviteKey(e, g)] == d.invites[InviteKey(e, g)]
    {
      RequestedIff(original, next, requests, g);
      assert g in original <==> InviteKey(e, g) in d.invites;
      assert g in InvitedTo(d', e) <==> InviteKey(e, g) in d'.invites;
      assert RowServed(d, d', e, owner, requests, InviteKey(e, g));
    }
    forall k: InviteKey | k.event != e
      ensures (k in d'.invites <==> k in d.invites) && (k in d.invites ==> d'.invites[k] == d.invites[k])
    {
      assert RowServed(d, d', e, owner, requests, k);
    }
  }

  lemma RequestedIff(original: set<UserId>, next: set<UserId>, requests: seq<Request>, g: UserId)
    requires Lists(requests, Requests(original, next))
    ensures Add(g) in requests <==> g in next && g !in original
    ensures Drop(g) in requests <==> g in original && g !in next
  {
  }

  /** The draft is reached exactly when every added guest is an existing user other than the owner. */
  lemma CommitReachesDraftIff(d: Db, e: EventId, owner: UserId, original: set<UserId>, next: set<UserId>, order: seq<Served>)
    requires e in d.events && d.events[e].owner == owner && owner in d.users
    requires original == InvitedTo(d, e) && Lists(RequestsOf(order), Requests(original, next))
    ensures InvitedTo(ServeAll(d, e, owner, order), e) == next <==> forall g | g in next && g !in original :: Invitable(d, owner, g)
  {
    CommitInAnyOrder(d, e, owner, original, next, order);
    AllAdmittedIff(d, owner, original, next);
  }

  lemma AllAdmittedIff(d: Db, owner: UserId, original: set<UserId>, next: set<UserId>)
    ensures Admitted(d, owner, original, next) == next <==> forall g | g in next && g !in original :: Invitable(d, owner, g)
  {
    if forall g | g in next && g !in original :: Invitable(d, owner, g) {
      assert forall g | g in next :: g in Admitted(d, owner, original, next);
    } else {
      var g :| g in next && g !in original && !Invitable(d, owner, g);
      assert g !in Admitted(d, owner, original, next);
    }
  }

  /** What the page loads as guests is the set of invited users, the owner's own invite included. */
  lemma LoadedGuests(d: Db, e: EventId, attendees: seq<Attendee>)
    requires Lists(attendees, AttendeeRows(d, e))
    ensures OriginalIds(attendees) == InvitedTo(d, e)
  {
    forall g
      ensures g in OriginalIds(attendees) <==> g in InvitedTo(d, e)
    {
      assert Attendee(g, false) in attendees <==> Attendee(g, false) in AttendeeRows(d, e);
      assert g in InvitedTo(d, e) <==> InviteKey(e, g) in d.invites;
    }
  }

  // ---------------------------------------------------------------- the handler

  /** The page shows the owner, and everyone with an invite, to the event's owner. */
  ghost predicate PageShows(d: Db, e: EventId, owner: UserId, attendees: seq<Attendee>) {
    && e in d.events && d.events[e].owner == owner && owner in d.users
    && forall a :: a in attendees <==> a == Attendee(owner, true) || (!a.isOwner && InviteKey(e, a.user) in d.invites)
  }

  /** What the attendee query returns for an event is what its owner's page shows. */
  lemma QueryIsShown(d: Db, e: EventId, attendees: seq<Attendee>)
    requires Consistent(d) && e in d.events && Lists(attendees, AttendeeRows(d, e))
    ensures PageShows(d, e, d.events[e].owner, attendees)
  {
    forall a
      ensures a in AttendeeRows(d, e) <==> a == Attendee(d.events[e].owner, true) || (!a.isOwner && InviteKey(e, a.user) in d.invites)
    {
      if !a.isOwner && InviteKey(e, a.user) in d.invites {
        assert a == Attendee(InviteKey(e, a.user).guest, false);
      }
    }
  }

  /**
   Someone is invited afterwards exactly when the draft has them as a guest and they were invited or are
   an existing user other than the owner; who was invited keeps their row, who is new gets a plain one.
   */
  ghost predicate AsDrafted(d: Db, d': Db, e: EventId, owner: UserId, guests: seq<Guest>) {
    && (forall g :: InviteKey(e, g) in d'.invites
               <==> Guest(g, false) in guests && (InviteKey(e, g) in d.invites || (g in d.users && g != owner)))
    && (forall g | InviteKey(e, g) in d'.invites && InviteKey(e, g) in d.invites :: d'.invites[InviteKey(e, g)] == d.invites[InviteKey(e, g)])
    && (forall g | InviteKey(e, g) in d'.invites && InviteKey(e, g) !in d.invites ::
          var row := d'.invites[InviteKey(e, g)]; row == Invite(owner, Pending, 0, row.created, None))
    && (forall k: InviteKey | k.event != e :: (k in d'.invites <==> k in d.invites) && (k in d.invites ==> d'.invites[k] == d.invites[k]))
  }

  lemma CommitIsAsDrafted(d: Db, e: EventId, owner: UserId, attendees: seq<Attendee>, guests: seq<Guest>, order: seq<Served>)
    requires PageShows(d, e, owner, attendees)
    requires Lists(RequestsOf(order), Requests(OriginalIds(attendees), NextIds(guests)))
    ensures AsDrafted(d, ServeAll(d, e, owner, order), e, owner, guests)
  {
    var original, next, requests := OriginalIds(attendees), NextIds(guests), RequestsOf(order);
    var d' := ServeAll(d, e, owner, order);
    forall g
      ensures g in original <==> InviteKey(e, g) in d.invites
      ensures g in next <==> Guest(g, false) in guests
    {
      assert Attendee(g, false) in attendees <==> InviteKey(e, g) in d.invites;
    }
    assert original == InvitedTo(d, e) by {
      assert forall g :: g in InvitedTo(d, e) <==> InviteKey(e, g) in d.invites;
    }
    RequestsApart(d, e, original, next, requests);
    ServeAllRows(d, e, owner, order);
    forall g
      ensures RowServed(d, d', e, owner, requests, InviteKey(e, g))
      ensures Add(g) in requests <==> g in next && g !in original
      ensures Drop(g) in requests <==> g in original && g !in next
    {
      RequestedIff(original, next, requests, g);
    }
    forall k: InviteKey | k.event != e
      ensures RowServed(d, d', e, owner, requests, k)
    {
    }
  }

  /** The page's two lists name the same guests, so nothing was edited. */
  ghost predicate Unedited(attendees: seq<Attendee>, guests: seq<Guest>) {
    forall g :: Guest(g, false) in guests <==> Attendee(g, false) in attendees
  }

  lemma UneditedAsksNothing(attendees: seq<Attendee>, guests: seq<Guest>, order: seq<Served>)
    requires Unedited(attendees, guests) && Lists(RequestsOf(order), Requests(OriginalIds(attendees), NextIds(guests)))
    ensures order == []
  {
    forall g
      ensures g in OriginalIds(attendees) <==> g in NextIds(guests)
    {
      assert g in OriginalIds(attendees) <==> Attendee(g, false) in attendees;
      assert g in NextIds(guests) <==> Guest(g, false) in guests;
    }
    assert Requests(OriginalIds(attendees), NextIds(guests)) == {};
    if order != [] {
      FirstAsked(order, Requests(OriginalIds(attendees), NextIds(guests)));
    }
  }

  lemma FirstAsked(order: seq<Served>, requests: set<Request>)
    requires Lists(RequestsOf(order), requests) && order != []
    ensures requests != {}
  {
    assert RequestsOf(order)[0] in requests;
  }

  /**
   One request for each difference, all at once: the server takes them in whatever order, at
   whatever times, and the page looks at none of the answers.
   */
  method CommitGuests(db: Database, e: EventId, owner: UserId, attendees: seq<Attendee>, guests: seq<Guest>)
    returns (ghost order: seq<Served>)
    modifies db
    ensures Lists(RequestsOf(order), Requests(OriginalIds(attendees), NextIds(guests)))
    ensures db.State() == ServeAll(old(db.State()), e, owner, order)
    ensures PageShows(old(db.State()), e, owner, attendees) ==> AsDrafted(old(db.State()), db.State(), e, owner, guests)
    ensures Unedited(attendees, guests) ==> order == [] && db.State() == old(db.State())
  {
    var originalIds := set a | a in attendees && !a.isOwner :: a.user;
    var nextIds := set g | g in guests && !g.isHost :: g.id;
    var additions := set g | g in nextIds && g !in originalIds :: Add(g);
    var removals := set g | g in originalIds && g !in nextIds :: Drop(g);
    assert additions + removals == Requests(OriginalIds(attendees), NextIds(guests));
    var requests := EventRepository.Fetch(additions + removals);
    order := [];
    var i := 0;
    while i < |requests|
      invariant 0 <= i <= |requests| && RequestsOf(order) == requests[..i]
      invariant db.State() == ServeAll(old(db.State()), e, owner, order)
    {
      var now: Instant, delivers: bool := *, *;
      match requests[i] {
        case Add(g) => var _ := EventService.SendEventInvite(db, now, e, g, 0, owner, delivers);
        case Drop(g) => var _ := EventService.RemoveEventInvite(db, now, e, g, owner, delivers);
      }
      ghost var served := Served(requests[i], now, delivers);
      assert (order + [served])[..|order|] == order;
      assert RequestsOf(order + [served]) == RequestsOf(order) + [requests[i]];
      order := order + [served];
      i := i + 1;
    }
    assert requests[..i] == requests;
    if PageShows(old(db.State()), e, owner, attendees) {
      CommitIsAsDrafted(old(db.State()), e, owner, attendees, guests, order);
    }
    if Unedited(attendees, guests) {
      UneditedAsksNothing(attendees, guests, order);
    }
  }
}
