/** The event list of a user, and how it agrees with looking the events up one by one. */
module Listing {
  import opened Tables
  import opened Protocol
  import EventRepository
  import Scenarios

  datatype Scope = Owned | Invited | All

  datatype EventView = EventView(id: EventId, event: Event, isOwner: bool, status: Option<InviteStatus>)

  datatype EventDetail = EventDetail(event: Event, isOwner: bool, status: Option<InviteStatus>, spread: Option<nat>, declineReason: Option<string>)

  predicate InScope(d: Db, u: UserId, scope: Scope, e: EventId)
    requires e in d.events
  {
    match scope
    case Owned => d.events[e].owner == u
    case Invited => InviteKey(e, u) in d.invites
    case All => d.events[e].owner == u || InviteKey(e, u) in d.invites
  }

  // ---------------------------------------------------------------- the service and its repository

  /** Anyone but the owner and the invitees is told the event does not exist. */
  method GetEventDetail(db: Database, e: EventId, viewer: UserId) returns (r: Result<EventDetail>)
    ensures r.Ok? <==> e in db.events && (db.events[e].owner == viewer || InviteKey(e, viewer) in db.invites)
    ensures r.Err? ==> r.error == EventNotFound
    ensures r.Ok? && db.events[e].owner == viewer ==> r == Ok(EventDetail(db.events[e], true, None, None, None))
    ensures r.Ok? && db.events[e].owner != viewer ==>
              var row := db.invites[InviteKey(e, viewer)];
              r == Ok(EventDetail(db.events[e], false, Some(row.status), Some(row.spread), row.declineReason))
    ensures r.Ok? ==> r == Ok(Detail(db.State(), e, viewer))
  {
    var ev := EventRepository.GetEvent(db, e);
    if ev.Err? {
      return Err(ev.error);
    }
    if ev.value.owner == viewer {
      return Ok(EventDetail(ev.value, true, None, None, None));
    }
    var invite := EventRepository.GetEventInvite(db, e, viewer);
    if invite.Err? {
      return Err(EventNotFound);
    }
    return Ok(EventDetail(ev.value, false, Some(invite.value.status), Some(invite.value.spread), invite.value.declineReason));
  }

  /** What the detail page shows the owner or an invitee. */
  function Detail(d: Db, e: EventId, viewer: UserId): EventDetail
    requires e in d.events && InScope(d, viewer, All, e)
  {
    if d.events[e].owner == viewer then EventDetail(d.events[e], true, None, None, None)
    else
      var row := d.invites[InviteKey(e, viewer)];
      EventDetail(d.events[e], false, Some(row.status), Some(row.spread), row.declineReason)
  }

  function Ids(views: seq<EventView>): seq<EventId> {
    seq(|views|, i requires 0 <= i < |views| => views[i].id)
  }

  /** What one lookup of the viewer's own invite row would say. */
  function LookedUp(d: Db, u: UserId, e: EventId): Option<InviteStatus> {
    if InviteKey(e, u) in d.invites then Some(d.invites[InviteKey(e, u)].status) else None
  }

  predicate Shows(d: Db, u: UserId, v: EventView) {
    v.id in d.events && v == EventView(v.id, d.events[v.id], d.events[v.id].owner == u, LookedUp(d, u, v.id))
  }

  /** Every event in scope once, with the viewer's relationship to it. */
  ghost predicate IsListing(d: Db, u: UserId, scope: Scope, views: seq<EventView>) {
    && Lists(Ids(views), set e | e in d.events && InScope(d, u, scope, e))
    && forall i | 0 <= i < |views| :: Shows(d, u, views[i])
  }

  /** The map built from the viewer's own invites says what a lookup would say. */
  method StatusByEvent(db: Database, u: UserId) returns (statusByEvent: map<EventId, InviteStatus>)
    ensures forall e :: LookedUp(db.State(), u, e) == if e in statusByEvent then Some(statusByEvent[e]) else None
  {
    var invites: seq<InviteKey> := EventRepository.Fetch<InviteKey>(set k | k in db.invites && k.guest == u);
    assert forall k | k in invites :: k in db.invites && k.guest == u;
    statusByEvent := map[];
    var i := 0;
    while i < |invites|
      invariant 0 <= i <= |invites|
      invariant forall e :: e in statusByEvent <==> InviteKey(e, u) in invites[..i]
      invariant forall e | e in statusByEvent :: InviteKey(e, u) in db.invites && statusByEvent[e] == db.invites[InviteKey(e, u)].status
    {
      var k := invites[i];
      assert k == InviteKey(k.event, u) && invites[..i + 1] == invites[..i] + [k];
      statusByEvent := statusByEvent[k.event := db.invites[k].status];
      i := i + 1;
    }
    assert invites[..i] == invites;
  }

  /** One query for the events, one for all of the viewer's invites, joined through a map. */
  method GetEventsByOwner(db: Database, u: UserId, scope: Scope) returns (views: seq<EventView>)
    ensures IsListing(db.State(), u, scope, views)
  {
    var events: seq<EventId> := EventRepository.Fetch<EventId>(set e | e in db.events && InScope(db.State(), u, scope, e));
    assert forall e | e in events :: e in db.events;
    var statusByEvent := StatusByEvent(db, u);
    views := [];
    var i := 0;
    while i < |events|
      invariant 0 <= i <= |events| && Ids(views) == events[..i]
      invariant forall j | 0 <= j < |views| :: Shows(db.State(), u, views[j])
    {
      var e := events[i];
      var status := if e in statusByEvent then Some(statusByEvent[e]) else None;
      views := views + [EventView(e, db.events[e], db.events[e].owner == u, status)];
      i := i + 1;
    }
    assert events[..i] == events;
  }

  // ---------------------------------------------------------------- agreement

  /** Which events each scope lists, and what an entry says about the viewer. */
  lemma ListedExactly(d: Db, u: UserId, scope: Scope, views: seq<EventView>, e: EventId)
    requires IsListing(d, u, scope, views)
    ensures var owns, invited := e in d.events && d.events[e].owner == u, InviteKey(e, u) in d.invites;
            (exists i :: 0 <= i < |views| && views[i].id == e)
            <==> e in d.events && (scope == Owned ==> owns) && (scope == Invited ==> invited) && (scope == All ==> owns || invited)
    ensures forall i, j | 0 <= i < j < |views| :: views[i].id != views[j].id
    ensures forall i | 0 <= i < |views| && views[i].id == e ::
              && e in d.events && views[i].event == d.events[e] && (views[i].isOwner <==> d.events[e].owner == u)
              && (InviteKey(e, u) in d.invites ==> views[i].status == Some(d.invites[InviteKey(e, u)].status))
              && (InviteKey(e, u) !in d.invites ==> views[i].status == None)
  {
    var ids := Ids(views);
    assert forall i | 0 <= i < |views| :: ids[i] == views[i].id;
    if i :| 0 <= i < |views| && views[i].id == e {
      assert ids[i] in ids;
    }
    if e in ids {
      var i :| 0 <= i < |ids| && ids[i] == e;
      assert views[i].id == e;
    }
  }

  /** The list under "all" holds exactly the events the detail page opens. */
  lemma ListingOpens(d: Db, u: UserId, views: seq<EventView>, e: EventId)
    requires IsListing(d, u, All, views)
    ensures e in d.events && InScope(d, u, All, e) <==> exists v :: v in views && v.id == e
  {
    if e in d.events && InScope(d, u, All, e) {
      assert e in Ids(views);
      var i :| 0 <= i < |views| && Ids(views)[i] == e;
      assert views[i] in views;
    }
    if exists v :: v in views && v.id == e {
      var i :| 0 <= i < |views| && views[i].id == e;
      assert Ids(views)[i] in Ids(views);
    }
  }

  /**
   Each entry shows what the detail page shows; for an own event the status agrees exactly when
   the owner holds no invite to it.
   */
  lemma ListingAgrees(d: Db, u: UserId, views: seq<EventView>, i: nat)
    requires IsListing(d, u, All, views) && i < |views|
    ensures var e := views[i].id;
            && e in d.events && InScope(d, u, All, e)
            && Detail(d, e, u).event == views[i].event && Detail(d, e, u).isOwner == views[i].isOwner
            && (Detail(d, e, u).status == views[i].status <==> !views[i].isOwner || InviteKey(e, u) !in d.invites)
  {
    assert Ids(views)[i] in Ids(views);
  }

  /** In a reachable state: a guest has forwarded to the owner, and the two views of the owner's event differ. */
  lemma OwnerWithInviteDiffers()
    ensures var d := Scenarios.OwnerIsInvited();
            && Reachable(d) && 3 in d.events && d.events[3].owner == 0 && InScope(d, 0, All, 3)
            && Detail(d, 3, 0).status == None && LookedUp(d, 0, 3) == Some(Pending)
  {
    Scenarios.OwnerIsInvitedReachable();
  }
}
