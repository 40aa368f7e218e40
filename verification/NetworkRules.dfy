/** Connections between users and invitations sent to addresses without an account. */
module NetworkRules {
  import opened Tables
  import opened AccountRules

  /** INSERT ... ON CONFLICT DO NOTHING for one direction. */
  function WithConnection(cs: map<ConnectionKey, Connection>, a: UserId, b: UserId): map<ConnectionKey, Connection> {
    if ConnectionKey(a, b) in cs then cs else cs[ConnectionKey(a, b) := Connection(None, false)]
  }

  /** Both directions in one transaction; the CHECK refuses a self connection. */
  function CreateMutualConnection(d: Db, a: UserId, b: UserId): Outcome<()> {
    if a == b || a !in d.users || b !in d.users then Outcome(d, Err(DatabaseError))
    else Outcome(d.(connections := WithConnection(WithConnection(d.connections, a, b), b, a)), Ok(()))
  }

  function MarkInviteAccepted(d: Db, n: NetworkInviteId): Outcome<()> {
    if n !in d.networkInvites then Outcome(d, Err(InviteNotFound))
    else Outcome(d.(networkInvites := d.networkInvites[n := d.networkInvites[n].(accepted := true)]), Ok(()))
  }

  predicate PendingFrom(row: NetworkInvite, inviter: UserId, email: string) {
    row.inviter == inviter && row.email == email && !row.accepted
  }

  /** Insert, or bump the pending row the partial unique index found. */
  function CreateOrRefreshInvite(d: Db, now: Instant, inviter: UserId, email: string): Outcome<()> {
    if inviter !in d.users then Outcome(d, Err(DatabaseError))
    else if exists n :: n in d.networkInvites && PendingFrom(d.networkInvites[n], inviter, email) then
      Outcome(d.(networkInvites := Refreshed(d.networkInvites, now, inviter, email)), Ok(()))
    else
      Outcome(WithPending(d, NetworkInvite(inviter, email, now, false)), Ok(()))
  }

  function Refreshed(rows: map<NetworkInviteId, NetworkInvite>, now: Instant, inviter: UserId, email: string): map<NetworkInviteId, NetworkInvite> {
    map n | n in rows :: if PendingFrom(rows[n], inviter, email) then rows[n].(createdAt := now) else rows[n]
  }

  function WithPending(d: Db, row: NetworkInvite): Db {
    d.(networkInvites := d.networkInvites[d.nextId := row], nextId := d.nextId + 1)
  }

  /** The stored invitation survives a mail that could not be sent. */
  function InviteByEmail(d: Db, now: Instant, inviter: UserId, email: string, sends: bool): Outcome<()> {
    if email == "" then Outcome(d, Err(EmailRequired))
    else if EmailTaken(d.users, email) then Outcome(d, Err(EmailAlreadyRegistered))
    else
      var o := CreateOrRefreshInvite(d, now, inviter, email);
      if o.result.Ok? && !sends then Outcome(o.db, Err(DatabaseError)) else o
  }

  function PendingFor(d: Db, email: string): set<NetworkInviteId> {
    set n | n in d.networkInvites && d.networkInvites[n].email == email && !d.networkInvites[n].accepted
  }

  /** Which repository calls fail while pending invites are resolved. */
  datatype ResolveFaults = ResolveFaults(connect: set<NetworkInviteId>, mark: set<NetworkInviteId>)

  /** The loop body for one listed invite; the flag says an error was appended. */
  function ResolveOne(d: Db, u: UserId, n: NetworkInviteId, faults: ResolveFaults): (Db, bool) {
    if n !in d.networkInvites || n in faults.connect then (d, true)
    else
      var connected := CreateMutualConnection(d, d.networkInvites[n].inviter, u);
      if connected.result.Err? then (d, true)
      else if n in faults.mark then (connected.db, true)
      else
        var marked := MarkInviteAccepted(connected.db, n);
        (marked.db, marked.result.Err?)
  }

  /** The whole loop: every failure is remembered, none stops the rest. */
  function ResolveAll(d: Db, u: UserId, order: seq<NetworkInviteId>, faults: ResolveFaults): (Db, bool) {
    if order == [] then (d, false)
    else
      var before := ResolveAll(d, u, order[..|order| - 1], faults);
      var step := ResolveOne(before.0, u, order[|order| - 1], faults);
      (step.0, before.1 || step.1)
  }
}
