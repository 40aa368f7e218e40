/** Resolving pending invitations under any pattern of failures. */
module Network {
  import opened Tables
  import opened AccountRules
  import opened NetworkRules
  import EventRepository

  // ---------------------------------------------------------------- the repository

  /** Both inserts or neither: a failing second one rolls the first back. */
  method CreateMutualConnection(db: Database, a: UserId, b: UserId, fails: bool) returns (r: Result<()>)
    modifies db
    ensures Outcome(db.State(), r)
         == if fails then Outcome(old(db.State()), Err(DatabaseError)) else NetworkRules.CreateMutualConnection(old(db.State()), a, b)
  {
    if fails || a == b || a !in db.users || b !in db.users {
      return Err(DatabaseError);
    }
    var tx := db.connections;
    if ConnectionKey(a, b) !in tx {
      tx := tx[ConnectionKey(a, b) := Connection(None, false)];
    }
    if ConnectionKey(b, a) !in tx {
      tx := tx[ConnectionKey(b, a) := Connection(None, false)];
    }
    db.connections := tx;
    return Ok(());
  }

  method MarkInviteAccepted(db: Database, n: NetworkInviteId, fails: bool) returns (r: Result<()>)
    modifies db
    ensures Outcome(db.State(), r)
         == if fails then Outcome(old(db.State()), Err(DatabaseError)) else NetworkRules.MarkInviteAccepted(old(db.State()), n)
  {
    if fails {
      return Err(DatabaseError);
    }
    if n !in db.networkInvites {
      return Err(InviteNotFound);
    }
    db.networkInvites := db.networkInvites[n := db.networkInvites[n].(accepted := true)];
    return Ok(());
  }

  // ---------------------------------------------------------------- the service

  method InviteByEmail(db: Database, now: Instant, inviter: UserId, email: string, sends: bool) returns (r: Result<()>)
    modifies db
    ensures Outcome(db.State(), r) == NetworkRules.InviteByEmail(old(db.State()), now, inviter, email, sends)
  {
    if email == "" {
      return Err(EmailRequired);
    }
    if EmailTaken(db.users, email) {
      return Err(EmailAlreadyRegistered);
    }
    if inviter !in db.users {
      return Err(DatabaseError);
    }
    if exists n :: n in db.networkInvites && PendingFrom(db.networkInvites[n], inviter, email) {
      db.networkInvites := Refreshed(db.networkInvites, now, inviter, email);
    } else {
      db.networkInvites := db.networkInvites[db.nextId := NetworkInvite(inviter, email, now, false)];
      db.nextId := db.nextId + 1;
    }
    if !sends {
      return Err(DatabaseError);
    }
    return Ok(());
  }

  /** One turn of the loop; `n` was listed with this inviter. */
  method ResolveInvite(db: Database, u: UserId, n: NetworkInviteId, inviter: UserId, faults: ResolveFaults) returns (failed: bool)
    requires n in db.networkInvites && db.networkInvites[n].inviter == inviter
    modifies db
    ensures (db.State(), failed) == ResolveOne(old(db.State()), u, n, faults)
  {
    var connected := CreateMutualConnection(db, inviter, u, n in faults.connect);
    if connected.Err? {
      return true;
    }
    var marked := MarkInviteAccepted(db, n, n in faults.mark);
    return marked.Err?;
  }

  lemma ResolveOneKeepsInviters(d: Db, u: UserId, n: NetworkInviteId, faults: ResolveFaults)
    ensures var d' := ResolveOne(d, u, n, faults).0;
            d'.networkInvites.Keys == d.networkInvites.Keys && forall m | m in d.networkInvites :: d'.networkInvites[m].inviter == d.networkInvites[m].inviter
  {
    if n in d.networkInvites {
      ResolveOneRows(d, u, n, faults);
    }
  }

  /** One bad invite does not stop the rest; `errs` collects the ones that failed. */
  method ResolvePendingInvites(db: Database, u: UserId, email: string, listFails: bool, faults: ResolveFaults)
    returns (failed: bool, ghost order: seq<NetworkInviteId>)
    modifies db
    ensures listFails ==> failed && db.State() == old(db.State())
    ensures !listFails ==> Lists(order, PendingFor(old(db.State()), email))
                           && (db.State(), failed) == ResolveAll(old(db.State()), u, order, faults)
  {
    order := [];
    if listFails {
      return true, order;
    }
    var invites: seq<NetworkInviteId> := EventRepository.Fetch<NetworkInviteId>(PendingFor(db.State(), email));
    order := invites;
    assert forall n | n in invites :: n in db.networkInvites;
    var inviters := db.networkInvites;
    var errs: seq<NetworkInviteId> := [];
    var i := 0;
    while i < |invites|
      invariant 0 <= i <= |invites|
      invariant (db.State(), errs != []) == ResolveAll(old(db.State()), u, invites[..i], faults)
      invariant inviters == old(db.networkInvites) && db.networkInvites.Keys == inviters.Keys
      invariant forall n | n in inviters :: db.networkInvites[n].inviter == inviters[n].inviter
    {
      var n := invites[i];
      assert invites[..i + 1][..i] == invites[..i];
      ResolveOneKeepsInviters(db.State(), u, n, faults);
      var failure := ResolveInvite(db, u, n, inviters[n].inviter, faults);
      if failure {
        errs := errs + [n];
      }
      i := i + 1;
    }
    assert invites[..i] == invites;
    return errs != [], order;
  }

  // ---------------------------------------------------------------- read off the tables

  /** No address, or one that has an account, is invited; a mail that fails is an error but leaves the row. */
  lemma InviteAnswers(d: Db, now: Instant, inviter: UserId, email: string, sends: bool)
    requires inviter in d.users
    ensures var o := NetworkRules.InviteByEmail(d, now, inviter, email, sends);
            var taken := exists u :: u in d.users && d.users[u].email == email;
            && (o.result == Err(EmailRequired) <==> email == "")
            && (o.result == Err(EmailAlreadyRegistered) <==> email != "" && taken)
            && (o.result.Ok? <==> email != "" && !taken && sends)
            && (email == "" || taken ==> o.db == d)
  {
  }

  /** Two people are connected both ways or not at all; what is new has no group and no flag, what was there stays. */
  lemma MutualExactly(d: Db, a: UserId, b: UserId)
    ensures var o := NetworkRules.CreateMutualConnection(d, a, b);
            && (o.result.Ok? <==> a != b && a in d.users && b in d.users)
            && (o.result.Err? ==> o.db == d)
            && (o.result.Ok? ==>
                  && o.db == d.(connections := o.db.connections)
                  && (forall k :: k in o.db.connections <==> k in d.connections || k == ConnectionKey(a, b) || k == ConnectionKey(b, a))
                  && (forall k | k in o.db.connections ::
                        o.db.connections[k] == if k in d.connections then d.connections[k] else Connection(None, false)))
  {
  }

  /** The invitations a new account is resolved against. */
  lemma PendingIs(d: Db, email: string, n: NetworkInviteId)
    ensures n in PendingFor(d, email) <==> n in d.networkInvites && d.networkInvites[n].email == email && !d.networkInvites[n].accepted
  {
  }

  // ---------------------------------------------------------------- inviting the same address again

  /** The rows an inviter has pending for an address. */
  function PendingOf(rows: map<NetworkInviteId, NetworkInvite>, inviter: UserId, email: string): set<NetworkInviteId> {
    set n | n in rows && PendingFrom(rows[n], inviter, email)
  }

  /** Row `n` is the only pending one and is dated now; a row that was pending before keeps its place, and no other row changes. */
  ghost predicate OnlyPending(rows: map<NetworkInviteId, NetworkInvite>, rows': map<NetworkInviteId, NetworkInvite>,
                              now: Instant, inviter: UserId, email: string, n: NetworkInviteId) {
    && PendingOf(rows', inviter, email) == {n} && rows'[n].createdAt == now
    && PendingOf(rows, inviter, email) <= {n}
    && rows'.Keys == rows.Keys + {n}
    && forall m | m in rows && m != n :: rows'[m] == rows[m]
  }

  lemma RefreshedOnlyPending(rows: map<NetworkInviteId, NetworkInvite>, users: set<UserId>, nextId: nat,
                             now: Instant, inviter: UserId, email: string, n: NetworkInviteId)
    requires NetworkInvitesValid(rows, users, nextId) && n in rows && PendingFrom(rows[n], inviter, email)
    ensures OnlyPending(rows, Refreshed(rows, now, inviter, email), now, inviter, email, n)
  {
    var rows' := Refreshed(rows, now, inviter, email);
    forall m | m in rows && m != n
      ensures !PendingFrom(rows[m], inviter, email)
    {
      assert rows[m].accepted || rows[m].inviter != inviter || rows[m].email != email;
    }
    assert PendingOf(rows, inviter, email) == {n};
    assert PendingOf(rows', inviter, email) == {n};
  }

  lemma InviteUpserts(d: Db, now: Instant, inviter: UserId, email: string, sends: bool)
    requires inviter in d.users && email != "" && !EmailTaken(d.users, email)
    ensures NetworkRules.InviteByEmail(d, now, inviter, email, sends).db.networkInvites
         == if exists n :: n in d.networkInvites && PendingFrom(d.networkInvites[n], inviter, email)
            then Refreshed(d.networkInvites, now, inviter, email)
            else d.networkInvites[d.nextId := NetworkInvite(inviter, email, now, false)]
  {
    var o := CreateOrRefreshInvite(d, now, inviter, email);
    assert NetworkRules.InviteByEmail(d, now, inviter, email, sends).db == o.db;
  }

  /** After inviting an address without an account there is one pending row, however often it was invited and mail or no mail. */
  lemma InviteLeavesOnePending(d: Db, now: Instant, inviter: UserId, email: string, sends: bool) returns (n: NetworkInviteId)
    requires NetworkInvitesValid(d.networkInvites, d.users.Keys, d.nextId)
    requires inviter in d.users && email != "" && !EmailTaken(d.users, email)
    ensures OnlyPending(d.networkInvites, NetworkRules.InviteByEmail(d, now, inviter, email, sends).db.networkInvites, now, inviter, email, n)
  {
    var rows := d.networkInvites;
    InviteUpserts(d, now, inviter, email, sends);
    if m :| m in rows && PendingFrom(rows[m], inviter, email) {
      n := m;
      RefreshedOnlyPending(rows, d.users.Keys, d.nextId, now, inviter, email, n);
    } else {
      n := d.nextId;
      NewOnlyPending(rows, now, inviter, email, n);
    }
  }

  lemma NewOnlyPending(rows: map<NetworkInviteId, NetworkInvite>, now: Instant, inviter: UserId, email: string, n: NetworkInviteId)
    requires n !in rows && PendingOf(rows, inviter, email) == {}
    ensures OnlyPending(rows, rows[n := NetworkInvite(inviter, email, now, false)], now, inviter, email, n)
  {
    var rows' := rows[n := NetworkInvite(inviter, email, now, false)];
    assert forall m | m in rows :: m in PendingOf(rows, inviter, email) <==> PendingFrom(rows[m], inviter, email);
    assert PendingOf(rows', inviter, email) == {n};
  }

  // ---------------------------------------------------------------- what resolving leaves behind

  predicate Connected(d: Db, a: UserId, b: UserId) {
    ConnectionKey(a, b) in d.connections && ConnectionKey(b, a) in d.connections
  }

  /** One listed invite after the loop: accepted with both directions there, or untouched. */
  predicate Settled(d: Db, d': Db, u: UserId, n: NetworkInviteId)
    requires n in d.networkInvites && n in d'.networkInvites
  {
    if d'.networkInvites[n].accepted
    then d'.networkInvites[n] == d.networkInvites[n].(accepted := true) && Connected(d', d.networkInvites[n].inviter, u)
    else d'.networkInvites[n] == d.networkInvites[n]
  }

  /** Connections only come, and only between `u` and an inviter of a listed invite. */
  ghost predicate ConnectionsGrow(d: Db, d': Db, u: UserId, order: seq<NetworkInviteId>) {
    && (forall k | k in d.connections :: k in d'.connections && d'.connections[k] == d.connections[k])
    && (forall k | k in d'.connections && k !in d.connections ::
          exists n :: n in order && n in d.networkInvites
                      && (k == ConnectionKey(d.networkInvites[n].inviter, u) || k == ConnectionKey(u, d.networkInvites[n].inviter)))
  }

  /** A listed invite resolves exactly when neither call fails and it was not sent by the user to themselves. */
  predicate Resolves(d: Db, u: UserId, n: NetworkInviteId, faults: ResolveFaults)
    requires n in d.networkInvites
  {
    && n !in faults.connect && n !in faults.mark && d.networkInvites[n].inviter != u
    && d.networkInvites[n].inviter in d.users && u in d.users
  }

  lemma ResolveOneRows(d: Db, u: UserId, n: NetworkInviteId, faults: ResolveFaults)
    requires n in d.networkInvites
    ensures var (d', failed) := ResolveOne(d, u, n, faults);
            && (failed <==> !Resolves(d, u, n, faults)) && d'.users == d.users
            && d'.networkInvites == if failed then d.networkInvites else d.networkInvites[n := d.networkInvites[n].(accepted := true)]
  {
    if n !in faults.connect {
      var o := NetworkRules.CreateMutualConnection(d, d.networkInvites[n].inviter, u);
      assert o.result.Ok? ==> o.db == d.(connections := o.db.connections);
    }
  }

  lemma ResolveOneGrows(d: Db, u: UserId, n: NetworkInviteId, faults: ResolveFaults)
    requires n in d.networkInvites
    ensures var (d', failed) := ResolveOne(d, u, n, faults);
            && (forall k | k in d.connections :: k in d'.connections && d'.connections[k] == d.connections[k])
            && (forall k | k in d'.connections && k !in d.connections ::
                  k == ConnectionKey(d.networkInvites[n].inviter, u) || k == ConnectionKey(u, d.networkInvites[n].inviter))
            && (!failed ==> Connected(d', d.networkInvites[n].inviter, u))
  {
    if n !in faults.connect {
      var o := NetworkRules.CreateMutualConnection(d, d.networkInvites[n].inviter, u);
      var cs := WithConnection(WithConnection(d.connections, d.networkInvites[n].inviter, u), u, d.networkInvites[n].inviter);
      assert o.result.Ok? ==> o.db == d.(connections := cs);
    }
  }

  /** The invites after the loop: accepted exactly when they resolve, and nothing else changes. */
  lemma {:induction false} ResolveAllRows(d: Db, u: UserId, order: seq<NetworkInviteId>, faults: ResolveFaults)
    requires forall i, j | 0 <= i < j < |order| :: order[i] != order[j]
    requires forall n | n in order :: n in d.networkInvites && !d.networkInvites[n].accepted
    ensures var (d', failed) := ResolveAll(d, u, order, faults);
            && d'.networkInvites.Keys == d.networkInvites.Keys && d'.users == d.users
            && (forall n | n in d.networkInvites :: d'.networkInvites[n]
                  == if n in order && Resolves(d, u, n, faults) then d.networkInvites[n].(accepted := true) else d.networkInvites[n])
            && (failed <==> exists n :: n in order && !Resolves(d, u, n, faults))
  {
    if order != [] {
      var rest, last := order[..|order| - 1], order[|order| - 1];
      assert order == rest + [last];
      ResolveAllRows(d, u, rest, faults);
      var d1 := ResolveAll(d, u, rest, faults).0;
      assert last !in rest && Resolves(d1, u, last, faults) == Resolves(d, u, last, faults);
      ResolveOneRows(d1, u, last, faults);
    }
  }

  lemma {:induction false} ResolveAllConnections(d: Db, u: UserId, order: seq<NetworkInviteId>, faults: ResolveFaults)
    requires forall i, j | 0 <= i < j < |order| :: order[i] != order[j]
    requires forall n | n in order :: n in d.networkInvites && !d.networkInvites[n].accepted
    ensures var d' := ResolveAll(d, u, order, faults).0;
            && ConnectionsGrow(d, d', u, order)
            && (forall n | n in order && Resolves(d, u, n, faults) :: Connected(d', d.networkInvites[n].inviter, u))
  {
    if order != [] {
      var rest, last := order[..|order| - 1], order[|order| - 1];
      assert order == rest + [last];
      ResolveAllConnections(d, u, rest, faults);
      ResolveAllRows(d, u, rest, faults);
      var d1 := ResolveAll(d, u, rest, faults).0;
      ResolveOneRows(d1, u, last, faults);
      ResolveOneGrows(d1, u, last, faults);
    }
  }

  /**
   Whatever fails: each listed invite ends accepted with both directions connected or is still
   pending as it was, an error is reported exactly when one is still pending, and no other invite
   and no other connection is touched.
   */
  lemma ResolveSettles(d: Db, u: UserId, email: string, order: seq<NetworkInviteId>, faults: ResolveFaults)
    requires Lists(order, PendingFor(d, email))
    ensures var (d', failed) := ResolveAll(d, u, order, faults);
            && d'.networkInvites.Keys == d.networkInvites.Keys
            && (forall n | n in PendingFor(d, email) :: Settled(d, d', u, n))
            && (failed <==> PendingFor(d', email) != {})
            && (forall n | n in d.networkInvites && n !in PendingFor(d, email) :: d'.networkInvites[n] == d.networkInvites[n])
            && ConnectionsGrow(d, d', u, order)
  {
    ResolveAllRows(d, u, order, faults);
    ResolveAllConnections(d, u, order, faults);
    var d' := ResolveAll(d, u, order, faults).0;
    forall n | n in order
      ensures n in PendingFor(d', email) <==> !Resolves(d, u, n, faults)
    {
      assert n in PendingFor(d, email);
    }
  }

  /** A later run without failures clears the address when no pending row is the user's own; `Invitations` proves that none ever is. */
  lemma RerunClearsIff(d: Db, u: UserId, email: string, order: seq<NetworkInviteId>)
    requires Consistent(d) && u in d.users && Lists(order, PendingFor(d, email))
    ensures PendingFor(ResolveAll(d, u, order, ResolveFaults({}, {})).0, email) == {}
       <==> forall n | n in PendingFor(d, email) :: d.networkInvites[n].inviter != u
  {
    var none := ResolveFaults({}, {});
    ResolveSettles(d, u, email, order, none);
    ResolveAllRows(d, u, order, none);
    forall n | n in order
      ensures Resolves(d, u, n, none) <==> d.networkInvites[n].inviter != u
    {
      assert n in PendingFor(d, email);
    }
  }
}
