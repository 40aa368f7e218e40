/** Deleting an account, statement by statement, and what a later registration finds. */
module Accounts {
  import opened Tables
  import opened InviteRules
  import opened FeedRules
  import opened AccountRules
  import opened NetworkRules
  import opened Protocol
  import opened Consistency
  import Feed
  import Reminders

  // ---------------------------------------------------------------- the transaction

  /** The cleanup statements in the order the transaction runs them. */
  datatype Statement =
    | DropCredentials | DropConnections | DropGroups | DropTemplates | DropNotifications
    | DropSubscriptions | DropSentNetworkInvites | DropFutureEvents | DropFutureInvites

  const STATEMENTS: seq<Statement> :=
    [DropCredentials, DropConnections, DropGroups, DropTemplates, DropNotifications,
     DropSubscriptions, DropSentNetworkInvites, DropFutureEvents, DropFutureInvites]

  /** One statement with its cascades: groups null out connections, events take their invites along. */
  function Execute(d: Db, s: Statement, u: UserId, now: Instant): Db {
    match s
    case DropCredentials => d.(credentials := d.credentials - {u})
    case DropConnections =>
      d.(connections := map k | k in d.connections && k.user != u && k.contact != u :: d.connections[k])
    case DropGroups =>
      d.(groups := d.groups - OwnedBy(d.groups, u),
         connections := map k | k in d.connections :: Ungrouped(d.connections[k], OwnedBy(d.groups, u)))
    case DropTemplates => d.(templates := d.templates - OwnedBy(d.templates, u))
    case DropNotifications => d.(notifications := Others(d.notifications, u))
    case DropSubscriptions => d.(subscriptions := d.subscriptions - OwnedBy(d.subscriptions, u))
    case DropSentNetworkInvites =>
      d.(networkInvites := map n | n in d.networkInvites && d.networkInvites[n].inviter != u :: d.networkInvites[n])
    case DropFutureEvents => DropEvents(d, FutureEventsOf(d, now, u))
    case DropFutureInvites =>
      d.(invites := map k | k in d.invites && !(k.guest == u && k.event in d.events && d.events[k.event].date > now) :: d.invites[k])
  }

  /** The first `n` statements, one after the other. */
  function ExecuteFirst(d: Db, n: nat, u: UserId, now: Instant): Db
    requires n <= |STATEMENTS|
  {
    if n == 0 then d else Execute(ExecuteFirst(d, n - 1, u, now), STATEMENTS[n - 1], u, now)
  }

  lemma ContactStatements(d: Db, now: Instant, u: UserId)
    ensures Execute(Execute(d, DropConnections, u, now), DropGroups, u, now)
         == d.(connections := map k | k in d.connections && k.user != u && k.contact != u ::
                                Ungrouped(d.connections[k], OwnedBy(d.groups, u)),
               groups := d.groups - OwnedBy(d.groups, u))
  {
  }

  lemma GuestStatements(d: Db, now: Instant, u: UserId)
    ensures Execute(Execute(d, DropFutureEvents, u, now), DropFutureInvites, u, now)
         == d.(events := d.events - FutureEventsOf(d, now, u),
               invites := map k | k in d.invites && k.event !in FutureEventsOf(d, now, u)
                            && !(k.guest == u && k.event in d.events && d.events[k.event].date > now) :: d.invites[k])
  {
  }

  lemma FirstThree(d: Db, now: Instant, u: UserId)
    ensures ExecuteFirst(d, 3, u, now)
         == d.(credentials := d.credentials - {u},
               connections := map k | k in d.connections && k.user != u && k.contact != u ::
                                Ungrouped(d.connections[k], OwnedBy(d.groups, u)),
               groups := d.groups - OwnedBy(d.groups, u))
  {
    var d1 := d.(credentials := d.credentials - {u});
    assert ExecuteFirst(d, 0, u, now) == d;
    assert ExecuteFirst(d, 1, u, now) == d1;
    ContactStatements(d1, now, u);
    assert ExecuteFirst(d, 2, u, now) == Execute(d1, DropConnections, u, now);
  }

  lemma MiddleFour(d: Db, now: Instant, u: UserId)
    ensures var d3 := ExecuteFirst(d, 3, u, now);
            ExecuteFirst(d, 7, u, now)
            == d3.(templates := d3.templates - OwnedBy(d3.templates, u),
                   notifications := Others(d3.notifications, u),
                   subscriptions := d3.subscriptions - OwnedBy(d3.subscriptions, u),
                   networkInvites := map n | n in d3.networkInvites && d3.networkInvites[n].inviter != u :: d3.networkInvites[n])
  {
    var d3 := ExecuteFirst(d, 3, u, now);
    assert ExecuteFirst(d, 4, u, now) == d3.(templates := d3.templates - OwnedBy(d3.templates, u));
    var d5 := ExecuteFirst(d, 5, u, now);
    assert d5 == d3.(templates := d3.templates - OwnedBy(d3.templates, u), notifications := Others(d3.notifications, u));
    assert ExecuteFirst(d, 6, u, now) == d5.(subscriptions := d5.subscriptions - OwnedBy(d5.subscriptions, u));
  }

  lemma LastTwo(d: Db, now: Instant, u: UserId)
    ensures var d7 := ExecuteFirst(d, 7, u, now);
            ExecuteFirst(d, 9, u, now) == Execute(Execute(d7, DropFutureEvents, u, now), DropFutureInvites, u, now)
  {
  }

  function WithoutInvitesTo(d: Db, email: string): Db {
    d.(networkInvites := map n | n in d.networkInvites && d.networkInvites[n].email != email :: d.networkInvites[n])
  }

  function Anonymised(d: Db, u: UserId): Db {
    d.(users := d.users[u := User("Inactive user", Tombstone(u), None, true)])
  }

  /** The statements one after the other do what `Erased` says in one go. */
  lemma AllStatements(d: Db, now: Instant, u: UserId)
    requires u in d.users
    ensures ExecuteFirst(d, |STATEMENTS|, u, now).users == d.users
    ensures Anonymised(WithoutInvitesTo(ExecuteFirst(d, |STATEMENTS|, u, now), d.users[u].email), u) == Erased(d, now, u)
  {
    FirstThree(d, now, u);
    MiddleFour(d, now, u);
    LastTwo(d, now, u);
    GuestStatements(ExecuteFirst(d, 7, u, now), now, u);
  }

  method Write(db: Database, d: Db)
    modifies db
    ensures db.State() == d
  {
    db.users, db.credentials, db.events, db.invites := d.users, d.credentials, d.events, d.invites;
    db.notifications, db.connections, db.groups := d.notifications, d.connections, d.groups;
    db.templates, db.subscriptions, db.networkInvites := d.templates, d.subscriptions, d.networkInvites;
    db.nextId, db.nextInvite := d.nextId, d.nextInvite;
  }

  /** The loop over the cleanup statements; statement `fails` of the transaction fails and ends it. */
  method CleanUp(db: Database, now: Instant, u: UserId, fails: Option<nat>) returns (ok: bool)
    modifies db
    ensures ok <==> !(fails.Some? && 1 <= fails.value <= |STATEMENTS|)
    ensures db.State() == ExecuteFirst(old(db.State()), if ok then |STATEMENTS| else fails.value - 1, u, now)
  {
    var i := 0;
    while i < |STATEMENTS|
      invariant 0 <= i <= |STATEMENTS|
      invariant fails.Some? ==> !(1 <= fails.value <= i)
      invariant db.State() == ExecuteFirst(old(db.State()), i, u, now)
    {
      if fails == Some(i + 1) {
        return false;
      }
      Write(db, Execute(db.State(), STATEMENTS[i], u, now));
      i := i + 1;
    }
    return true;
  }

  /** How many statements the transaction has: the locking SELECT, the cleanup, two more, COMMIT. */
  const TRANSACTION: nat := |STATEMENTS| + 4

  /**
   The statements write to the tables one by one; when one fails, however far the transaction has
   come, everything is as it was before.
   */
  method DeleteUser(db: Database, now: Instant, u: UserId, fails: Option<nat>) returns (r: Result<()>)
    modifies db
    ensures Outcome(db.State(), r)
         == var d := old(db.State());
            if fails == Some(0) then Outcome(d, Err(DatabaseError))
            else if u !in d.users || d.users[u].deleted then Outcome(d, Err(UserNotFound))
            else if fails.Some? && fails.value < TRANSACTION then Outcome(d, Err(DatabaseError))
            else AccountRules.DeleteUser(d, now, u)
  {
    if fails == Some(0) {
      return Err(DatabaseError);
    }
    if u !in db.users || db.users[u].deleted {
      return Err(UserNotFound);
    }
    var email := db.users[u].email;
    var before := db.State();
    AllStatements(before, now, u);
    var ok := CleanUp(db, now, u, fails);
    if !ok || fails == Some(|STATEMENTS| + 1) {
      Write(db, before);
      return Err(DatabaseError);
    }
    Write(db, WithoutInvitesTo(db.State(), email));
    if fails == Some(|STATEMENTS| + 2) || exists v :: v in db.users && v != u && db.users[v].email == Tombstone(u) {
      Write(db, before);
      return Err(DatabaseError);
    }
    Write(db, Anonymised(db.State(), u));
    if fails == Some(|STATEMENTS| + 3) {
      Write(db, before);
      return Err(DatabaseError);
    }
    return Ok(());
  }

  method CreateUser(db: Database, name: string, email: string, address: Option<string>) returns (r: Result<UserId>)
    modifies db
    ensures Outcome(db.State(), r) == AccountRules.CreateUser(old(db.State()), name, email, address)
  {
    if EmailTaken(db.users, email) {
      return Err(UserAlreadyExists);
    }
    if exists u :: u in db.credentials && db.credentials[u] == email {
      return Err(CredentialsAlreadyExist);
    }
    var id := db.nextId;
    db.users := db.users[id := User(name, email, address, false)];
    db.credentials := db.credentials[id := email];
    db.nextId := id + 1;
    return Ok(id);
  }

  // ---------------------------------------------------------------- when it succeeds

  /** A live account can be deleted exactly when nobody else holds its tombstone address. */
  lemma DeleteSucceedsIff(d: Db, now: Instant, u: UserId)
    ensures AccountRules.DeleteUser(d, now, u).result.Ok?
       <==> u in d.users && !d.users[u].deleted
            && forall v | v in d.users && v != u :: d.users[v].email != "deleted+" + Decimal(u) + "@deleted.invalid"
    ensures AccountRules.DeleteUser(d, now, u).result == Err(UserNotFound) <==> u !in d.users || d.users[u].deleted
    ensures AccountRules.DeleteUser(d, now, u).result.Ok? <==> Deletable(d, u)
    ensures AccountRules.DeleteUser(d, now, u).db == if Deletable(d, u) then Erased(d, now, u) else d
  {
  }

  // ---------------------------------------------------------------- what is gone, what stays

  /** Nothing personal of `u` is left, and nothing of theirs lies ahead. */
  ghost predicate NoTrace(d: Db, now: Instant, u: UserId, email: string) {
    && u !in d.credentials
    && u in d.users && d.users[u].deleted && d.users[u].address == None
    && (forall k | k in d.connections :: k.user != u && k.contact != u)
    && (forall g | g in d.groups :: d.groups[g] != u)
    && (forall t | t in d.templates :: d.templates[t] != u)
    && (forall s | s in d.subscriptions :: d.subscriptions[s] != u)
    && (forall n | n in d.notifications :: n.user != u)
    && (forall n | n in d.networkInvites :: d.networkInvites[n].inviter != u && d.networkInvites[n].email != email)
    && (forall e | e in d.events && d.events[e].date > now :: d.events[e].owner != u && InviteKey(e, u) !in d.invites)
  }

  lemma DeleteLeavesNoTrace(d: Db, now: Instant, u: UserId)
    requires Consistent(d) && Deletable(d, u)
    ensures NoTrace(AccountRules.DeleteUser(d, now, u).db, now, u, d.users[u].email)
  {
    OthersUsers(d.notifications, u, d.users.Keys);
  }

  /** Past events keep their rows and guest lists; other people's events, accounts and feeds are untouched. */
  lemma DeletePreservesThePast(d: Db, now: Instant, u: UserId)
    requires Consistent(d) && Deletable(d, u)
    ensures var d' := AccountRules.DeleteUser(d, now, u).db;
            && (forall e | e in d.events && (d.events[e].date <= now || d.events[e].owner != u) ::
                  e in d'.events && d'.events[e] == d.events[e])
            && (forall k | k in d.invites && d.events[k.event].date <= now :: k in d'.invites && d'.invites[k] == d.invites[k])
            && (forall k | k in d.invites && k.guest != u && d.events[k.event].owner != u :: k in d'.invites && d'.invites[k] == d.invites[k])
            && (forall v | v in d.users && v != u :: v in d'.users && d'.users[v] == d.users[v])
  {
  }

  /** Every group, template, subscription and sign-in of anyone else is there as it was, and no other appears. */
  lemma DeleteKeepsOtherOwners(d: Db, now: Instant, u: UserId)
    requires Deletable(d, u)
    ensures var d' := AccountRules.DeleteUser(d, now, u).db;
            && OthersRowsStay(d.groups, d'.groups, u)
            && OthersRowsStay(d.templates, d'.templates, u)
            && OthersRowsStay(d.subscriptions, d'.subscriptions, u)
            && (forall v :: v in d'.credentials <==> v in d.credentials && v != u)
            && (forall v | v in d'.credentials :: d'.credentials[v] == d.credentials[v])
  {
  }

  /** Exactly the rows of `u` are gone from a table of rows with an owner. */
  ghost predicate OthersRowsStay<K(!new)>(table: map<K, UserId>, table': map<K, UserId>, u: UserId) {
    && (forall k :: k in table' <==> k in table && table[k] != u)
    && (forall k | k in table' :: table'[k] == table[k])
  }

  /**
   A connection between two other people keeps its flag, and its group unless that group was the deleted
   user's; an invitation stays unless the user sent it or it went to their address.
   */
  lemma DeleteKeepsOtherConnections(d: Db, now: Instant, u: UserId)
    requires Deletable(d, u)
    ensures var d' := AccountRules.DeleteUser(d, now, u).db;
            && (forall k :: k in d'.connections <==> k in d.connections && k.user != u && k.contact != u)
            && (forall k | k in d'.connections ::
                  && d'.connections[k].favorite == d.connections[k].favorite
                  && d'.connections[k].group == match d.connections[k].group
                                                case None => None
                                                case Some(g) => if g in d.groups && d.groups[g] == u then None else Some(g))
            && (forall n :: n in d'.networkInvites
                       <==> n in d.networkInvites && d.networkInvites[n].inviter != u && d.networkInvites[n].email != d.users[u].email)
            && (forall n | n in d'.networkInvites :: d'.networkInvites[n] == d.networkInvites[n])
  {
  }

  /** The row that is left says who is gone and nothing else about them. */
  lemma DeletedRow(d: Db, now: Instant, u: UserId)
    requires Deletable(d, u)
    ensures var d' := AccountRules.DeleteUser(d, now, u).db;
            && d'.users.Keys == d.users.Keys && d'.users[u] == User("Inactive user", "deleted+" + Decimal(u) + "@deleted.invalid", None, true)
            && d'.nextId == d.nextId && d'.nextInvite == d.nextInvite
  {
  }

  lemma {:induction false} DecimalDigits(n: nat)
    ensures Decimal(n) != "" && (forall i | 0 <= i < |Decimal(n)| :: '0' <= Decimal(n)[i] <= '9')
    ensures |Decimal(n)| == 1 <==> n < 10
  {
    if n >= 10 {
      DecimalDigits(n / 10);
    }
  }

  lemma {:induction false} DecimalsDiffer(m: nat, n: nat)
    requires m != n
    ensures Decimal(m) != Decimal(n)
  {
    DecimalDigits(m);
    DecimalDigits(n);
    if m >= 10 && n >= 10 {
      var a, b := Decimal(m), Decimal(n);
      if m / 10 != n / 10 {
        DecimalsDiffer(m / 10, n / 10);
        assert a[..|a| - 1] == Decimal(m / 10) && b[..|b| - 1] == Decimal(n / 10);
      } else {
        assert a[|a| - 1] == ('0' as int + m % 10) as char && b[|b| - 1] == ('0' as int + n % 10) as char;
      }
    }
  }

  /** No two accounts are left with the same address, so deleting one never stands in another's way. */
  lemma TombstonesDiffer(u: UserId, v: UserId)
    requires u != v
    ensures Tombstone(u) != Tombstone(v)
  {
    DecimalsDiffer(u, v);
    var m := |"deleted+"|;
    assert Tombstone(u)[m..m + |Decimal(u)|] == Decimal(u);
    assert Tombstone(v)[m..m + |Decimal(v)|] == Decimal(v);
    assert |Tombstone(u)| - |Decimal(u)| == |Tombstone(v)| - |Decimal(v)|;
  }

  lemma DeletionsDoNotBlock(d: Db, now: Instant, u: UserId, v: UserId)
    requires Deletable(d, u) && Deletable(d, v) && u != v
    ensures Deletable(AccountRules.DeleteUser(d, now, u).db, v)
  {
    TombstonesDiffer(u, v);
    DeletedRow(d, now, u);
    var d' := AccountRules.DeleteUser(d, now, u).db;
    assert forall w | w in d.users && w != u :: d'.users[w] == d.users[w];
    assert d'.users[u].email == Tombstone(u);
  }

  lemma DeleteKeepsOtherFeeds(d: Db, now: Instant, u: UserId, v: UserId)
    requires Deletable(d, u) && v != u
    ensures FeedOf(AccountRules.DeleteUser(d, now, u).db.notifications, v) == FeedOf(d.notifications, v)
  {
    OthersFeed(d.notifications, u, v);
  }

  lemma {:induction false} OthersFeed(notes: seq<Notification>, u: UserId, v: UserId)
    requires u != v
    ensures FeedOf(Others(notes, u), v) == FeedOf(notes, v)
  {
    if notes != [] {
      var last := notes[|notes| - 1];
      OthersFeed(notes[..|notes| - 1], u, v);
      Feed.FeedAppend(Others(notes[..|notes| - 1], u), if last.user == u then [] else [last], v);
    }
  }

  // ---------------------------------------------------------------- starting over

  /** An address can be registered exactly when no account and no sign-in has it; the account is as asked for. */
  lemma RegisterExactly(d: Db, name: string, email: string, address: Option<string>)
    ensures var o := AccountRules.CreateUser(d, name, email, address);
            && (o.result == Err(UserAlreadyExists) <==> exists u :: u in d.users && d.users[u].email == email)
            && (o.result.Ok? <==> (forall u | u in d.users :: d.users[u].email != email)
                                  && (forall u | u in d.credentials :: d.credentials[u] != email))
            && (o.result.Ok? ==> o.result.value == d.nextId)
            && o.db == if o.result.Ok?
                       then d.(users := d.users[d.nextId := User(name, email, address, false)],
                               credentials := d.credentials[d.nextId := email], nextId := d.nextId + 1)
                       else d
  {
  }

  /** The address can register again unless it is the tombstone address itself. */
  lemma EmailReleasedIff(d: Db, now: Instant, u: UserId, name: string, address: Option<string>)
    requires Consistent(d) && Deletable(d, u)
    ensures AccountRules.CreateUser(AccountRules.DeleteUser(d, now, u).db, name, d.users[u].email, address).result.Ok?
       <==> d.users[u].email != Tombstone(u)
  {
    var d' := Erased(d, now, u);
    var email := d.users[u].email;
    assert d'.users[u].email == Tombstone(u);
    assert forall v | v in d'.users && v != u :: d'.users[v].email != email;
    assert forall v | v in d'.credentials :: d'.credentials[v] != email;
  }

  /** Whoever registers the freed address starts with no connection, no pending invite and no notification. */
  lemma ReRegistrationStartsFresh(d: Db, now: Instant, u: UserId, name: string, address: Option<string>, pending: seq<NetworkInviteId>, faults: ResolveFaults)
    requires Consistent(d) && Deletable(d, u) && d.users[u].email != Tombstone(u)
    requires Lists(pending, PendingFor(AccountRules.DeleteUser(d, now, u).db, d.users[u].email))
    ensures var again := Register(AccountRules.DeleteUser(d, now, u).db, name, d.users[u].email, address, pending, faults);
            && again.result.Ok? && again.result.value !in d.users
            && PendingFor(again.db, d.users[u].email) == {}
            && (forall k | k in again.db.connections :: k.user != again.result.value && k.contact != again.result.value)
            && FeedOf(again.db.notifications, again.result.value) == []
  {
    var d1 := AccountRules.DeleteUser(d, now, u).db;
    var email := d.users[u].email;
    EmailReleasedIff(d, now, u, name, address);
    DeleteLeavesNoTrace(d, now, u);
    DeleteUserConsistent(d, now, u);
    assert PendingFor(d1, email) == {};
    Reminders.EmptyListing(pending);
    var created := AccountRules.CreateUser(d1, name, email, address);
    assert Register(d1, name, email, address, pending, faults).db == created.db;
    NoFeed(d1.notifications, d1.users.Keys, d1.nextId);
  }

  lemma {:induction false} NoFeed(notes: seq<Notification>, users: set<UserId>, v: UserId)
    requires NotificationsValid(notes, users) && v !in users
    ensures FeedOf(notes, v) == []
  {
    if notes != [] {
      NoFeed(notes[..|notes| - 1], users, v);
    }
  }
}
