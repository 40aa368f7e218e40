/** Registering an account and deleting one. */
module AccountRules {
  import opened Tables
  import opened FeedRules

  function Decimal(n: nat): string {
    if n < 10 then [('0' as int + n) as char] else Decimal(n / 10) + [('0' as int + n % 10) as char]
  }

  /** The address a deleted account is left with. */
  function Tombstone(u: UserId): string {
    "deleted+" + Decimal(u) + "@deleted.invalid"
  }

  predicate EmailTaken(users: map<UserId, User>, email: string) {
    exists u :: u in users && users[u].email == email
  }

  function CreateUser(d: Db, name: string, email: string, address: Option<string>): Outcome<UserId> {
    if EmailTaken(d.users, email) then Outcome(d, Err(UserAlreadyExists))
    else if exists u :: u in d.credentials && d.credentials[u] == email then Outcome(d, Err(CredentialsAlreadyExist))
    else Outcome(d.(users := d.users[d.nextId := User(name, email, address, false)],
                    credentials := d.credentials[d.nextId := email],
                    nextId := d.nextId + 1),
                 Ok(d.nextId))
  }

  function FutureEventsOf(d: Db, now: Instant, u: UserId): set<EventId> {
    set e | e in d.events && d.events[e].owner == u && d.events[e].date > now
  }

  function OwnedBy<K>(table: map<K, UserId>, u: UserId): set<K> {
    set k | k in table && table[k] == u
  }

  /** Everything personal about `u` is gone and the user row is anonymised. */
  function Erased(d: Db, now: Instant, u: UserId): Db
    requires u in d.users
  {
    var gone := FutureEventsOf(d, now, u);
    var goneGroups := OwnedBy(d.groups, u);
    d.(users := d.users[u := User("Inactive user", Tombstone(u), None, true)],
       credentials := d.credentials - {u},
       events := d.events - gone,
       invites := map k | k in d.invites && k.event !in gone
                       && !(k.guest == u && k.event in d.events && d.events[k.event].date > now) :: d.invites[k],
       notifications := Others(d.notifications, u),
       connections := map k | k in d.connections && k.user != u && k.contact != u ::
                        Ungrouped(d.connections[k], goneGroups),
       groups := d.groups - goneGroups,
       templates := d.templates - OwnedBy(d.templates, u),
       subscriptions := d.subscriptions - OwnedBy(d.subscriptions, u),
       networkInvites := map n | n in d.networkInvites && d.networkInvites[n].inviter != u
                              && d.networkInvites[n].email != d.users[u].email :: d.networkInvites[n])
  }

  /** ON DELETE SET NULL. */
  function Ungrouped(c: Connection, gone: set<GroupId>): Connection {
    if c.group.Some? && c.group.value in gone then c.(group := None) else c
  }

  /** A live account whose tombstone address nobody else holds. */
  ghost predicate Deletable(d: Db, u: UserId) {
    u in d.users && !d.users[u].deleted && forall v | v in d.users && v != u :: d.users[v].email != Tombstone(u)
  }

  /** The anonymising UPDATE fails, and with it the transaction, if someone holds the tombstone address. */
  function DeleteUser(d: Db, now: Instant, u: UserId): Outcome<()> {
    if u !in d.users || d.users[u].deleted then Outcome(d, Err(UserNotFound))
    else if exists v :: v in d.users && v != u && d.users[v].email == Tombstone(u) then Outcome(d, Err(DatabaseError))
    else Outcome(Erased(d, now, u), Ok(()))
  }
}
