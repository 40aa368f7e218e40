/**
 The rows of the database, the constraints the migrations declare on them, and the
 database object that every service call reads and writes.

 Identifiers are numbers instead of UUIDs.  A fresh identifier is taken from a supply
 that never hands out the same one twice.
 */
module Tables {
  type UserId = nat
  type EventId = nat
  type GroupId = nat
  type NetworkInviteId = nat

  /** Milliseconds since the epoch, in UTC. */
  type Instant = int

  const DAY: int := 24 * 60 * 60 * 1000

  datatype Option<+T> = None | Some(value: T)

  /** The sentinel errors of the services; `DatabaseError` stands for every wrapped driver error. */
  datatype Error =
    | EventNotFound | PastEventDate | InvalidRsvpDeadline | UnauthorizedEventUpdate
    | InviteNotAllowed | RemoveNotAllowed | RsvpClosedError | InvalidInviteStatus
    | AlreadyInvited | InvitedUserNotFound | InviteNotFound | EventOwnerNotFound
    | UserNotFound | UserAlreadyExists | CredentialsAlreadyExist
    | EmailRequired | EmailAlreadyRegistered
    | DatabaseError

  datatype Result<+T> = Ok(value: T) | Err(error: Error)

  datatype User = User(name: string, email: string, address: Option<string>, deleted: bool)

  datatype Event = Event(
    owner: UserId, name: string, date: Instant, rsvpDeadline: Option<Instant>,
    defaultSpread: nat, icon: Option<string>)

  datatype InviteStatus = Pending | Accepted | Declined

  /** The primary key of `event_invites`. */
  datatype InviteKey = InviteKey(event: EventId, guest: UserId)

  /** One row of `event_invites`.  `created` numbers the rows in the order they became visible. */
  datatype Invite = Invite(
    invitedBy: UserId, status: InviteStatus, spread: nat, created: nat, declineReason: Option<string>)

  datatype NotificationKind =
    | EventInvite | EventUninvite | InviteResponse | EventUpdated
    | RsvpDeadlineReminder | EventStartingToday

  datatype Notification = Notification(
    user: UserId, kind: NotificationKind, event: EventId, actor: Option<UserId>,
    status: Option<InviteStatus>, read: bool)

  datatype ConnectionKey = ConnectionKey(user: UserId, contact: UserId)

  datatype Connection = Connection(group: Option<GroupId>, favorite: bool)

  datatype NetworkInvite = NetworkInvite(
    inviter: UserId, email: string, createdAt: Instant, accepted: bool)

  /**
   The committed contents of every table.  `groups`, `templates` and `subscriptions` map a
   row to the user it belongs to; `credentials` maps a user to the email they sign in with.
   Notifications are kept oldest first.
   */
  datatype Db = Db(
    users: map<UserId, User>,
    credentials: map<UserId, string>,
    events: map<EventId, Event>,
    invites: map<InviteKey, Invite>,
    notifications: seq<Notification>,
    connections: map<ConnectionKey, Connection>,
    groups: map<GroupId, UserId>,
    templates: map<nat, UserId>,
    subscriptions: map<nat, UserId>,
    networkInvites: map<NetworkInviteId, NetworkInvite>,
    nextId: nat,
    nextInvite: nat)

  /** What a call leaves behind and what it returns. */
  datatype Outcome<+T> = Outcome(db: Db, result: Result<T>)

  // ---------------------------------------------------------------- constraints

  /**
   Each predicate holds one table to its REFERENCES, UNIQUE and CHECK clauses and keeps its
   identifiers below the supply they were taken from.
   */
  ghost predicate AccountsValid(users: map<UserId, User>, credentials: map<UserId, string>, nextId: nat) {
    && (forall u | u in users :: u < nextId)
    && (forall u, v | u in users && v in users && u != v :: users[u].email != users[v].email)
    && (forall u | u in credentials :: u in users && credentials[u] == users[u].email)
  }

  ghost predicate EventsValid(events: map<EventId, Event>, users: set<UserId>, nextId: nat) {
    forall e | e in events :: events[e].owner in users && e < nextId
  }

  ghost predicate InvitesValid(invites: map<InviteKey, Invite>, events: set<EventId>, users: set<UserId>, nextInvite: nat) {
    forall k | k in invites ::
      k.event in events && k.guest in users && invites[k].invitedBy in users && invites[k].created < nextInvite
  }

  ghost predicate NotificationsValid(notes: seq<Notification>, users: set<UserId>) {
    forall i | 0 <= i < |notes| :: notes[i].user in users
  }

  ghost predicate ConnectionsValid(connections: map<ConnectionKey, Connection>, users: set<UserId>, groups: set<GroupId>) {
    forall k | k in connections ::
      && k.user in users && k.contact in users && k.user != k.contact
      && (connections[k].group.Some? ==> connections[k].group.value in groups)
  }

  ghost predicate OwnersValid<K(!new)>(table: map<K, UserId>, users: set<UserId>) {
    forall k | k in table :: table[k] in users
  }

  /** The partial unique index allows one pending invite per inviter and address. */
  ghost predicate NetworkInvitesValid(rows: map<NetworkInviteId, NetworkInvite>, users: set<UserId>, nextId: nat) {
    && (forall n | n in rows :: n < nextId && rows[n].inviter in users)
    && (forall m, n | m in rows && n in rows && m != n && !rows[m].accepted && !rows[n].accepted ::
          rows[m].inviter != rows[n].inviter || rows[m].email != rows[n].email)
  }

  ghost predicate Consistent(d: Db) {
    && AccountsValid(d.users, d.credentials, d.nextId)
    && EventsValid(d.events, d.users.Keys, d.nextId)
    && InvitesValid(d.invites, d.events.Keys, d.users.Keys, d.nextInvite)
    && NotificationsValid(d.notifications, d.users.Keys)
    && ConnectionsValid(d.connections, d.users.Keys, d.groups.Keys)
    && OwnersValid(d.groups, d.users.Keys)
    && OwnersValid(d.templates, d.users.Keys)
    && OwnersValid(d.subscriptions, d.users.Keys)
    && NetworkInvitesValid(d.networkInvites, d.users.Keys, d.nextId)
  }

  /** `order` visits every row of `rows` exactly once: what a query may return. */
  ghost predicate Lists<T(!new)>(order: seq<T>, rows: set<T>) {
    && (forall i, j | 0 <= i < j < |order| :: order[i] != order[j])
    && (forall x :: x in order <==> x in rows)
  }

  /** The tables a service holds a connection to. */
  class Database {
    var users: map<UserId, User>
    var credentials: map<UserId, string>
    var events: map<EventId, Event>
    var invites: map<InviteKey, Invite>
    var notifications: seq<Notification>
    var connections: map<ConnectionKey, Connection>
    var groups: map<GroupId, UserId>
    var templates: map<nat, UserId>
    var subscriptions: map<nat, UserId>
    var networkInvites: map<NetworkInviteId, NetworkInvite>
    var nextId: nat
    var nextInvite: nat

    function State(): Db
      reads this
    {
      Db(users, credentials, events, invites, notifications, connections, groups, templates,
         subscriptions, networkInvites, nextId, nextInvite)
    }
  }
}
