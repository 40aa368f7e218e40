/** Service calls as data, and runs of them.  Each call is atomic and carries the clock it ran at. */
module Protocol {
  import opened Tables
  import opened InviteRules
  import opened ReminderRules
  import opened FeedRules
  import opened AccountRules
  import opened NetworkRules

  datatype Call =
    | CreateEventCall(event: Event)
    | UpdateEventCall(e: EventId, patch: EventPatch, actor: UserId, order: seq<Attendee>, lost: set<UserId>)
    | DeleteEventCall(e: EventId, actor: UserId)
    | SendCall(e: EventId, guest: UserId, spread: nat, actor: UserId, delivers: bool)
    | RemoveCall(e: EventId, guest: UserId, actor: UserId, delivers: bool)
    | RespondCall(e: EventId, actor: UserId, status: InviteStatus, reason: Option<string>, delivers: bool)
    | RemindCall(run: ReminderRun)
    | VisitCall(actor: UserId, page: int)
    | RegisterCall(name: string, email: string, address: Option<string>, pending: seq<NetworkInviteId>, faults: ResolveFaults)
    | InviteByEmailCall(actor: UserId, email: string, sends: bool)
    | DeleteUserCall(actor: UserId)

  datatype Timed = Timed(now: Instant, call: Call)

  /** Registration, then the resolver; a failing resolver does not undo the account. */
  function Register(d: Db, name: string, email: string, address: Option<string>, pending: seq<NetworkInviteId>, faults: ResolveFaults): Outcome<UserId> {
    var created := CreateUser(d, name, email, address);
    if created.result.Err? then created
    else Outcome(ResolveAll(created.db, created.result.value, pending, faults).0, created.result)
  }

  function Apply(d: Db, t: Timed): Db {
    match t.call
    case CreateEventCall(ev) => CreateEvent(d, t.now, ev).db
    case UpdateEventCall(e, p, a, order, lost) => UpdateEvent(d, t.now, e, p, a, order, lost).db
    case DeleteEventCall(e, a) => DeleteEvent(d, e, a).db
    case SendCall(e, g, s, a, ok) => SendInvite(d, t.now, e, g, s, a, ok).db
    case RemoveCall(e, g, a, ok) => RemoveInvite(d, t.now, e, g, a, ok).db
    case RespondCall(e, a, status, reason, ok) => Respond(d, t.now, e, a, status, reason, ok).db
    case RemindCall(run) => DailyReminders(d, run)
    case VisitCall(u, page) => Visit(d, u, page).db
    case RegisterCall(name, email, address, pending, faults) => Register(d, name, email, address, pending, faults).db
    case InviteByEmailCall(a, email, sends) => InviteByEmail(d, t.now, a, email, sends).db
    case DeleteUserCall(u) => DeleteUser(d, t.now, u).db
  }

  /** Callers are signed in, and the row orders are ones the queries may return. */
  ghost predicate Legal(d: Db, t: Timed) {
    match t.call
    case CreateEventCall(_) => true
    case UpdateEventCall(e, _, a, order, _) => a in d.users && Lists(order, AttendeeRows(d, e))
    case DeleteEventCall(_, a) => a in d.users
    case SendCall(_, _, _, a, _) => a in d.users
    case RemoveCall(_, _, a, _) => a in d.users
    case RespondCall(_, a, _, _, _) => a in d.users
    case RemindCall(run) => ReminderRunOf(d, t.now, run)
    case VisitCall(u, _) => u in d.users
    case RegisterCall(_, email, _, pending, _) => Lists(pending, PendingFor(d, email))
    case InviteByEmailCall(a, _, _) => a in d.users
    case DeleteUserCall(u) => u in d.users
  }

  function Run(d: Db, trace: seq<Timed>): Db
    decreases |trace|
  {
    if trace == [] then d else Run(Apply(d, trace[0]), trace[1..])
  }

  ghost predicate LegalRun(d: Db, trace: seq<Timed>)
    decreases |trace|
  {
    trace == [] || (Legal(d, trace[0]) && LegalRun(Apply(d, trace[0]), trace[1..]))
  }

  const EMPTY: Db := Db(map[], map[], map[], map[], [], map[], map[], map[], map[], map[], 0, 0)

  /** Some legal run from the empty database ends here. */
  ghost predicate Reachable(d: Db) {
    exists trace :: LegalRun(EMPTY, trace) && Run(EMPTY, trace) == d
  }
}
