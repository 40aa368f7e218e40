/** Paging shows the whole feed, and the unread count is what arrived since the last visit. */
module Feed {
  import opened Tables
  import opened InviteRules
  import opened ReminderRules
  import opened FeedRules
  import opened AccountRules
  import opened Protocol
  import opened Shapes
  import opened Reminders

  // ---------------------------------------------------------------- paging

  function AsRead(items: seq<Notification>): seq<Notification> {
    seq(|items|, i requires 0 <= i < |items| => items[i].(read := true))
  }

  lemma {:induction false} FeedAfterVisit(notes: seq<Notification>, u: UserId)
    ensures FeedOf(MarkRead(notes, u), u) == AsRead(FeedOf(notes, u))
  {
    if notes != [] {
      var rest := notes[..|notes| - 1];
      FeedAfterVisit(rest, u);
      assert MarkRead(notes, u)[..|notes| - 1] == MarkRead(rest, u);
    }
  }

  /** Visiting pages 1 to `n` one after the other, and everything they showed. */
  function Browse(d: Db, u: UserId, n: nat): (Db, seq<Notification>) {
    if n == 0 then (d, [])
    else
      var before := Browse(d, u, n - 1);
      var visit := Visit(before.0, u, n);
      (visit.db, before.1 + visit.result.value.items)
  }

  lemma NextPage<T>(rows: seq<T>, n: nat)
    requires n > 0
    ensures rows[..Min((n - 1) * PAGE_SIZE, |rows|)] + Slice(rows, PAGE_SIZE, (n - 1) * PAGE_SIZE)
         == rows[..Min(n * PAGE_SIZE, |rows|)]
  {
  }

  lemma SliceAsRead(rows: seq<Notification>, limit: nat, offset: nat)
    ensures AsRead(Slice(rows, limit, offset)) == Slice(AsRead(rows), limit, offset)
  {
  }

  lemma {:induction false} BrowsePrefix(d: Db, u: UserId, n: nat)
    ensures var feed := FeedOf(d.notifications, u);
            && AsRead(FeedOf(Browse(d, u, n).0.notifications, u)) == AsRead(feed)
            && AsRead(Browse(d, u, n).1) == AsRead(feed)[..Min(n * PAGE_SIZE, |feed|)]
  {
    var feed := FeedOf(d.notifications, u);
    if n > 0 {
      BrowsePrefix(d, u, n - 1);
      var before := Browse(d, u, n - 1);
      var shown := FeedOf(before.0.notifications, u);
      var page := Slice(shown, PAGE_SIZE, (n - 1) * PAGE_SIZE);
      assert Browse(d, u, n) == (before.0.(notifications := MarkRead(before.0.notifications, u)), before.1 + page);
      FeedAfterVisit(before.0.notifications, u);
      assert AsRead(AsRead(shown)) == AsRead(shown);
      assert AsRead(before.1 + page) == AsRead(before.1) + AsRead(page);
      SliceAsRead(shown, PAGE_SIZE, (n - 1) * PAGE_SIZE);
      NextPage(AsRead(feed), n);
      assert |AsRead(feed)| == |feed|;
    }
  }

  /** Browsing pages 1 to the reported page count shows the whole feed, newest first, each item once. */
  lemma BrowseShowsFeed(d: Db, u: UserId)
    ensures var feed := FeedOf(d.notifications, u);
            AsRead(Browse(d, u, TotalPages(|feed|)).1) == AsRead(feed)
  {
    var feed := FeedOf(d.notifications, u);
    BrowsePrefix(d, u, TotalPages(|feed|));
    assert |feed| <= TotalPages(|feed|) * PAGE_SIZE;
    assert AsRead(feed)[..|feed|] == AsRead(feed);
  }

  /** No page is longer than thirty; a page shows something exactly when it is within the page count and there is anything. */
  lemma PageBounds(d: Db, u: UserId, page: int)
    ensures var view := Visit(d, u, page).result.value;
            var p := if page < 1 then 1 else page;
            && view.total == |FeedOf(d.notifications, u)|
            && |view.items| <= PAGE_SIZE
            && (view.items != [] <==> view.total > 0 && p <= TotalPages(view.total))
            && (p < TotalPages(view.total) ==> |view.items| == PAGE_SIZE)
  {
  }

  /** The feed of `u` holds each of their notifications as often as the table, and nobody else's. */
  lemma {:induction false} FeedHolds(notes: seq<Notification>, u: UserId, n: Notification)
    ensures multiset(FeedOf(notes, u))[n] == if n.user == u then multiset(notes)[n] else 0
  {
    if notes != [] {
      var rest, last := notes[..|notes| - 1], notes[|notes| - 1];
      assert notes == rest + [last];
      FeedHolds(rest, u, n);
    }
  }

  /** Whatever is raised later for `u` comes before everything raised earlier, as it was raised. */
  lemma NewestFirst(notes: seq<Notification>, u: UserId, n: Notification)
    ensures FeedOf(notes + [n], u) == if n.user == u then [n] + FeedOf(notes, u) else FeedOf(notes, u)
  {
    assert (notes + [n])[..|notes + [n]| - 1] == notes;
  }

  /** A page is the thirty items of the feed after those of the pages before it. */
  lemma PageItems(d: Db, u: UserId, page: int, i: nat)
    ensures var items, feed := Visit(d, u, page).result.value.items, FeedOf(d.notifications, u);
            var before := if page < 1 then 0 else (page - 1) * 30;
            && (i < |items| <==> i < 30 && before + i < |feed|)
            && (i < |items| ==> items[i] == feed[before + i])
    ensures Visit(d, u, page).db == d.(notifications := Visit(d, u, page).db.notifications)
  {
  }

  /** Counting the rows of `u` that are not read. */
  lemma {:induction false} UnreadCounts(notes: seq<Notification>, u: UserId)
    ensures Unread(notes, u) == |set i | 0 <= i < |notes| && notes[i].user == u && !notes[i].read|
  {
    if notes != [] {
      var n := |notes| - 1;
      var rest := notes[..n];
      UnreadCounts(rest, u);
      var before := set i | 0 <= i < |rest| && rest[i].user == u && !rest[i].read;
      var all := set i | 0 <= i < |notes| && notes[i].user == u && !notes[i].read;
      assert all == before + if notes[n].user == u && !notes[n].read then {n} else {};
    }
  }

  // ---------------------------------------------------------------- unread count

  lemma {:induction false} FeedAppend(a: seq<Notification>, b: seq<Notification>, u: UserId)
    ensures FeedOf(a + b, u) == FeedOf(b, u) + FeedOf(a, u)
    ensures Unread(a + b, u) == Unread(a, u) + Unread(b, u)
  {
    if b == [] {
      assert a + b == a;
    } else {
      var rest, last := b[..|b| - 1], b[|b| - 1];
      assert (a + b)[..|a + b| - 1] == a + rest;
      FeedAppend(a, rest, u);
    }
  }

  lemma {:induction false} UnreadIsFeed(notes: seq<Notification>, u: UserId)
    requires forall n | n in notes :: !n.read
    ensures Unread(notes, u) == |FeedOf(notes, u)|
  {
    if notes != [] {
      assert notes[|notes| - 1] in notes;
      UnreadIsFeed(notes[..|notes| - 1], u);
    }
  }

  /** The count grew by exactly what the feed grew by. */
  ghost predicate CountsArrivals(notes: seq<Notification>, notes': seq<Notification>, u: UserId) {
    Unread(notes', u) - Unread(notes, u) == |FeedOf(notes', u)| - |FeedOf(notes, u)|
  }

  lemma AppendCounts(notes: seq<Notification>, more: seq<Notification>, u: UserId)
    requires forall n | n in more :: !n.read
    ensures CountsArrivals(notes, notes + more, u)
  {
    FeedAppend(notes, more, u);
    UnreadIsFeed(more, u);
  }

  lemma FanOutUnread(order: seq<Attendee>, e: EventId, exclude: UserId, lost: set<UserId>)
    ensures forall n | n in FanOut(order, e, exclude, lost) :: !n.read
  {
  }

  lemma RaiseUnread(order: seq<InviteKey>, kind: NotificationKind, lost: set<InviteKey>)
    ensures forall n | n in Raise(order, kind, lost) :: !n.read
  {
  }

  lemma {:induction false} OtherVisitCounts(notes: seq<Notification>, v: UserId, u: UserId)
    ensures v != u ==> Unread(MarkRead(notes, v), u) == Unread(notes, u) && |FeedOf(MarkRead(notes, v), u)| == |FeedOf(notes, u)|
    ensures v == u ==> Unread(MarkRead(notes, v), u) == 0
  {
    if notes != [] {
      var rest := notes[..|notes| - 1];
      OtherVisitCounts(rest, v, u);
      assert MarkRead(notes, v)[..|notes| - 1] == MarkRead(rest, v);
    }
  }

  lemma {:induction false} OthersCounts(notes: seq<Notification>, v: UserId, u: UserId)
    ensures v != u ==> Unread(Others(notes, v), u) == Unread(notes, u) && |FeedOf(Others(notes, v), u)| == |FeedOf(notes, u)|
    ensures v == u ==> Unread(Others(notes, v), u) == 0
  {
    if notes != [] {
      var rest, last := notes[..|notes| - 1], notes[|notes| - 1];
      OthersCounts(rest, v, u);
      FeedAppend(Others(rest, v), if last.user == v then [] else [last], u);
    }
  }

  /** The calls after which `u` has nothing unread. */
  predicate Clears(d: Db, t: Timed, u: UserId) {
    (t.call.VisitCall? && t.call.actor == u)
    || (t.call.DeleteUserCall? && t.call.actor == u && DeleteUser(d, t.now, u).result.Ok?)
  }

  lemma EventSideCounts(d: Db, t: Timed, u: UserId)
    requires EventSide(t.call)
    ensures CountsArrivals(d.notifications, Apply(d, t).notifications, u)
  {
    match t.call
    case CreateEventCall(ev) =>
      assert CreateEvent(d, t.now, ev).db.notifications == d.notifications;
    case UpdateEventCall(e, p, a, order, lost) =>
      UpdateNotes(d, t.now, e, p, a, order, lost);
      FanOutUnread(order, e, a, lost);
      AppendCounts(d.notifications, FanOut(order, e, a, lost), u);
    case DeleteEventCall(e, a) =>
      assert DeleteEvent(d, e, a).db.notifications == d.notifications;
  }

  lemma GuestSideCounts(d: Db, t: Timed, u: UserId)
    requires GuestSide(t.call)
    ensures CountsArrivals(d.notifications, Apply(d, t).notifications, u)
  {
    GuestSideNotes(d, t);
    if Apply(d, t).notifications != d.notifications {
      var n :| Apply(d, t).notifications == d.notifications + [n] && !IsReminder(n.kind) && !n.read;
      AppendCounts(d.notifications, [n], u);
    }
  }

  lemma RemindCounts(d: Db, run: ReminderRun, u: UserId)
    ensures CountsArrivals(d.notifications, DailyReminders(d, run).notifications, u)
  {
    RaiseUnread(run.deadlines, RsvpDeadlineReminder, run.lostDeadlines);
    RaiseUnread(run.starting, EventStartingToday, run.lostStarting);
    AppendCounts(d.notifications, Raise(run.deadlines, RsvpDeadlineReminder, run.lostDeadlines), u);
    AppendCounts(AfterDeadlines(d, run).notifications, Raise(run.starting, EventStartingToday, run.lostStarting), u);
  }

  lemma DeleteUserCounts(d: Db, now: Instant, v: UserId, u: UserId)
    ensures v == u && DeleteUser(d, now, v).result.Ok? ==> Unread(DeleteUser(d, now, v).db.notifications, u) == 0
    ensures v != u || DeleteUser(d, now, v).result.Err? ==> CountsArrivals(d.notifications, DeleteUser(d, now, v).db.notifications, u)
  {
    OthersCounts(d.notifications, v, u);
    var o := DeleteUser(d, now, v);
    assert o.db == if o.result.Ok? then Erased(d, now, v) else d;
  }

  lemma VisitCounts(d: Db, v: UserId, page: int, u: UserId)
    ensures v == u ==> Unread(Visit(d, v, page).db.notifications, u) == 0
    ensures v != u ==> CountsArrivals(d.notifications, Visit(d, v, page).db.notifications, u)
  {
    OtherVisitCounts(d.notifications, v, u);
  }

  lemma PeopleCounts(d: Db, t: Timed, u: UserId)
    requires t.call.RegisterCall? || t.call.InviteByEmailCall? || t.call.RemindCall?
    ensures CountsArrivals(d.notifications, Apply(d, t).notifications, u)
  {
    match t.call
    case RemindCall(run) => RemindCounts(d, run, u);
    case RegisterCall(name, email, address, pending, faults) => RegisterNotes(d, name, email, address, pending, faults);
    case InviteByEmailCall(a, email, sends) => InviteByEmailNotes(d, t.now, a, email, sends);
  }

  lemma CallCounts(d: Db, t: Timed, u: UserId)
    ensures if Clears(d, t, u) then Unread(Apply(d, t).notifications, u) == 0
            else CountsArrivals(d.notifications, Apply(d, t).notifications, u)
  {
    if EventSide(t.call) {
      EventSideCounts(d, t, u);
    } else if GuestSide(t.call) {
      GuestSideCounts(d, t, u);
    } else if t.call.VisitCall? {
      VisitCounts(d, t.call.actor, t.call.page, u);
    } else if t.call.DeleteUserCall? {
      DeleteUserCounts(d, t.now, t.call.actor, u);
    } else {
      PeopleCounts(d, t, u);
    }
  }

  /** Notifications for `u` that arrived since the last visit, on top of `unread` at the start. */
  function SinceVisit(d: Db, trace: seq<Timed>, u: UserId, unread: int): int
    decreases |trace|
  {
    if trace == [] then unread
    else
      var d' := Apply(d, trace[0]);
      var arrived := |FeedOf(d'.notifications, u)| - |FeedOf(d.notifications, u)|;
      SinceVisit(d', trace[1..], u, if Clears(d, trace[0], u) then 0 else unread + arrived)
  }

  /** After any run the unread count is the number of notifications raised since the last visit. */
  lemma {:induction false} UnreadIsSinceVisit(d: Db, trace: seq<Timed>, u: UserId)
    ensures Unread(Run(d, trace).notifications, u) == SinceVisit(d, trace, u, Unread(d.notifications, u))
    decreases |trace|
  {
    if trace != [] {
      CallCounts(d, trace[0], u);
      UnreadIsSinceVisit(Apply(d, trace[0]), trace[1..], u);
    }
  }

  // ---------------------------------------------------------------- the service

  method CountByUser(db: Database, u: UserId) returns (count: nat)
    ensures count == |FeedOf(db.notifications, u)|
  {
    var notes := db.notifications;
    count := 0;
    for i := 0 to |notes|
      invariant count == |FeedOf(notes[..i], u)|
    {
      assert notes[..i + 1][..i] == notes[..i];
      if notes[i].user == u {
        count := count + 1;
      }
    }
    assert notes[..|notes|] == notes;
  }

  /** The user's rows become read, wherever they are; every other row, the order and the other tables stay. */
  method MarkAllAsRead(db: Database, u: UserId)
    modifies db
    ensures db.State() == old(db.State()).(notifications := db.notifications)
    ensures |db.notifications| == |old(db.notifications)|
    ensures forall i | 0 <= i < |db.notifications| && old(db.notifications)[i].user == u ::
              db.notifications[i] == old(db.notifications)[i].(read := true)
    ensures forall i | 0 <= i < |db.notifications| && old(db.notifications)[i].user != u ::
              db.notifications[i] == old(db.notifications)[i]
  {
    db.notifications := MarkRead(db.notifications, u);
  }

  /** Counts and reads before marking, so the caller still sees what was unread on this visit. */
  method ListForUser(db: Database, u: UserId, page: int) returns (r: Result<FeedPage>)
    modifies db
    ensures Outcome(db.State(), r) == Visit(old(db.State()), u, page)
  {
    var p := page;
    if p < 1 {
      p := 1;
    }
    var total := CountByUser(db, u);
    var items := Slice(FeedOf(db.notifications, u), PAGE_SIZE, (p - 1) * PAGE_SIZE);
    MarkAllAsRead(db, u);
    assert db.notifications == MarkRead(old(db.notifications), u);
    return Ok(FeedPage(items, total));
  }
}
