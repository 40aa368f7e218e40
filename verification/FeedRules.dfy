/** The notification feed: newest first, thirty to a page, and read once visited. */
module FeedRules {
  import opened Tables

  const PAGE_SIZE: nat := 30

  /** ORDER BY created_at DESC, ties broken by insertion. */
  function FeedOf(notes: seq<Notification>, u: UserId): seq<Notification> {
    if notes == [] then []
    else
      var last := notes[|notes| - 1];
      (if last.user == u then [last] else []) + FeedOf(notes[..|notes| - 1], u)
  }

  /** DELETE FROM notifications WHERE user_id = u. */
  function Others(notes: seq<Notification>, u: UserId): seq<Notification> {
    if notes == [] then []
    else
      var last := notes[|notes| - 1];
      Others(notes[..|notes| - 1], u) + (if last.user == u then [] else [last])
  }

  function Unread(notes: seq<Notification>, u: UserId): nat {
    if notes == [] then 0
    else
      var last := notes[|notes| - 1];
      Unread(notes[..|notes| - 1], u) + (if last.user == u && !last.read then 1 else 0)
  }

  function MarkRead(notes: seq<Notification>, u: UserId): seq<Notification> {
    seq(|notes|, i requires 0 <= i < |notes| => if notes[i].user == u then notes[i].(read := true) else notes[i])
  }

  function Min(a: int, b: int): int {
    if a < b then a else b
  }

  /** LIMIT and OFFSET. */
  function Slice<T>(rows: seq<T>, limit: nat, offset: nat): seq<T> {
    rows[Min(offset, |rows|)..Min(offset + limit, |rows|)]
  }

  datatype FeedPage = FeedPage(items: seq<Notification>, total: nat)

  /** A visit sees the feed as it was, then everything counts as read. */
  function Visit(d: Db, u: UserId, page: int): Outcome<FeedPage> {
    var p := if page < 1 then 1 else page;
    var feed := FeedOf(d.notifications, u);
    Outcome(d.(notifications := MarkRead(d.notifications, u)),
            Ok(FeedPage(Slice(feed, PAGE_SIZE, (p - 1) * PAGE_SIZE), |feed|)))
  }

  /** The page count the handler reports. */
  function TotalPages(total: nat): nat {
    var pages := (total + PAGE_SIZE - 1) / PAGE_SIZE;
    if pages < 1 then 1 else pages
  }
}
