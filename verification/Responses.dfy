/** A guest may answer as often as they like until the deadline: the last answer taken is the one that stands. */
module Responses {
  import opened Tables
  import opened InviteRules
  import opened CallEffects

  /** One request to answer, with the clock it arrived at. */
  datatype Attempt = Attempt(now: Instant, status: InviteStatus, reason: Option<string>, delivers: bool)

  /** An answer that accepts or declines, at an event with no deadline or none that is past. */
  predicate Taken(ev: Event, a: Attempt) {
    (a.status == Accepted || a.status == Declined) && (ev.rsvpDeadline.Some? ==> a.now <= ev.rsvpDeadline.value)
  }

  /** The guest's attempts one after the other. */
  function Answer(d: Db, e: EventId, guest: UserId, attempts: seq<Attempt>): Db {
    if attempts == [] then d
    else
      var n, a := |attempts| - 1, attempts[|attempts| - 1];
      Respond(Answer(d, e, guest, attempts[..n]), a.now, e, guest, a.status, a.reason, a.delivers).db
  }

  function Answered(row: Invite, a: Attempt): Invite {
    row.(status := a.status, declineReason := if a.status == Declined then a.reason else None)
  }

  /** How often the sender of the invite hears of an answer `status`. */
  function Heard(ev: Event, attempts: seq<Attempt>, status: InviteStatus): nat {
    if attempts == [] then 0
    else
      var n, a := |attempts| - 1, attempts[|attempts| - 1];
      Heard(ev, attempts[..n], status) + if Taken(ev, a) && a.delivers && a.status == status then 1 else 0
  }

  /** Everything but the guest's own row and the notifications is as it was. */
  ghost predicate OnlyAnswered(d: Db, d': Db, k: InviteKey) {
    && k in d.invites && k in d'.invites && SameButAnswer(d.invites[k], d'.invites[k])
    && d' == d.(invites := d.invites[k := d'.invites[k]], notifications := d'.notifications)
  }

  predicate SameButAnswer(a: Invite, b: Invite) {
    b == a.(status := b.status, declineReason := b.declineReason)
  }

  lemma AttemptStep(d: Db, d1: Db, e: EventId, guest: UserId, a: Attempt)
    requires e in d.events && OnlyAnswered(d, d1, InviteKey(e, guest))
    ensures var d' := Respond(d1, a.now, e, guest, a.status, a.reason, a.delivers).db;
            var k := InviteKey(e, guest);
            && OnlyAnswered(d, d', k)
            && d'.invites[k] == (if Taken(d.events[e], a) then Answered(d.invites[k], a) else d1.invites[k])
            && d'.notifications == d1.notifications
                 + (if Taken(d.events[e], a) && a.delivers then [Notification(d.invites[k].invitedBy, InviteResponse, e, Some(guest), Some(a.status), false)] else [])
  {
    RespondExactly(d1, a.now, e, guest, a.status, a.reason, a.delivers);
  }

  lemma {:induction false} AnswersOnlyAnswer(d: Db, e: EventId, guest: UserId, attempts: seq<Attempt>)
    requires e in d.events && InviteKey(e, guest) in d.invites
    ensures OnlyAnswered(d, Answer(d, e, guest, attempts), InviteKey(e, guest))
  {
    if attempts != [] {
      var n := |attempts| - 1;
      AnswersOnlyAnswer(d, e, guest, attempts[..n]);
      AttemptStep(d, Answer(d, e, guest, attempts[..n]), e, guest, attempts[n]);
    }
  }

  /**
   After any attempts the row shows the last one that was taken, whatever came before it and
   whatever was refused after it.
   */
  lemma {:induction false} LastAnswerStands(d: Db, e: EventId, guest: UserId, attempts: seq<Attempt>, i: nat)
    requires e in d.events && InviteKey(e, guest) in d.invites && i < |attempts|
    requires Taken(d.events[e], attempts[i])
    requires forall j | i < j < |attempts| :: !Taken(d.events[e], attempts[j])
    ensures var d' := Answer(d, e, guest, attempts);
            var k := InviteKey(e, guest);
            k in d'.invites && d'.invites[k] == Answered(d.invites[k], attempts[i])
    decreases |attempts|
  {
    var n := |attempts| - 1;
    AnswersOnlyAnswer(d, e, guest, attempts[..n]);
    AttemptStep(d, Answer(d, e, guest, attempts[..n]), e, guest, attempts[n]);
    if i < n {
      LastAnswerStands(d, e, guest, attempts[..n], i);
    }
  }

  /** Without a single attempt taken nothing has changed. */
  lemma {:induction false} RefusedAnswersLeaveNothing(d: Db, e: EventId, guest: UserId, attempts: seq<Attempt>)
    requires e in d.events && forall a | a in attempts :: !Taken(d.events[e], a)
    ensures Answer(d, e, guest, attempts) == d
  {
    if attempts != [] {
      var n, a := |attempts| - 1, attempts[|attempts| - 1];
      assert attempts == attempts[..n] + [a] && a in attempts;
      RefusedAnswersLeaveNothing(d, e, guest, attempts[..n]);
      RespondExactly(d, a.now, e, guest, a.status, a.reason, a.delivers);
    }
  }

  /** The sender hears of every answer that was taken and delivered, and nobody hears of anything else. */
  lemma {:induction false} SenderHearsEachAnswer(d: Db, e: EventId, guest: UserId, attempts: seq<Attempt>, note: Notification)
    requires e in d.events && InviteKey(e, guest) in d.invites
    ensures multiset(Answer(d, e, guest, attempts).notifications)[note]
         == multiset(d.notifications)[note]
            + if note.status.Some?
                 && note == Notification(d.invites[InviteKey(e, guest)].invitedBy, InviteResponse, e, Some(guest), note.status, false)
              then Heard(d.events[e], attempts, note.status.value) else 0
  {
    if attempts != [] {
      var n := |attempts| - 1;
      AnswersOnlyAnswer(d, e, guest, attempts[..n]);
      SenderHearsEachAnswer(d, e, guest, attempts[..n], note);
      AttemptStep(d, Answer(d, e, guest, attempts[..n]), e, guest, attempts[n]);
    }
  }

  /** Declining hands no budget back: whoever sent the invite has it counted as before. */
  lemma AnswersKeepBudgets(d: Db, e: EventId, guest: UserId, attempts: seq<Attempt>, e': EventId, sender: UserId)
    requires e in d.events && InviteKey(e, guest) in d.invites
    ensures SentRows(Answer(d, e, guest, attempts).invites, e', sender) == SentRows(d.invites, e', sender)
  {
    AnswersOnlyAnswer(d, e, guest, attempts);
  }
}
