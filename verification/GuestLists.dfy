/**
 What every run keeps about guest lists: chains of inviters have no cycle, and forwarding stays
 within budget for as long as a sender keeps the same invite.
 */
module GuestLists {
  import opened Tables
  import opened InviteRules
  import opened Protocol
  import opened Shapes
  import opened Consistency

  predicate Live(d: Db, k: InviteKey) {
    k in d.invites && k.event in d.events
  }

  /** The row was sent by a guest, not by the owner. */
  predicate Forwarded(d: Db, k: InviteKey) {
    Live(d, k) && d.invites[k].invitedBy != d.events[k.event].owner
  }

  function SenderKey(d: Db, k: InviteKey): InviteKey
    requires k in d.invites
  {
    InviteKey(k.event, d.invites[k].invitedBy)
  }

  /** A forwarded row carries no budget, and a sender that is itself forwarded came back later. */
  ghost predicate ChainStep(d: Db, k: InviteKey) {
    Forwarded(d, k) ==>
      && d.invites[k].spread == 0
      && (Forwarded(d, SenderKey(d, k)) ==> d.invites[k].created < d.invites[SenderKey(d, k)].created)
  }

  /** Live invites sent by the holder of `k` since that row was created. */
  ghost function SentSince(d: Db, k: InviteKey): set<InviteKey>
    requires k in d.invites
  {
    set j | j in SentRows(d.invites, k.event, k.guest) && d.invites[j].created > d.invites[k].created
  }

  ghost predicate WithinBudget(d: Db, k: InviteKey) {
    Live(d, k) && k.guest != d.events[k.event].owner ==>
      && |SentSince(d, k)| <= d.invites[k].spread
      && (SentSince(d, k) != {} ==> |SentRows(d.invites, k.event, k.guest)| <= d.invites[k].spread)
  }

  ghost predicate GuestListsSound(d: Db) {
    && Consistent(d)
    && forall k | k in d.invites :: k.event in d.events && ChainStep(d, k) && WithinBudget(d, k)
  }

  lemma SmallerSubset<T>(a: set<T>, b: set<T>)
    requires a <= b
    ensures |a| <= |b|
  {
    if a != {} {
      var x :| x in a;
      SmallerSubset(a - {x}, b - {x});
    }
  }

  lemma TrimKeepsBudget(d: Db, d': Db, k: InviteKey)
    requires GuestListsSound(d) && RowsTrimmed(d, d') && k in d'.invites && k.event in d.events
    ensures WithinBudget(d', k)
  {
    SmallerSubset(SentSince(d', k), SentSince(d, k));
    SmallerSubset(SentRows(d'.invites, k.event, k.guest), SentRows(d.invites, k.event, k.guest));
    assert WithinBudget(d, k);
  }

  lemma GrantExtendsSent(d: Db, d': Db, added: InviteKey, spread: nat, actor: UserId, e: EventId, u: UserId)
    requires RowGranted(d, d', added, spread, actor)
    ensures SentRows(d'.invites, e, u)
         == SentRows(d.invites, e, u) + (if added.event == e && actor == u then {added} else {})
  {
  }

  /** The forwarder used one unit of budget and still had one. */
  lemma GrantWithinBudget(d: Db, d': Db, added: InviteKey, spread: nat, actor: UserId)
    requires RowGranted(d, d', added, spread, actor) && HasBudget(d, added.event, actor)
    ensures WithinBudget(d', InviteKey(added.event, actor))
  {
    var k := InviteKey(added.event, actor);
    GrantExtendsSent(d, d', added, spread, actor, k.event, k.guest);
    SmallerSubset(SentSince(d', k), SentRows(d'.invites, k.event, k.guest));
  }

  lemma GrantKeepsBudget(d: Db, d': Db, added: InviteKey, spread: nat, actor: UserId, k: InviteKey)
    requires RowGranted(d, d', added, spread, actor)
    requires forall j | j in d.invites :: d.invites[j].created < d.nextInvite
    requires k in d'.invites && k != InviteKey(added.event, actor)
    requires k in d.invites ==> WithinBudget(d, k)
    ensures WithinBudget(d', k)
  {
    GrantExtendsSent(d, d', added, spread, actor, k.event, k.guest);
    if k == added {
      assert SentSince(d', k) == {};
    } else {
      assert SentSince(d', k) == SentSince(d, k);
    }
  }

  lemma TrimKeepsChain(d: Db, d': Db, k: InviteKey)
    requires GuestListsSound(d) && RowsTrimmed(d, d') && k in d'.invites && k.event in d.events
    ensures ChainStep(d', k)
  {
    assert ChainStep(d, k);
  }

  lemma GrantKeepsChain(d: Db, d': Db, added: InviteKey, spread: nat, actor: UserId, k: InviteKey)
    requires GuestListsSound(d) && RowGranted(d, d', added, spread, actor) && k in d'.invites
    ensures ChainStep(d', k)
  {
    if k == added {
      assert ChainStep(d, InviteKey(added.event, actor)) || InviteKey(added.event, actor) !in d.invites;
    } else {
      assert ChainStep(d, k);
    }
  }

  lemma SoundAfter(d: Db, d': Db)
    requires GuestListsSound(d) && Consistent(d')
    requires RowsTrimmed(d, d') || (exists k, spread, actor :: RowGranted(d, d', k, spread, actor))
    ensures GuestListsSound(d')
  {
    if RowsTrimmed(d, d') {
      forall k | k in d'.invites
        ensures k.event in d'.events && ChainStep(d', k) && WithinBudget(d', k)
      {
        TrimKeepsChain(d, d', k);
        TrimKeepsBudget(d, d', k);
      }
    } else {
      var added, spread, actor :| RowGranted(d, d', added, spread, actor);
      forall k | k in d'.invites
        ensures k.event in d'.events && ChainStep(d', k) && WithinBudget(d', k)
      {
        GrantKeepsChain(d, d', added, spread, actor, k);
        if k != InviteKey(added.event, actor) {
          GrantKeepsBudget(d, d', added, spread, actor, k);
        } else if actor != d.events[k.event].owner {
          GrantWithinBudget(d, d', added, spread, actor);
        }
      }
    }
  }

  /** Chains and budgets survive every call. */
  lemma CallKeepsSound(d: Db, t: Timed)
    requires GuestListsSound(d) && Legal(d, t)
    ensures GuestListsSound(Apply(d, t))
  {
    CallShape(d, t);
    CallConsistent(d, t);
    SoundAfter(d, Apply(d, t));
  }

  lemma {:induction false} RunKeepsSound(d: Db, trace: seq<Timed>)
    requires GuestListsSound(d) && LegalRun(d, trace)
    ensures GuestListsSound(Run(d, trace))
    decreases |trace|
  {
    if trace != [] {
      CallKeepsSound(d, trace[0]);
      RunKeepsSound(Apply(d, trace[0]), trace[1..]);
    }
  }

  lemma ReachableSound(d: Db)
    requires Reachable(d)
    ensures GuestListsSound(d)
  {
    var trace :| LegalRun(EMPTY, trace) && Run(EMPTY, trace) == d;
    RunKeepsSound(EMPTY, trace);
  }

  // ---------------------------------------------------------------- chains of inviters

  /** Each user of `p` holds a live invite to `e` sent by the next one, who is not the owner. */
  ghost predicate InviterPath(d: Db, e: EventId, p: seq<UserId>) {
    && p != [] && e in d.events
    && (forall i | 0 <= i < |p| :: InviteKey(e, p[i]) in d.invites)
    && (forall i | 0 <= i < |p| - 1 :: SenderKey(d, InviteKey(e, p[i])) == InviteKey(e, p[i + 1]))
    && (forall i | 1 <= i < |p| :: p[i] != d.events[e].owner)
  }

  lemma {:induction false} CreatedRises(d: Db, e: EventId, p: seq<UserId>, i: nat, j: nat)
    requires GuestListsSound(d) && InviterPath(d, e, p)
    requires i < j < |p| && Forwarded(d, InviteKey(e, p[j]))
    ensures d.invites[InviteKey(e, p[i])].created < d.invites[InviteKey(e, p[j])].created
    decreases j
  {
    var k := InviteKey(e, p[j - 1]);
    assert SenderKey(d, k) == InviteKey(e, p[j]) && Forwarded(d, k);
    assert ChainStep(d, k);
    if i < j - 1 {
      CreatedRises(d, e, p, i, j - 1);
    }
  }

  /** No user appears twice on a path of inviters. */
  lemma NoInviterCycle(d: Db, e: EventId, p: seq<UserId>)
    requires GuestListsSound(d) && InviterPath(d, e, p)
    ensures forall i, j | 0 <= i < j < |p| :: p[i] != p[j]
  {
    forall i, j | 0 <= i < j < |p|
      ensures p[i] != p[j]
    {
      if p[i] == p[j] {
        assert SenderKey(d, InviteKey(e, p[i])) == InviteKey(e, p[i + 1]);
        CreatedRises(d, e, p, i, j);
      }
    }
  }

  lemma ExtendPath(d: Db, e: EventId, u: UserId, rest: seq<UserId>)
    requires InviterPath(d, e, rest) && InviteKey(e, u) in d.invites
    requires d.invites[InviteKey(e, u)].invitedBy == rest[0] != d.events[e].owner
    ensures InviterPath(d, e, [u] + rest)
  {
    var p := [u] + rest;
    forall i | 0 <= i < |p| - 1
      ensures SenderKey(d, InviteKey(e, p[i])) == InviteKey(e, p[i + 1])
    {
      assert i > 0 ==> SenderKey(d, InviteKey(e, rest[i - 1])) == InviteKey(e, rest[i]);
    }
  }

  /** Following `invited_by` from any live invite stops at the owner or at someone without an invite. */
  lemma {:induction false} InviterChainEnds(d: Db, e: EventId, u: UserId) returns (p: seq<UserId>)
    requires GuestListsSound(d) && InviteKey(e, u) in d.invites
    ensures InviterPath(d, e, p) && p[0] == u
    ensures var last := d.invites[InviteKey(e, p[|p| - 1])].invitedBy;
            last == d.events[e].owner || InviteKey(e, last) !in d.invites
    decreases if Forwarded(d, InviteKey(e, u)) then d.nextInvite - d.invites[InviteKey(e, u)].created else 0
  {
    var k := InviteKey(e, u);
    var sender := d.invites[k].invitedBy;
    assert k.event in d.events && ChainStep(d, k);
    p := [u];
    if sender != d.events[e].owner && InviteKey(e, sender) in d.invites {
      var rest := InviterChainEnds(d, e, sender);
      ExtendPath(d, e, u, rest);
      p := [u] + rest;
    }
  }

  // ---------------------------------------------------------------- budgets over runs

  lemma OldRowStep(d: Db, t: Timed, k: InviteKey)
    requires d.nextId !in d.events
    requires k in Apply(d, t).invites && Apply(d, t).invites[k].created < d.nextInvite
    ensures k in d.invites && SameGrant(d.invites[k], Apply(d, t).invites[k])
  {
    CallShape(d, t);
  }

  lemma SupplyStep(d: Db, t: Timed)
    requires d.nextId !in d.events
    ensures d.nextInvite <= Apply(d, t).nextInvite
  {
    CallShape(d, t);
  }

  /** Rows older than a point in time can only disappear. */
  lemma {:induction false} OldRowsOnlyLeave(d: Db, trace: seq<Timed>, k: InviteKey)
    requires GuestListsSound(d) && LegalRun(d, trace)
    requires k in Run(d, trace).invites && Run(d, trace).invites[k].created < d.nextInvite
    ensures k in d.invites && SameGrant(d.invites[k], Run(d, trace).invites[k])
    ensures d.nextInvite <= Run(d, trace).nextInvite
    decreases |trace|
  {
    if trace != [] {
      var d1 := Apply(d, trace[0]);
      CallKeepsSound(d, trace[0]);
      SupplyStep(d, trace[0]);
      OldRowsOnlyLeave(d1, trace[1..], k);
      OldRowStep(d, trace[0], k);
    }
  }

  /** The row at `k` is the same one at both ends of a run, and its holder is a guest. */
  ghost predicate SameInvite(d: Db, d': Db, k: InviteKey) {
    && k in d.invites && Live(d', k) && d.invites[k].created == d'.invites[k].created
    && k.guest != d'.events[k.event].owner
  }

  /**
   For as long as a guest keeps an invite, what they send stays within its spread, except for
   forwards that were already live before.
   */
  lemma BudgetOverRun(d: Db, trace: seq<Timed>, k: InviteKey)
    requires GuestListsSound(d) && LegalRun(d, trace) && SameInvite(d, Run(d, trace), k)
    ensures var d' := Run(d, trace);
            && |SentSince(d', k)| <= d.invites[k].spread
            && (|SentRows(d'.invites, k.event, k.guest)| <= d.invites[k].spread
                || |SentRows(d'.invites, k.event, k.guest)| <= |SentRows(d.invites, k.event, k.guest)|)
  {
    var d' := Run(d, trace);
    RunKeepsSound(d, trace);
    OldRowsOnlyLeave(d, trace, k);
    assert WithinBudget(d', k);
    if SentSince(d', k) == {} {
      var sent, sent' := SentRows(d.invites, k.event, k.guest), SentRows(d'.invites, k.event, k.guest);
      forall j | j in sent'
        ensures j in sent
      {
        assert j !in SentSince(d', k);
        OldRowsOnlyLeave(d, trace, j);
      }
      SmallerSubset(sent', sent);
    }
  }

  /** However the run goes on, while the guest keeps the invite at `k` their live forwards fit its spread. */
  ghost predicate NeverExceeds(d: Db, k: InviteKey)
    requires k in d.invites
  {
    forall trace | LegalRun(d, trace) && SameInvite(d, Run(d, trace), k) ::
      |SentRows(Run(d, trace).invites, k.event, k.guest)| <= d.invites[k].spread
  }

  lemma NeverExceedsIff(d: Db, k: InviteKey)
    requires GuestListsSound(d) && Live(d, k) && k.guest != d.events[k.event].owner
    ensures NeverExceeds(d, k) <==> |SentRows(d.invites, k.event, k.guest)| <= d.invites[k].spread
  {
    var none: seq<Timed> := [];
    assert Run(d, none) == d && LegalRun(d, none) && SameInvite(d, Run(d, none), k);
    if |SentRows(d.invites, k.event, k.guest)| <= d.invites[k].spread {
      forall trace | LegalRun(d, trace) && SameInvite(d, Run(d, trace), k)
        ensures |SentRows(Run(d, trace).invites, k.event, k.guest)| <= d.invites[k].spread
      {
        BudgetOverRun(d, trace, k);
      }
    }
  }

  /** The owner's call put a row with this spread at `k`, and changed nothing the guest has sent. */
  lemma OwnerGrants(d: Db, now: Instant, k: InviteKey, spread: nat, owner: UserId, delivers: bool)
    requires k.event in d.events && d.events[k.event].owner == owner
    requires SendInvite(d, now, k.event, k.guest, spread, owner, delivers).result.Ok?
    ensures var d0 := SendInvite(d, now, k.event, k.guest, spread, owner, delivers).db;
            && Live(d0, k) && d0.invites[k].spread == spread && k.guest != d0.events[k.event].owner
            && SentRows(d0.invites, k.event, k.guest) == SentRows(d.invites, k.event, k.guest)
  {
  }

  /**
   The plain reading "a guest never has more live forwards than their spread allows" can fail
   after a guest is removed and invited again (`Scenarios`).  It holds, in every continuation, exactly when the
   owner grants at least as much spread as the guest already has live forwards.
   */
  lemma SpreadCoversIff(d: Db, now: Instant, k: InviteKey, spread: nat, owner: UserId, delivers: bool)
    requires GuestListsSound(d) && owner in d.users && k.event in d.events && d.events[k.event].owner == owner
    requires SendInvite(d, now, k.event, k.guest, spread, owner, delivers).result.Ok?
    ensures var d0 := SendInvite(d, now, k.event, k.guest, spread, owner, delivers).db;
            k in d0.invites && (NeverExceeds(d0, k) <==> |SentRows(d.invites, k.event, k.guest)| <= spread)
  {
    var t := Timed(now, SendCall(k.event, k.guest, spread, owner, delivers));
    OwnerGrants(d, now, k, spread, owner, delivers);
    CallKeepsSound(d, t);
    NeverExceedsIff(Apply(d, t), k);
  }

  lemma SenderRemoves(d: Db, now: Instant, e: EventId, sender: UserId, guest: UserId, delivers: bool)
    requires e in d.events && (d.events[e].rsvpDeadline.Some? ==> now <= d.events[e].rsvpDeadline.value)
    requires InviteKey(e, guest) in d.invites && d.invites[InviteKey(e, guest)].invitedBy == sender
    ensures var removed := RemoveInvite(d, now, e, guest, sender, delivers);
            && removed.result.Ok? && removed.db.events == d.events && removed.db.users == d.users
            && removed.db.invites == d.invites - {InviteKey(e, guest)}
  {
  }

  /** Taking back a forwarded invite frees exactly one unit: the sender may forward again at once. */
  lemma RemovalHandsBudgetBack(d: Db, now: Instant, e: EventId, sender: UserId, guest: UserId, other: UserId, delivers: bool)
    requires e in d.events && d.events[e].owner != sender && (d.events[e].rsvpDeadline.Some? ==> now <= d.events[e].rsvpDeadline.value)
    requires InviteKey(e, guest) in d.invites && d.invites[InviteKey(e, guest)].invitedBy == sender != guest
    requires InviteKey(e, sender) in d.invites && d.invites[InviteKey(e, sender)].status == Accepted
    requires |SentRows(d.invites, e, sender)| <= d.invites[InviteKey(e, sender)].spread
    requires sender in d.users && other in d.users
    requires other != sender && (other == guest || InviteKey(e, other) !in d.invites)
    ensures var removed := RemoveInvite(d, now, e, guest, sender, delivers).db;
            && |SentRows(removed.invites, e, sender)| == |SentRows(d.invites, e, sender)| - 1
            && SendInvite(removed, now, e, other, 0, sender, delivers).result.Ok?
  {
    var removed := RemoveInvite(d, now, e, guest, sender, delivers).db;
    SenderRemoves(d, now, e, sender, guest, delivers);
    assert SentRows(removed.invites, e, sender) == SentRows(d.invites, e, sender) - {InviteKey(e, guest)};
    assert InviteKey(e, guest) in SentRows(d.invites, e, sender);
    ForwardSucceedsIff(removed, now, e, other, 0, sender, delivers);
  }
}
