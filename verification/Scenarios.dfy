/** Runs from the empty database to the states that show where a plain claim fails. */
module Scenarios {
  import opened Tables
  import opened InviteRules
  import opened AccountRules
  import opened NetworkRules
  import opened Protocol
  import opened CallEffects

  const NO_FAULTS := ResolveFaults({}, {})
  const OWNER := User("o", "o@x", None, false)
  const GUEST := User("a", "a@x", None, false)
  const FRIEND := User("b", "b@x", None, false)
  const PARTY := Event(0, "party", 100, Some(50), 0, None)
  const GUEST_KEY := InviteKey(3, 1)
  const FRIEND_KEY := InviteKey(3, 2)

  function Signup(u: User): Timed {
    Timed(0, RegisterCall(u.name, u.email, u.address, [], NO_FAULTS))
  }

  function Accounts(users: map<UserId, User>): Db {
    EMPTY.(users := users, credentials := map u | u in users :: users[u].email, nextId := |users|)
  }

  function PartyWith(invites: map<InviteKey, Invite>, created: nat): Db {
    Accounts(map[0 := OWNER, 1 := GUEST, 2 := FRIEND]).(events := map[3 := PARTY], invites := invites, nextId := 4, nextInvite := created)
  }

  const INVITED := Invite(0, Pending, 1, 0, None)
  const FORWARDED := Invite(1, Pending, 0, 1, None)
  const BACK := Invite(0, Pending, 0, 2, None)

  ghost predicate Step(d: Db, t: Timed, d': Db) {
    Legal(d, t) && Apply(d, t) == d'
  }

  lemma {:induction false} RunStep(d: Db, trace: seq<Timed>, t: Timed, d': Db)
    requires LegalRun(d, trace) && Step(Run(d, trace), t, d')
    ensures LegalRun(d, trace + [t]) && Run(d, trace + [t]) == d'
    decreases |trace|
  {
    if trace == [] {
      assert trace + [t] == [t];
      assert LegalRun(d', [t][1..]) && Run(d', [t][1..]) == d';
    } else {
      assert (trace + [t])[1..] == trace[1..] + [t];
      RunStep(Apply(d, trace[0]), trace[1..], t, d');
    }
  }

  lemma Reach(d: Db, t: Timed, d': Db)
    requires Reachable(d) && Step(d, t, d')
    ensures Reachable(d')
  {
    var trace :| LegalRun(EMPTY, trace) && Run(EMPTY, trace) == d;
    RunStep(EMPTY, trace, t, d');
  }

  lemma SignupStep(users: map<UserId, User>, u: User)
    requires forall v | v in users :: users[v].email != u.email
    requires |users| !in users && !u.deleted
    ensures Step(Accounts(users), Signup(u), Accounts(users[|users| := u]))
  {
    var d := Accounts(users);
    SignupApplies(d, u);
    assert d.credentials[|users| := u.email] == Accounts(users[|users| := u]).credentials;
    assert PendingFor(d, u.email) == {};
  }

  lemma SignupApplies(d: Db, u: User)
    requires !EmailTaken(d.users, u.email) && u.email !in d.credentials.Values && !u.deleted
    ensures Apply(d, Signup(u)) == d.(users := d.users[d.nextId := u], credentials := d.credentials[d.nextId := u.email], nextId := d.nextId + 1)
  {
  }

  lemma CreateStep()
    ensures Step(Accounts(map[0 := OWNER, 1 := GUEST, 2 := FRIEND]), Timed(0, CreateEventCall(PARTY)), PartyWith(map[], 0))
  {
    var d := Accounts(map[0 := OWNER, 1 := GUEST, 2 := FRIEND]);
    assert |map[0 := OWNER, 1 := GUEST, 2 := FRIEND].Keys| == |{0, 1, 2}|;
    assert CreateEvent(d, 0, PARTY).db == d.(events := map[3 := PARTY], nextId := 4);
  }

  lemma OwnerInvites(invites: map<InviteKey, Invite>, spread: nat, created: nat)
    requires GUEST_KEY !in invites
    ensures Step(PartyWith(invites, created), Timed(0, SendCall(3, 1, spread, 0, false)),
                 PartyWith(invites[GUEST_KEY := Invite(0, Pending, spread, created, None)], created + 1))
  {
  }

  lemma GuestAccepts()
    ensures Step(PartyWith(map[GUEST_KEY := INVITED], 1), Timed(0, RespondCall(3, 1, Accepted, None, false)),
                 PartyWith(map[GUEST_KEY := INVITED.(status := Accepted)], 1))
  {
    var d := PartyWith(map[GUEST_KEY := INVITED], 1);
    assert Respond(d, 0, 3, 1, Accepted, None, false).db == SetResponse(d, 3, 1, Accepted, None).db;
    assert d.invites[GUEST_KEY := INVITED.(status := Accepted)] == map[GUEST_KEY := INVITED.(status := Accepted)];
  }

  lemma GuestForwards(to: UserId)
    requires to == 0 || to == 2
    ensures Step(GuestIsIn(), Timed(0, SendCall(3, to, 0, 1, false)),
                 PartyWith(map[GUEST_KEY := INVITED.(status := Accepted), InviteKey(3, to) := FORWARDED], 2))
  {
    var d := GuestIsIn();
    assert SentRows(d.invites, 3, 1) == {};
    ForwardAdds(d, to);
    assert d.invites[InviteKey(3, to) := FORWARDED] == map[GUEST_KEY := INVITED.(status := Accepted), InviteKey(3, to) := FORWARDED];
  }

  lemma ForwardAdds(d: Db, to: UserId)
    requires MayForward(d, 0, 3, to, 1) && d.events[3].owner != 1 && d.nextInvite == 1
    ensures SendInvite(d, 0, 3, to, 0, 1, false).db == d.(invites := d.invites[InviteKey(3, to) := FORWARDED], nextInvite := 2)
  {
    SendExactly(d, 0, 3, to, 0, 1, false);
    assert d.notifications + [] == d.notifications;
  }

  lemma OwnerRemoves()
    ensures Step(PartyWith(map[GUEST_KEY := INVITED.(status := Accepted), FRIEND_KEY := FORWARDED], 2),
                 Timed(0, RemoveCall(3, 1, 0, false)), PartyWith(map[FRIEND_KEY := FORWARDED], 2))
  {
    var d := PartyWith(map[GUEST_KEY := INVITED.(status := Accepted), FRIEND_KEY := FORWARDED], 2);
    assert RemoveInvite(d, 0, 3, 1, 0, false).db == DeleteInvite(d, 3, 1).db;
    assert d.invites - {GUEST_KEY} == map[FRIEND_KEY := FORWARDED];
  }

  /** The party after the whole run: the guest is back with no spread, and their forward is still live. */
  ghost function GuestIsBack(): Db {
    PartyWith(map[FRIEND_KEY := FORWARDED, GUEST_KEY := BACK], 3)
  }

  lemma PartyReachable()
    ensures Reachable(PartyWith(map[], 0))
  {
    var none: seq<Timed> := [];
    assert LegalRun(EMPTY, none) && Run(EMPTY, none) == EMPTY;
    assert Accounts(map[]) == EMPTY;
    SignupStep(map[], OWNER);
    Reach(EMPTY, Signup(OWNER), Accounts(map[0 := OWNER]));
    assert |map[0 := OWNER].Keys| == |{0}|;
    SignupStep(map[0 := OWNER], GUEST);
    Reach(Accounts(map[0 := OWNER]), Signup(GUEST), Accounts(map[0 := OWNER, 1 := GUEST]));
    assert |map[0 := OWNER, 1 := GUEST].Keys| == |{0, 1}|;
    SignupStep(map[0 := OWNER, 1 := GUEST], FRIEND);
    Reach(Accounts(map[0 := OWNER, 1 := GUEST]), Signup(FRIEND), Accounts(map[0 := OWNER, 1 := GUEST, 2 := FRIEND]));
    CreateStep();
    Reach(Accounts(map[0 := OWNER, 1 := GUEST, 2 := FRIEND]), Timed(0, CreateEventCall(PARTY)), PartyWith(map[], 0));
  }

  /** The guest was invited with spread one and has accepted. */
  ghost function GuestIsIn(): Db {
    PartyWith(map[GUEST_KEY := INVITED.(status := Accepted)], 1)
  }

  lemma GuestIsInReachable()
    ensures Reachable(GuestIsIn())
  {
    PartyReachable();
    OwnerInvites(map[], 1, 0);
    Reach(PartyWith(map[], 0), Timed(0, SendCall(3, 1, 1, 0, false)), PartyWith(map[GUEST_KEY := INVITED], 1));
    GuestAccepts();
    Reach(PartyWith(map[GUEST_KEY := INVITED], 1), Timed(0, RespondCall(3, 1, Accepted, None, false)), GuestIsIn());
  }

  /** Removing a guest leaves what they sent: invited again with no spread, they have one live forward. */
  lemma ReinviteExceedsSpread()
    ensures Reachable(GuestIsBack())
    ensures |SentRows(GuestIsBack().invites, 3, 1)| > GuestIsBack().invites[GUEST_KEY].spread
  {
    var both := map[GUEST_KEY := INVITED.(status := Accepted), FRIEND_KEY := FORWARDED];
    GuestIsInReachable();
    GuestForwards(2);
    Reach(GuestIsIn(), Timed(0, SendCall(3, 2, 0, 1, false)), PartyWith(both, 2));
    OwnerRemoves();
    Reach(PartyWith(both, 2), Timed(0, RemoveCall(3, 1, 0, false)), PartyWith(map[FRIEND_KEY := FORWARDED], 2));
    OwnerInvites(map[FRIEND_KEY := FORWARDED], 0, 2);
    Reach(PartyWith(map[FRIEND_KEY := FORWARDED], 2), Timed(0, SendCall(3, 1, 0, 0, false)), GuestIsBack());
    assert FRIEND_KEY in SentRows(GuestIsBack().invites, 3, 1);
  }

  /** The guest has forwarded to the owner. */
  ghost function OwnerIsInvited(): Db {
    PartyWith(map[GUEST_KEY := INVITED.(status := Accepted), InviteKey(3, 0) := FORWARDED], 2)
  }

  lemma OwnerIsInvitedReachable()
    ensures Reachable(OwnerIsInvited())
  {
    GuestIsInReachable();
    GuestForwards(0);
    Reach(GuestIsIn(), Timed(0, SendCall(3, 0, 0, 1, false)), OwnerIsInvited());
  }

  // ---------------------------------------------------------------- tombstone addresses

  /** An account whose address is the one a deleted first account would be left with. */
  const SQUATTER := User("s", Tombstone(0), None, false)

  lemma TombstoneIs()
    ensures Tombstone(0) == "deleted+0@deleted.invalid"
  {
    assert Decimal(0) == "0";
  }

  lemma SquatterReachable()
    ensures Reachable(Accounts(map[0 := SQUATTER]))
    ensures Reachable(Accounts(map[0 := OWNER, 1 := SQUATTER]))
  {
    var none: seq<Timed> := [];
    assert LegalRun(EMPTY, none) && Run(EMPTY, none) == EMPTY;
    assert Accounts(map[]) == EMPTY;
    TombstoneIs();
    SignupStep(map[], SQUATTER);
    Reach(EMPTY, Signup(SQUATTER), Accounts(map[0 := SQUATTER]));
    SignupStep(map[], OWNER);
    Reach(EMPTY, Signup(OWNER), Accounts(map[0 := OWNER]));
    assert |map[0 := OWNER].Keys| == |{0}|;
    assert |OWNER.email| != |SQUATTER.email|;
    SignupStep(map[0 := OWNER], SQUATTER);
    Reach(Accounts(map[0 := OWNER]), Signup(SQUATTER), Accounts(map[0 := OWNER, 1 := SQUATTER]));
  }

  /** A live account that cannot be deleted: someone else registered its tombstone address. */
  lemma DeletionBlocked(now: Instant)
    ensures Reachable(Accounts(map[0 := OWNER, 1 := SQUATTER]))
    ensures DeleteUser(Accounts(map[0 := OWNER, 1 := SQUATTER]), now, 0).result == Err(DatabaseError)
  {
    SquatterReachable();
    var d := Accounts(map[0 := OWNER, 1 := SQUATTER]);
    assert 1 in d.users && d.users[1].email == Tombstone(0);
  }

  /** An account registered under its own tombstone address: deleting it does not release the address. */
  lemma OwnTombstoneNotReleased(now: Instant, name: string, address: Option<string>)
    ensures var d := Accounts(map[0 := SQUATTER]);
            && Reachable(d) && DeleteUser(d, now, 0).result.Ok?
            && CreateUser(DeleteUser(d, now, 0).db, name, d.users[0].email, address).result == Err(UserAlreadyExists)
  {
    SquatterReachable();
    var d := Accounts(map[0 := SQUATTER]);
    assert DeleteUser(d, now, 0).db == Erased(d, now, 0);
    assert 0 in Erased(d, now, 0).users && Erased(d, now, 0).users[0].email == SQUATTER.email;
  }
}
