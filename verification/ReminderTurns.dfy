/**
 What a scheduler can see to beforehand: while one job has listed and not finished inserting, no
 other job inserts.  Then no reminder is sent twice, whatever else happens.
 */
module ReminderTurns {
  import opened Tables
  import opened Reminders
  import opened ReminderSteps

  /** Another job inserts between a listing of this one and a later insert of this one. */
  ghost predicate Interferes(actions: seq<Action>, l: nat, m: nat, n: nat) {
    && l < m < n < |actions| && actions[l].List? && actions[m].Insert? && actions[n].Insert?
    && actions[l].id == actions[n].id != actions[m].id
  }

  ghost predicate InTurn(actions: seq<Action>) {
    forall l, m, n :: !Interferes(actions, l, m, n)
  }

  /** The world after the first `n` actions. */
  ghost function After(d: Db, actions: seq<Action>, n: nat): World
    requires n <= |actions|
  {
    Schedule(World(d, map[], []), actions[..n])
  }

  lemma AfterNext(d: Db, actions: seq<Action>, n: nat)
    requires n < |actions|
    ensures After(d, actions, n + 1) == Next(After(d, actions, n), actions[n])
  {
    assert actions[..n + 1][..n] == actions[..n];
  }

  /** A step appends to the log one entry at most. */
  lemma LogStep(w: World, a: Action)
    ensures var log := Next(w, a).log;
            log == w.log || (|log| == |w.log| + 1 && log[..|w.log|] == w.log)
  {
  }

  lemma {:induction false} LogGrows(d: Db, actions: seq<Action>, m: nat, n: nat)
    requires m <= n <= |actions|
    ensures |After(d, actions, m).log| <= |After(d, actions, n).log|
  {
    if m < n {
      LogGrows(d, actions, m, n - 1);
      AfterNext(d, actions, n - 1);
      LogStep(After(d, actions, n - 1), actions[n - 1]);
    }
  }

  /** A batch remembers how long the log was at the action that listed it. */
  lemma {:induction false} ListedAt(d: Db, actions: seq<Action>, n: nat, id: nat) returns (l: nat)
    requires n <= |actions| && id in After(d, actions, n).jobs && After(d, actions, n).jobs[id].phase.Raising?
    ensures l < n && actions[l].List? && actions[l].id == id
    ensures |After(d, actions, l).log| == After(d, actions, n).jobs[id].phase.since
  {
    AfterNext(d, actions, n - 1);
    var w, a, p := After(d, actions, n - 1), actions[n - 1], After(d, actions, n).jobs[id].phase;
    if id in w.jobs && w.jobs[id].phase.Raising? && w.jobs[id].phase.since == p.since && w.jobs[id].phase.kind == p.kind {
      l := ListedAt(d, actions, n - 1, id);
    } else {
      assert a.List? && a.id == id && Next(w, a) == DoList(w, id, a.order);
      l := n - 1;
    }
  }

  /** Only an insert of a listed batch delivers. */
  lemma SentNow(w: World, a: Action)
    requires |Next(w, a).log| > |w.log| && Next(w, a).log[|w.log|].Sent?
    ensures a.Insert? && a.id in w.jobs && w.jobs[a.id].phase.Raising?
    ensures var entry := Next(w, a).log[|w.log|];
            entry.job == a.id && entry.since == w.jobs[a.id].phase.since
  {
  }

  lemma NextEntry(d: Db, actions: seq<Action>, n: nat)
    requires n < |actions|
    ensures var w, a, log := After(d, actions, n), actions[n], After(d, actions, n + 1).log;
            && |w.log| <= |log| <= |w.log| + 1 && log[..|w.log|] == w.log
            && (|log| > |w.log| && log[|w.log|].Sent? ==>
                  a.Insert? && a.id in w.jobs && w.jobs[a.id].phase.Raising?
                  && log[|w.log|].job == a.id && log[|w.log|].since == w.jobs[a.id].phase.since)
  {
    var w, a := After(d, actions, n), actions[n];
    AfterNext(d, actions, n);
    LogStep(w, a);
    if |Next(w, a).log| > |w.log| && Next(w, a).log[|w.log|].Sent? {
      SentNow(w, a);
    }
  }

  /** A delivered reminder goes back to its insert and to the listing its batch came from. */
  lemma {:induction false} SentAt(d: Db, actions: seq<Action>, n: nat, j: nat) returns (l: nat, m: nat)
    requires n <= |actions| && j < |After(d, actions, n).log| && After(d, actions, n).log[j].Sent?
    ensures l < m < n && actions[l].List? && actions[m].Insert?
    ensures actions[l].id == actions[m].id == After(d, actions, n).log[j].job
    ensures |After(d, actions, l).log| == After(d, actions, n).log[j].since
    ensures |After(d, actions, m).log| == j && |After(d, actions, m + 1).log| == j + 1
  {
    NothingYet(d, actions);
    NextEntry(d, actions, n - 1);
    var before := After(d, actions, n - 1).log;
    if j < |before| {
      assert After(d, actions, n).log[j] == before[j];
      l, m := SentAt(d, actions, n - 1, j);
    } else {
      l := ListedAt(d, actions, n - 1, actions[n - 1].id);
      m := n - 1;
    }
  }

  lemma NothingYet(d: Db, actions: seq<Action>)
    ensures After(d, actions, 0) == World(d, map[], [])
  {
  }

  lemma DoubledInterferes(d: Db, actions: seq<Action>, i: nat, j: nat) returns (l: nat, m: nat, n: nat)
    requires Doubled(After(d, actions, |actions|).log, i, j)
    ensures Interferes(actions, l, m, n)
  {
    var _, first := SentAt(d, actions, |actions|, i);
    m := first;
    l, n := SentAt(d, actions, |actions|, j);
    if m < l {
      LogGrows(d, actions, m + 1, l);
    }
    if n < m {
      LogGrows(d, actions, n, m);
    }
  }

  /** Jobs that take turns never send a reminder twice. */
  lemma InTurnUnique(d: Db, actions: seq<Action>)
    requires RemindersUnique(d.notifications) && InTurn(actions)
    ensures RemindersUnique(Schedule(World(d, map[], []), actions).db.notifications)
  {
    ReminderStepsUnique(d, actions);
    assert actions[..|actions|] == actions;
    var log := After(d, actions, |actions|).log;
    forall i: nat, j: nat
      ensures !Doubled(log, i, j)
    {
      if Doubled(log, i, j) {
        var l, m, n := DoubledInterferes(d, actions, i, j);
      }
    }
  }
}
