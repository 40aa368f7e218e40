/** How the pages group events into months and contacts into groups. */
module Grouping {
  import opened Tables

  // ---------------------------------------------------------------- events by month

  datatype EventItem = EventItem(id: EventId, date: Instant)

  datatype MonthGroup = MonthGroup(caption: string, events: seq<EventItem>)

  /** The calendar's label for the month of an instant. */
  type Calendar = Instant -> string

  function Flatten(groups: seq<MonthGroup>): seq<EventItem> {
    if groups == [] then [] else Flatten(groups[..|groups| - 1]) + groups[|groups| - 1].events
  }

  /** The groups are the longest runs of one label. */
  ghost predicate IsGrouping(events: seq<EventItem>, month: Calendar, groups: seq<MonthGroup>) {
    && Flatten(groups) == events
    && (forall g | 0 <= g < |groups| :: groups[g].events != [] && AllLabelled(groups[g], month))
    && (forall g | 0 < g < |groups| :: groups[g - 1].caption != groups[g].caption)
  }

  predicate AllLabelled(group: MonthGroup, month: Calendar) {
    forall ev | ev in group.events :: month(ev.date) == group.caption
  }

  method GroupEventsByMonth(events: seq<EventItem>, month: Calendar) returns (groups: seq<MonthGroup>)
    ensures IsGrouping(events, month, groups)
  {
    groups := [];
    for i := 0 to |events|
      invariant IsGrouping(events[..i], month, groups)
    {
      var event := events[i];
      var caption := month(event.date);
      var n := |groups|;
      assert events[..i + 1] == events[..i] + [event];
      if n > 0 && groups[n - 1].caption == caption {
        var grown := groups[n - 1].(events := groups[n - 1].events + [event]);
        assert groups[..n - 1] + [grown] == groups[n - 1 := grown];
        groups := groups[n - 1 := grown];
        assert groups[..n - 1] + [groups[n - 1]] == groups;
      } else {
        groups := groups + [MonthGroup(caption, [event])];
        assert groups[..n] + [groups[n]] == groups;
      }
    }
    assert events[..|events|] == events;
  }

  /** Where a group begins in the flattened list. */
  function Start(groups: seq<MonthGroup>, g: nat): nat
    requires g <= |groups|
  {
    |Flatten(groups[..g])|
  }

  lemma StartNext(groups: seq<MonthGroup>, g: nat)
    requires g < |groups|
    ensures Start(groups, g + 1) == Start(groups, g) + |groups[g].events|
  {
    assert groups[..g + 1][..g] == groups[..g];
  }

  lemma {:induction false} StartsRise(groups: seq<MonthGroup>, g: nat, h: nat)
    requires g <= h <= |groups|
    ensures Start(groups, g) <= Start(groups, h)
    ensures g < h ==> Start(groups, g) + |groups[g].events| <= Start(groups, h)
  {
    if g < h {
      StartNext(groups, h - 1);
      StartsRise(groups, g, h - 1);
    }
  }

  lemma {:induction false} GroupAt(groups: seq<MonthGroup>, g: nat, k: nat)
    requires g < |groups| && k < |groups[g].events|
    ensures Start(groups, g) + k < |Flatten(groups)| && Flatten(groups)[Start(groups, g) + k] == groups[g].events[k]
  {
    var n := |groups| - 1;
    var init := groups[..n];
    if g < n {
      assert init[..g] == groups[..g];
      GroupAt(init, g, k);
    }
  }

  /** The group an event ended up in. */
  lemma {:induction false} Locate(groups: seq<MonthGroup>, i: nat) returns (g: nat, k: nat)
    requires i < |Flatten(groups)|
    ensures g < |groups| && k < |groups[g].events| && i == Start(groups, g) + k
    ensures groups[g].events[k] == Flatten(groups)[i]
  {
    var n := |groups| - 1;
    var init := groups[..n];
    if i < |Flatten(init)| {
      g, k := Locate(init, i);
      assert init[..g] == groups[..g];
    } else {
      g, k := n, i - |Flatten(init)|;
    }
  }

  ghost predicate NoMonthReturns(events: seq<EventItem>, month: Calendar) {
    forall i, j, k | 0 <= i < j < k < |events| && month(events[i].date) == month(events[k].date) ::
      month(events[j].date) == month(events[i].date)
  }

  ghost predicate LabelsDistinct(groups: seq<MonthGroup>) {
    forall g, h | 0 <= g < h < |groups| :: groups[g].caption != groups[h].caption
  }

  /** No label is shown twice exactly when the list never comes back to a month it has left. */
  lemma LabelsDistinctIff(events: seq<EventItem>, month: Calendar, groups: seq<MonthGroup>)
    requires IsGrouping(events, month, groups)
    ensures LabelsDistinct(groups) <==> NoMonthReturns(events, month)
  {
    if NoMonthReturns(events, month) {
      forall g, h | 0 <= g < h < |groups|
        ensures groups[g].caption != groups[h].caption
      {
        FirstOf(events, month, groups, g);
        FirstOf(events, month, groups, g + 1);
        FirstOf(events, month, groups, h);
        StartsRise(groups, g, g + 1);
        StartsRise(groups, g + 1, h);
      }
    }
    if LabelsDistinct(groups) {
      forall i, j, k | 0 <= i < j < k < |events| && month(events[i].date) == month(events[k].date)
        ensures month(events[j].date) == month(events[i].date)
      {
        var gi := GroupOf(events, month, groups, i);
        var gj := GroupOf(events, month, groups, j);
        var gk := GroupOf(events, month, groups, k);
        if gj < gi {
          StartsRise(groups, gj, gi);
        }
        if gk < gj {
          StartsRise(groups, gk, gj);
        }
      }
    }
  }

  lemma FirstOf(events: seq<EventItem>, month: Calendar, groups: seq<MonthGroup>, g: nat)
    requires IsGrouping(events, month, groups) && g < |groups|
    ensures Start(groups, g) < |events| && month(events[Start(groups, g)].date) == groups[g].caption
  {
    GroupAt(groups, g, 0);
    assert groups[g].events[0] in groups[g].events;
  }

  lemma GroupOf(events: seq<EventItem>, month: Calendar, groups: seq<MonthGroup>, i: nat) returns (g: nat)
    requires IsGrouping(events, month, groups) && i < |events|
    ensures g < |groups| && Start(groups, g) <= i < Start(groups, g) + |groups[g].events|
    ensures month(events[i].date) == groups[g].caption
  {
    var k;
    g, k := Locate(groups, i);
    assert groups[g].events[k] in groups[g].events;
  }

  /** A month is an unbroken stretch of time. */
  ghost predicate Unbroken(month: Calendar) {
    forall a, b, c | a <= b <= c && month(a) == month(c) :: month(b) == month(a)
  }

  ghost predicate SortedByDate(events: seq<EventItem>) {
    || (forall i, j | 0 <= i < j < |events| :: events[i].date <= events[j].date)
    || (forall i, j | 0 <= i < j < |events| :: events[i].date >= events[j].date)
  }

  /** Both orders the event pages ask the server for give one group per month. */
  lemma SortedGivesDistinctLabels(events: seq<EventItem>, month: Calendar, groups: seq<MonthGroup>)
    requires IsGrouping(events, month, groups) && Unbroken(month) && SortedByDate(events)
    ensures LabelsDistinct(groups)
  {
    assert NoMonthReturns(events, month);
    LabelsDistinctIff(events, month, groups);
  }

  /** The runs are determined by the list, so the loop can only produce these groups. */
  lemma {:induction false} GroupingUnique(events: seq<EventItem>, month: Calendar, groups: seq<MonthGroup>, others: seq<MonthGroup>)
    requires IsGrouping(events, month, groups) && IsGrouping(events, month, others)
    ensures groups == others
    decreases |groups|
  {
    if groups == [] || others == [] {
      assert groups == [] && others == [] by {
        if groups != [] { FirstOf(events, month, groups, 0); }
        if others != [] { FirstOf(events, month, others, 0); }
      }
    } else {
      var m, n := |groups| - 1, |others| - 1;
      var tail, tail' := groups[m].events, others[n].events;
      LastRun(events, month, groups, others);
      LastRun(events, month, others, groups);
      var rest := Flatten(groups[..m]);
      assert events[|events| - |tail|..] == tail && events[|events| - |tail'|..] == tail';
      assert groups[m] == others[n];
      assert events[..|events| - |tail|] == rest && events[..|events| - |tail'|] == Flatten(others[..n]);
      GroupingUnique(rest, month, groups[..m], others[..n]);
    }
  }

  lemma LeftOfLast(events: seq<EventItem>, month: Calendar, groups: seq<MonthGroup>)
    requires IsGrouping(events, month, groups) && groups != []
    ensures var last := groups[|groups| - 1];
            var start := |events| - |last.events|;
            && 0 <= start < |events|
            && (forall i | start <= i < |events| :: month(events[i].date) == last.caption)
            && (start > 0 ==> month(events[start - 1].date) != last.caption)
  {
    var m := |groups| - 1;
    var last, init := groups[m].events, Flatten(groups[..m]);
    assert forall i | |init| <= i < |events| :: events[i] == last[i - |init|] && events[i] in last;
    if init != [] {
      var before := groups[m - 1].events;
      assert groups[..m][m - 1] == groups[m - 1];
      assert init[|init| - 1] == before[|before| - 1] && before[|before| - 1] in before;
      assert events[|init| - 1] == init[|init| - 1];
    }
  }

  /** The last run of one grouping is no longer than that of another. */
  lemma LastRun(events: seq<EventItem>, month: Calendar, groups: seq<MonthGroup>, others: seq<MonthGroup>)
    requires IsGrouping(events, month, groups) && IsGrouping(events, month, others) && groups != [] && others != []
    ensures |groups[|groups| - 1].events| <= |others[|others| - 1].events|
    ensures groups[|groups| - 1].caption == others[|others| - 1].caption
  {
    LeftOfLast(events, month, groups);
    LeftOfLast(events, month, others);
    assert month(events[|events| - 1].date) == groups[|groups| - 1].caption;
  }

  // ---------------------------------------------------------------- a stable sort

  ghost predicate TotalPreorder<T(!new)>(le: (T, T) -> bool) {
    && (forall a, b :: le(a, b) || le(b, a))
    && (forall a, b, c | le(a, b) && le(b, c) :: le(a, c))
  }

  ghost predicate Ascending<T>(s: seq<T>, le: (T, T) -> bool) {
    forall i, j | 0 <= i < j < |s| :: le(s[i], s[j])
  }

  function Insert<T>(x: T, s: seq<T>, le: (T, T) -> bool): seq<T> {
    if s == [] || le(x, s[0]) then [x] + s else [s[0]] + Insert(x, s[1..], le)
  }

  /** `Array.prototype.sort`: equal elements stay in the order they had. */
  function Sort<T>(s: seq<T>, le: (T, T) -> bool): seq<T> {
    if s == [] then [] else Insert(s[0], Sort(s[1..], le), le)
  }

  function Filter<T>(s: seq<T>, keep: T -> bool): seq<T> {
    if s == [] then [] else Filter(s[..|s| - 1], keep) + if keep(s[|s| - 1]) then [s[|s| - 1]] else []
  }

  lemma {:induction false} InsertSorts<T(!new)>(x: T, s: seq<T>, le: (T, T) -> bool)
    requires TotalPreorder(le) && Ascending(s, le)
    ensures Ascending(Insert(x, s, le), le) && multiset(Insert(x, s, le)) == multiset(s) + multiset{x}
  {
    if s != [] {
      assert s == [s[0]] + s[1..];
      if le(x, s[0]) {
        assert forall j | 0 <= j < |s| :: le(x, s[j]);
      } else {
        InsertSorts(x, s[1..], le);
        var rest := Insert(x, s[1..], le);
        forall j | 0 <= j < |rest|
          ensures le(s[0], rest[j])
        {
          assert rest[j] in multiset(rest);
          assert rest[j] == x || rest[j] in s[1..];
        }
      }
    }
  }

  lemma {:induction false} SortSorts<T(!new)>(s: seq<T>, le: (T, T) -> bool)
    requires TotalPreorder(le)
    ensures Ascending(Sort(s, le), le) && multiset(Sort(s, le)) == multiset(s)
  {
    if s != [] {
      SortSorts(s[1..], le);
      InsertSorts(s[0], Sort(s[1..], le), le);
      assert s == [s[0]] + s[1..];
    }
  }

  lemma {:induction false} FilterConcat<T>(s: seq<T>, t: seq<T>, keep: T -> bool)
    ensures Filter(s + t, keep) == Filter(s, keep) + Filter(t, keep)
  {
    if t == [] {
      assert s + t == s;
    } else {
      var n := |t| - 1;
      FilterConcat(s, t[..n], keep);
      assert (s + t)[..|s| + n] == s + t[..n];
    }
  }

  lemma {:induction false} InsertFiltered<T(!new)>(x: T, s: seq<T>, le: (T, T) -> bool, keep: T -> bool)
    requires forall a, b | keep(a) && keep(b) :: le(a, b)
    ensures Filter(Insert(x, s, le), keep) == Filter([x] + s, keep)
  {
    if s != [] && !le(x, s[0]) {
      InsertFiltered(x, s[1..], le, keep);
      var rest := Insert(x, s[1..], le);
      FilterConcat([s[0]], rest, keep);
      FilterConcat([x], s[1..], keep);
      FilterConcat([x], s, keep);
      FilterConcat([s[0]], s[1..], keep);
      assert s == [s[0]] + s[1..];
    }
  }

  /** Elements that compare equal keep the order they came in. */
  lemma {:induction false} SortIsStable<T(!new)>(s: seq<T>, le: (T, T) -> bool, keep: T -> bool)
    requires forall a, b | keep(a) && keep(b) :: le(a, b)
    ensures Filter(Sort(s, le), keep) == Filter(s, keep)
  {
    if s != [] {
      SortIsStable(s[1..], le, keep);
      InsertFiltered(s[0], Sort(s[1..], le), le, keep);
      FilterConcat([s[0]], Sort(s[1..], le), keep);
      FilterConcat([s[0]], s[1..], keep);
      assert s == [s[0]] + s[1..];
    }
  }

  // ---------------------------------------------------------------- contacts by group

  datatype Contact = Contact(id: UserId, name: string, groupId: Option<string>, groupName: Option<string>, eventsTogether: nat)

  /** The page's groups with the key each was collected under. */
  datatype ContactGroup = ContactGroup(key: string, name: string, members: seq<Contact>)

  /** Whether a name does not come after another in the reader's language. */
  type Collation = (string, string) -> bool

  function Key(c: Contact): string {
    if c.groupId.Some? then c.groupId.value else "default"
  }

  function GroupName(c: Contact): string {
    if c.groupName.Some? then c.groupName.value else "Acquaintances"
  }

  function MembersBefore(collate: Collation): (Contact, Contact) -> bool {
    (a: Contact, b: Contact) => a.eventsTogether > b.eventsTogether || (a.eventsTogether == b.eventsTogether && collate(a.name, b.name))
  }

  function GroupsBefore(collate: Collation): (ContactGroup, ContactGroup) -> bool {
    (a: ContactGroup, b: ContactGroup) => collate(a.name, b.name)
  }

  lemma OrdersTotal(collate: Collation)
    requires TotalPreorder(collate)
    ensures TotalPreorder(MembersBefore(collate)) && TotalPreorder(GroupsBefore(collate))
  {
    var members, groups := MembersBefore(collate), GroupsBefore(collate);
    forall a, b, c
      ensures members(a, b) || members(b, a)
      ensures members(a, b) && members(b, c) ==> members(a, c)
    {
      NamesOrdered(collate, a.name, b.name, c.name);
    }
    forall a, b, c
      ensures groups(a, b) || groups(b, a)
      ensures groups(a, b) && groups(b, c) ==> groups(a, c)
    {
      NamesOrdered(collate, a.name, b.name, c.name);
    }
  }

  lemma NamesOrdered(collate: Collation, a: string, b: string, c: string)
    requires TotalPreorder(collate)
    ensures collate(a, b) || collate(b, a)
    ensures collate(a, b) && collate(b, c) ==> collate(a, c)
  {
  }

  function OfKey(contacts: seq<Contact>, key: string): seq<Contact> {
    Filter(contacts, (c: Contact) => Key(c) == key)
  }

  /** Everyone with the group's key, most shared events first, under the name the first of them gives. */
  ghost predicate IsContactGroup(contacts: seq<Contact>, collate: Collation, g: ContactGroup) {
    && var collected := OfKey(contacts, g.key);
    && collected != []
    && g.name == GroupName(collected[0])
    && g.members == Sort(collected, MembersBefore(collate))
  }

  ghost predicate KeysDiffer(groups: seq<ContactGroup>) {
    forall i, j | 0 <= i < j < |groups| :: groups[i].key != groups[j].key
  }

  /** The groups of a contact list: one per key in use, in the order of their names. */
  ghost predicate IsContactGrouping(contacts: seq<Contact>, collate: Collation, groups: seq<ContactGroup>) {
    && (forall g | g in groups :: IsContactGroup(contacts, collate, g))
    && (forall c | c in contacts :: exists g :: g in groups && g.key == Key(c))
    && KeysDiffer(groups)
    && Ascending(groups, GroupsBefore(collate))
  }

  lemma OneMore(contacts: seq<Contact>, i: nat)
    requires i < |contacts|
    ensures forall key :: OfKey(contacts[..i + 1], key) == OfKey(contacts[..i], key) + if Key(contacts[i]) == key then [contacts[i]] else []
  {
    assert contacts[..i + 1][..i] == contacts[..i];
  }

  /** The map holds what was collected so far. */
  ghost predicate Filled(contacts: seq<Contact>, table: map<string, ContactGroup>) {
    && (forall key :: key in table <==> OfKey(contacts, key) != [])
    && (forall key | key in table :: Collected(contacts, key, table[key]))
  }

  lemma FillStep(contacts: seq<Contact>, i: nat, table: map<string, ContactGroup>)
    requires i < |contacts| && Filled(contacts[..i], table)
    ensures var c := contacts[i];
            var key := Key(c);
            var group := if key in table then table[key].(members := table[key].members + [c]) else ContactGroup(key, GroupName(c), [c]);
            Filled(contacts[..i + 1], table[key := group])
  {
    OneMore(contacts, i);
  }

  /** The map the page fills, with its keys in insertion order. */
  method CollectByKey(contacts: seq<Contact>) returns (order: seq<string>, table: map<string, ContactGroup>)
    ensures Lists(order, table.Keys)
    ensures forall key :: key in table <==> OfKey(contacts, key) != []
    ensures forall key | key in table :: Collected(contacts, key, table[key])
  {
    order, table := [], map[];
    for i := 0 to |contacts|
      invariant Lists(order, table.Keys) && Filled(contacts[..i], table)
    {
      var c := contacts[i];
      var key := Key(c);
      FillStep(contacts, i, table);
      if key in table {
        table := table[key := table[key].(members := table[key].members + [c])];
      } else {
        order := order + [key];
        table := table[key := ContactGroup(key, GroupName(c), [c])];
      }
    }
    assert contacts[..|contacts|] == contacts;
  }

  method GroupConnections(contacts: seq<Contact>, collate: Collation) returns (groups: seq<ContactGroup>)
    requires TotalPreorder(collate)
    ensures IsContactGrouping(contacts, collate, groups)
  {
    var order, table := CollectByKey(contacts);
    var values: seq<ContactGroup> := [];
    for i := 0 to |order|
      invariant |values| == i
      invariant forall j | 0 <= j < i :: values[j].key == order[j] && IsContactGroup(contacts, collate, values[j])
    {
      var group := table[order[i]];
      values := values + [group.(members := Sort(group.members, MembersBefore(collate)))];
    }
    groups := Sort(values, GroupsBefore(collate));
    OrdersTotal(collate);
    SortSorts(values, GroupsBefore(collate));
    SameGroups(values, groups);
    EveryoneShown(contacts, order, values, groups);
  }

  lemma EveryoneShown(contacts: seq<Contact>, order: seq<string>, values: seq<ContactGroup>, groups: seq<ContactGroup>)
    requires |values| == |order| && forall i | 0 <= i < |order| :: values[i].key == order[i]
    requires forall key :: key in order <==> OfKey(contacts, key) != []
    requires forall g :: g in groups <==> g in values
    ensures forall c | c in contacts :: exists g :: g in groups && g.key == Key(c)
  {
    forall c | c in contacts
      ensures exists g :: g in groups && g.key == Key(c)
    {
      OfKeyHolds(contacts, Key(c), c);
      var k :| 0 <= k < |order| && order[k] == Key(c);
      assert values[k] in groups;
    }
  }

  ghost predicate Collected(contacts: seq<Contact>, key: string, g: ContactGroup) {
    && g.key == key && g.members == OfKey(contacts, key) && g.members != []
    && g.name == GroupName(g.members[0])
  }

  lemma SameGroups(values: seq<ContactGroup>, groups: seq<ContactGroup>)
    requires multiset(values) == multiset(groups) && KeysDiffer(values)
    ensures forall g :: g in groups <==> g in values
    ensures KeysDiffer(groups)
  {
    forall g
      ensures g in groups <==> g in values
    {
      assert g in multiset(groups) <==> g in multiset(values);
    }
    forall i, j | 0 <= i < j < |groups|
      ensures groups[i].key != groups[j].key
    {
      var g := groups[i];
      assert groups == groups[..j] + groups[j..];
      assert g in groups[..j];
      if groups[j] == g {
        assert g in groups[j..];
        assert multiset(groups)[g] >= 2;
        OnlyOnce(values, g);
      } else {
        assert groups[i] in groups && groups[j] in groups;
        var a :| 0 <= a < |values| && values[a] == groups[i];
        var b :| 0 <= b < |values| && values[b] == groups[j];
      }
    }
  }

  lemma {:induction false} OnlyOnce(values: seq<ContactGroup>, g: ContactGroup)
    requires KeysDiffer(values)
    ensures multiset(values)[g] <= 1
  {
    if values != [] {
      assert values == [values[0]] + values[1..];
      OnlyOnce(values[1..], g);
    }
  }

  /** A key's collection holds each contact with that key as often as the list does, and no other. */
  lemma {:induction false} OfKeyHolds(contacts: seq<Contact>, key: string, c: Contact)
    ensures multiset(OfKey(contacts, key))[c] == if Key(c) == key then multiset(contacts)[c] else 0
    ensures c in contacts && Key(c) == key ==> c in OfKey(contacts, key)
  {
    if contacts != [] {
      var n := |contacts| - 1;
      OfKeyHolds(contacts[..n], key, c);
      assert contacts == contacts[..n] + [contacts[n]];
    }
  }

  /** Every contact is in the one group of its key as often as in the list, and in no other group. */
  lemma GroupsPartition(contacts: seq<Contact>, collate: Collation, groups: seq<ContactGroup>, c: Contact, i: nat)
    requires TotalPreorder(collate) && IsContactGrouping(contacts, collate, groups) && i < |groups|
    ensures multiset(groups[i].members)[c] == if groups[i].key == Key(c) then multiset(contacts)[c] else 0
    ensures Ascending(groups[i].members, MembersBefore(collate))
  {
    assert groups[i] in groups;
    OrdersTotal(collate);
    SortSorts(OfKey(contacts, groups[i].key), MembersBefore(collate));
    OfKeyHolds(contacts, groups[i].key, c);
  }

  /** Two contacts belong together: the same group, or neither has one, which the page files as "default". */
  predicate Together(a: Contact, b: Contact) {
    || a.groupId == b.groupId
    || (a.groupId == None && b.groupId == Some("default"))
    || (a.groupId == Some("default") && b.groupId == None)
  }

  lemma TogetherIff(a: Contact, b: Contact)
    ensures Together(a, b) <==> Key(a) == Key(b)
  {
  }

  lemma MemberKey(contacts: seq<Contact>, collate: Collation, groups: seq<ContactGroup>, i: nat, m: nat)
    requires TotalPreorder(collate) && IsContactGrouping(contacts, collate, groups)
    requires i < |groups| && m < |groups[i].members|
    ensures Key(groups[i].members[m]) == groups[i].key
  {
    var c := groups[i].members[m];
    assert c in multiset(groups[i].members);
    GroupsPartition(contacts, collate, groups, c, i);
  }

  /** Everyone is shown once for each time they are listed, with exactly those they belong together with. */
  lemma ShownTogether(contacts: seq<Contact>, collate: Collation, groups: seq<ContactGroup>, i: nat, m: nat, c: Contact)
    requires TotalPreorder(collate) && IsContactGrouping(contacts, collate, groups)
    requires i < |groups| && m < |groups[i].members|
    ensures multiset(groups[i].members)[c] == if Together(groups[i].members[m], c) then multiset(contacts)[c] else 0
  {
    MemberKey(contacts, collate, groups, i, m);
    GroupsPartition(contacts, collate, groups, c, i);
    TogetherIff(groups[i].members[m], c);
  }

  /** A group has the name that the first of its members in the list gives, or "Acquaintances". */
  lemma NamedByFirst(contacts: seq<Contact>, collate: Collation, groups: seq<ContactGroup>, i: nat, m: nat) returns (f: nat)
    requires TotalPreorder(collate) && IsContactGrouping(contacts, collate, groups)
    requires i < |groups| && m < |groups[i].members|
    ensures f < |contacts| && Together(groups[i].members[m], contacts[f])
    ensures forall h | 0 <= h < f :: !Together(groups[i].members[m], contacts[h])
    ensures groups[i].name == if contacts[f].groupName == None then "Acquaintances" else contacts[f].groupName.value
  {
    MemberKey(contacts, collate, groups, i, m);
    assert groups[i] in groups && IsContactGroup(contacts, collate, groups[i]);
    f := FirstOfKey(contacts, groups[i].key);
    forall h | 0 <= h <= f
      ensures Together(groups[i].members[m], contacts[h]) <==> h == f
    {
      TogetherIff(groups[i].members[m], contacts[h]);
    }
  }

  lemma {:induction false} FirstOfKey(contacts: seq<Contact>, key: string) returns (f: nat)
    requires OfKey(contacts, key) != []
    ensures f < |contacts| && OfKey(contacts, key)[0] == contacts[f] && Key(contacts[f]) == key
    ensures forall h | 0 <= h < f :: Key(contacts[h]) != key
  {
    var n := |contacts| - 1;
    if OfKey(contacts[..n], key) != [] {
      f := FirstOfKey(contacts[..n], key);
    } else {
      f := n;
      forall h | 0 <= h < n
        ensures Key(contacts[h]) != key
      {
        OfKeyHolds(contacts[..n], key, contacts[h]);
        assert contacts[..n][h] in contacts[..n];
      }
    }
  }

  /** Within a group whoever shared more events comes first, and by name among equals; groups come by name. */
  lemma PageOrder(contacts: seq<Contact>, collate: Collation, groups: seq<ContactGroup>)
    requires TotalPreorder(collate) && IsContactGrouping(contacts, collate, groups)
    ensures forall i, j | 0 <= i < j < |groups| :: collate(groups[i].name, groups[j].name)
    ensures forall i, a, b | 0 <= i < |groups| && 0 <= a < b < |groups[i].members| ::
              var x, y := groups[i].members[a], groups[i].members[b];
              x.eventsTogether > y.eventsTogether || (x.eventsTogether == y.eventsTogether && collate(x.name, y.name))
  {
    forall i, a, b | 0 <= i < |groups| && 0 <= a < b < |groups[i].members|
      ensures var x, y := groups[i].members[a], groups[i].members[b];
              x.eventsTogether > y.eventsTogether || (x.eventsTogether == y.eventsTogether && collate(x.name, y.name))
    {
      GroupsPartition(contacts, collate, groups, groups[i].members[a], i);
      assert MembersBefore(collate)(groups[i].members[a], groups[i].members[b]);
    }
  }
}
