/**
 * `GroupedState`: the backend's in-memory copy of entities that fall into groups (the
 * sessions of each project), with a reverse index from item key to group and an optional
 * latest-value watcher per group holding that group's sorted list. The locks it takes are
 * given, per call, as the set of those found poisoned.
 */
module GroupedStore {
  import opened Wrappers
  import opened Seqs
  import opened StateErrors

  datatype GroupedLock = GroupsLock | IndexLock | GroupSendersLock

  /** A group's items; an unknown group has none. */
  function GroupItems<G(==), K(==), V>(groups: map<G, map<K, V>>, g: G): (r: map<K, V>)
    ensures g in groups ==> r == groups[g]
    ensures g !in groups ==> r == map[]
  {
    if g in groups then groups[g] else map[]
  }

  /** `groups.entry(g).or_default().insert(k, v)`. */
  function Place<G(==), K(==), V>(groups: map<G, map<K, V>>, g: G, k: K, v: V): (r: map<G, map<K, V>>)
    ensures r.Keys == groups.Keys + {g}
    ensures r[g] == GroupItems(groups, g)[k := v]
    ensures forall h :: h in groups && h != g ==> r[h] == groups[h]
  {
    groups[g := GroupItems(groups, g)[k := v]]
  }

  /** The index and the groups agree: an item is indexed under a group exactly when that group
      holds it. */
  ghost predicate Consistent<G, K, V>(groups: map<G, map<K, V>>, index: map<K, G>)
  {
    (forall k :: k in index ==> index[k] in groups && k in groups[index[k]]) &&
    (forall g, k :: g in groups && k in groups[g] ==> k in index && index[k] == g)
  }

  /** Every stored value sits under its own group and item key. */
  ghost predicate Keyed<G, K, V>(groups: map<G, map<K, V>>, groupOf: V -> G, keyOf: V -> K)
  {
    forall g, k :: g in groups && k in groups[g] ==> groupOf(groups[g][k]) == g && keyOf(groups[g][k]) == k
  }

  // ---------------------------------------------------------------------------
  // new

  /** What `new` builds: each initial value placed in its group and indexed there, in order. */
  function Seeded<G(==), K(==), V>(initial: seq<V>, groupOf: V -> G, keyOf: V -> K): (r: (map<G, map<K, V>>, map<K, G>))
    ensures r.1.Keys == set i | 0 <= i < |initial| :: keyOf(initial[i])
    ensures forall k :: k in r.1 ==> r.1[k] in r.0 && k in r.0[r.1[k]]
    ensures Keyed(r.0, groupOf, keyOf)
    decreases |initial|
  {
    if initial == [] then (map[], map[])
    else
      var prefix := initial[..|initial| - 1];
      var v := initial[|initial| - 1];
      var (groups, index) := Seeded(prefix, groupOf, keyOf);
      assert forall i :: 0 <= i < |prefix| ==> prefix[i] == initial[i];
      assert (set i | 0 <= i < |initial| :: keyOf(initial[i])) == (set i | 0 <= i < |prefix| :: keyOf(prefix[i])) + {keyOf(v)};
      (Place(groups, groupOf(v), keyOf(v), v), index[keyOf(v) := groupOf(v)])
  }

  /** With distinct item keys, `new` establishes the invariant. */
  lemma {:induction false} SeededConsistent<G, K, V>(initial: seq<V>, groupOf: V -> G, keyOf: V -> K)
    requires KeysDistinct(initial, keyOf)
    ensures Consistent(Seeded(initial, groupOf, keyOf).0, Seeded(initial, groupOf, keyOf).1)
    decreases |initial|
  {
    if initial != [] {
      var prefix := initial[..|initial| - 1];
      var v := initial[|initial| - 1];
      assert forall i :: 0 <= i < |prefix| ==> prefix[i] == initial[i];
      SeededConsistent(prefix, groupOf, keyOf);
      var (groups, index) := Seeded(prefix, groupOf, keyOf);
      assert keyOf(v) !in index;
    }
  }

  /** With one item key under two groups, `new` breaks the invariant: the first group keeps
      the item while the index names the second. */
  lemma RepeatedKeyBreaksIndex<G, K, V>(a: V, b: V, groupOf: V -> G, keyOf: V -> K)
    requires keyOf(a) == keyOf(b) && groupOf(a) != groupOf(b)
    ensures var (groups, index) := Seeded([a, b], groupOf, keyOf);
      groupOf(a) in groups && keyOf(a) in groups[groupOf(a)] && index[keyOf(a)] == groupOf(b) && !Consistent(groups, index)
  {
    assert [a, b][..1] == [a];
    assert [a][..0] == [];
  }

  // ---------------------------------------------------------------------------
  // upsert, remove, remove_group

  /** The group an upsert moves the item out of: the one it is indexed under, if another. */
  function MovedFrom<G(==), K(==)>(index: map<K, G>, k: K, g: G): (r: Option<G>)
    ensures r.Some? <==> k in index && index[k] != g
    ensures r.Some? ==> r.value == index[k]
  {
    if k in index && index[k] != g then Some(index[k]) else None
  }

  /** The groups and index after `upsert(v)`: taken out of a previous group, placed in its own
      and indexed there. */
  function Upserted<G(==), K(==), V>(groups: map<G, map<K, V>>, index: map<K, G>, g: G, k: K, v: V): (r: (map<G, map<K, V>>, map<K, G>))
    ensures r.1 == index[k := g]
    ensures r.0.Keys == groups.Keys + {g}
    ensures k in r.0[g] && r.0[g][k] == v
    ensures forall j :: j in GroupItems(groups, g) && j != k ==> j in r.0[g] && r.0[g][j] == GroupItems(groups, g)[j]
    ensures forall j :: j in r.0[g] ==> j == k || j in GroupItems(groups, g)
    ensures MovedFrom(index, k, g).Some? && index[k] in groups ==>
      r.0[index[k]] == groups[index[k]] - {k}
    ensures forall h :: h in groups && h != g && Some(h) != MovedFrom(index, k, g) ==> r.0[h] == groups[h]
  {
    var detached :=
      if MovedFrom(index, k, g).Some? && index[k] in groups then groups[index[k] := groups[index[k]] - {k}]
      else groups;
    (Place(detached, g, k, v), index[k := g])
  }

  lemma UpsertKeeps<G, K, V>(groups: map<G, map<K, V>>, index: map<K, G>, v: V, groupOf: V -> G, keyOf: V -> K)
    requires Consistent(groups, index) && Keyed(groups, groupOf, keyOf)
    ensures var r := Upserted(groups, index, groupOf(v), keyOf(v), v);
      Consistent(r.0, r.1) && Keyed(r.0, groupOf, keyOf)
  {
    UpsertConsistent(groups, index, groupOf(v), keyOf(v), v);
    UpsertKeyed(groups, index, v, groupOf, keyOf);
  }

  lemma UpsertConsistent<G, K, V>(groups: map<G, map<K, V>>, index: map<K, G>, g: G, k: K, v: V)
    requires Consistent(groups, index)
    ensures var r := Upserted(groups, index, g, k, v); Consistent(r.0, r.1)
  {
    var r := Upserted(groups, index, g, k, v);
    forall j | j in r.1
      ensures r.1[j] in r.0 && j in r.0[r.1[j]]
    {
      if j != k {
        var h := index[j];
        assert h in groups && j in groups[h];
        if h == g {
          assert j in GroupItems(groups, g);
        } else if Some(h) == MovedFrom(index, k, g) {
          assert r.0[h] == groups[h] - {k};
        } else {
          assert r.0[h] == groups[h];
        }
      }
    }
    forall h, j | h in r.0 && j in r.0[h]
      ensures j in r.1 && r.1[j] == h
    {
      if h == g {
        if j != k {
          assert j in GroupItems(groups, g);
        }
      } else if Some(h) == MovedFrom(index, k, g) {
        assert j in groups[h] && j != k;
      } else {
        assert r.0[h] == groups[h] && j in groups[h];
      }
    }
  }

  lemma UpsertKeyed<G, K, V>(groups: map<G, map<K, V>>, index: map<K, G>, v: V, groupOf: V -> G, keyOf: V -> K)
    requires Keyed(groups, groupOf, keyOf)
    ensures var r := Upserted(groups, index, groupOf(v), keyOf(v), v); Keyed(r.0, groupOf, keyOf)
  {
    var g, k := groupOf(v), keyOf(v);
    var r := Upserted(groups, index, g, k, v);
    forall h, j | h in r.0 && j in r.0[h]
      ensures groupOf(r.0[h][j]) == h && keyOf(r.0[h][j]) == j
    {
      if h == g {
        if j != k {
          assert r.0[g][j] == GroupItems(groups, g)[j];
        }
      } else if Some(h) == MovedFrom(index, k, g) {
        assert r.0[h][j] == groups[h][j];
      } else {
        assert r.0[h] == groups[h];
      }
    }
  }

  /** The groups and index after `remove(k)`: unindexed, and taken out of its group. */
  function Removed<G(==), K(==), V>(groups: map<G, map<K, V>>, index: map<K, G>, k: K): (r: (map<G, map<K, V>>, map<K, G>))
    ensures r.1 == index - {k}
    ensures k !in index ==> r.0 == groups
    ensures k in index ==> r.0 == groups[index[k] := GroupItems(groups, index[k]) - {k}]
  {
    if k in index then (groups[index[k] := GroupItems(groups, index[k]) - {k}], index - {k}) else (groups, index)
  }

  lemma RemoveKeeps<G, K, V>(groups: map<G, map<K, V>>, index: map<K, G>, k: K, groupOf: V -> G, keyOf: V -> K)
    requires Consistent(groups, index) && Keyed(groups, groupOf, keyOf)
    ensures var r := Removed(groups, index, k);
      Consistent(r.0, r.1) && Keyed(r.0, groupOf, keyOf) &&
      forall g :: g in r.0 ==> k !in r.0[g]
  {
  }

  /** The groups and index after `remove_group(g)`: the group is gone, and so is every index
      entry of an item it held. */
  function GroupRemoved<G(==), K(==), V>(groups: map<G, map<K, V>>, index: map<K, G>, g: G): (r: (map<G, map<K, V>>, map<K, G>))
    ensures r.0 == groups - {g}
    ensures r.1.Keys == index.Keys - GroupItems(groups, g).Keys
    ensures forall k :: k in r.1 ==> r.1[k] == index[k]
  {
    (groups - {g}, index - GroupItems(groups, g).Keys)
  }

  lemma RemoveGroupKeeps<G, K, V>(groups: map<G, map<K, V>>, index: map<K, G>, g: G, groupOf: V -> G, keyOf: V -> K)
    requires Consistent(groups, index) && Keyed(groups, groupOf, keyOf)
    ensures var r := GroupRemoved(groups, index, g);
      Consistent(r.0, r.1) && Keyed(r.0, groupOf, keyOf) &&
      forall k :: k in r.1 ==> r.1[k] != g
  {
    var r := GroupRemoved(groups, index, g);
    forall h, j | h in r.0 && j in r.0[h] ensures j in r.1 && r.1[j] == h {
      assert h in groups && j in groups[h];
      assert index[j] == h;
    }
  }

  // ---------------------------------------------------------------------------
  // Watchers

  /** Each group of `published` that has a watcher was sent its listing; every other watcher
      kept its value, and no watcher appeared or went away. */
  ghost predicate PublishedTo<G, K, V>(before: map<G, seq<V>>, after: map<G, seq<V>>, groups: map<G, map<K, V>>, published: set<G>, le: (V, V) -> bool)
  {
    after.Keys == before.Keys &&
    forall g :: g in after ==> if g in published then Listing(after[g], GroupItems(groups, g), le) else after[g] == before[g]
  }

  /** Every group watcher holds its group's listing. */
  ghost predicate WatchersCurrent<G, K, V>(senders: map<G, seq<V>>, groups: map<G, map<K, V>>, le: (V, V) -> bool)
  {
    forall g :: g in senders ==> Listing(senders[g], GroupItems(groups, g), le)
  }

  /** The groups `upsert` publishes: the one the item left, if any, and its own. */
  function PublishSet<G>(left: Option<G>, g: G): (r: set<G>)
    ensures g in r && (left.Some? ==> left.value in r)
    ensures forall h :: h in r ==> h == g || (left.Some? && h == left.value)
  {
    if left.Some? then {left.value, g} else {g}
  }

  /** Publishing one group after another publishes both. */
  lemma PublishedTwice<G, K, V>(s0: map<G, seq<V>>, s1: map<G, seq<V>>, s2: map<G, seq<V>>, groups: map<G, map<K, V>>, a: G, b: G, le: (V, V) -> bool)
    requires PublishedTo(s0, s1, groups, {a}, le) && PublishedTo(s1, s2, groups, {b}, le)
    ensures PublishedTo(s0, s2, groups, {a, b}, le)
  {
    forall h | h in s2
      ensures if h in {a, b} then Listing(s2[h], GroupItems(groups, h), le) else s2[h] == s0[h]
    {
      if h != b {
        assert s2[h] == s1[h];
      }
    }
  }

  /** Watchers stay current when every group whose items changed was published. */
  lemma RepublishedCurrent<G, K, V>(s0: map<G, seq<V>>, s1: map<G, seq<V>>, before: map<G, map<K, V>>, after: map<G, map<K, V>>, published: set<G>, le: (V, V) -> bool)
    requires WatchersCurrent(s0, before, le) && PublishedTo(s0, s1, after, published, le)
    requires forall h :: h !in published ==> GroupItems(after, h) == GroupItems(before, h)
    ensures WatchersCurrent(s1, after, le)
  {
    forall h | h in s1
      ensures Listing(s1[h], GroupItems(after, h), le)
    {
      if h !in published {
        assert s1[h] == s0[h] && GroupItems(after, h) == GroupItems(before, h);
      }
    }
  }

  /** An upsert changes the items of its own group and of the group the item left, no other. */
  lemma UpsertedElsewhere<G, K, V>(groups: map<G, map<K, V>>, index: map<K, G>, g: G, k: K, v: V)
    ensures var r := Upserted(groups, index, g, k, v);
      forall h :: h !in PublishSet(MovedFrom(index, k, g), g) ==> GroupItems(r.0, h) == GroupItems(groups, h)
  {
    var r := Upserted(groups, index, g, k, v);
    forall h | h !in PublishSet(MovedFrom(index, k, g), g)
      ensures GroupItems(r.0, h) == GroupItems(groups, h)
    {
      if h in groups {
        assert r.0[h] == groups[h];
      } else {
        assert h !in r.0;
      }
    }
  }

  class GroupedState<G(==), K(==), V(!new)> {
    const name: string
    const groupOf: V -> G
    const keyOf: V -> K
    const le: (V, V) -> bool
    var groups: map<G, map<K, V>>
    /** `item_to_group`. */
    var index: map<K, G>
    /** `group_senders`: one per subscribed group, as its latest value. */
    var senders: map<G, seq<V>>

    ghost predicate Valid()
      reads this
    {
      Consistent(groups, index) && Keyed(groups, groupOf, keyOf) && WatchersCurrent(senders, groups, le)
    }

    /** `new`: every initial value placed in its group and indexed, with no watcher. */
    constructor (name: string, initial: seq<V>, groupOf: V -> G, keyOf: V -> K, le: (V, V) -> bool)
      ensures this.name == name && this.groupOf == groupOf && this.keyOf == keyOf && this.le == le
      ensures (groups, index) == Seeded(initial, groupOf, keyOf)
      ensures senders == map[]
      ensures KeysDistinct(initial, keyOf) ==> Valid()
    {
      this.name := name;
      this.groupOf := groupOf;
      this.keyOf := keyOf;
      this.le := le;
      var built := map[];
      var byKey := map[];
      var i := 0;
      while i < |initial|
        invariant 0 <= i <= |initial|
        invariant (built, byKey) == Seeded(initial[..i], groupOf, keyOf)
      {
        assert initial[..i + 1][..i] == initial[..i];
        var value := initial[i];
        built := Place(built, groupOf(value), keyOf(value), value);
        byKey := byKey[keyOf(value) := groupOf(value)];
        i := i + 1;
      }
      assert initial[..i] == initial;
      groups := built;
      index := byKey;
      senders := map[];
      if KeysDistinct(initial, keyOf) {
        SeededConsistent(initial, groupOf, keyOf);
      }
    }

    /** `list_group`: the group's values, sorted; none for an unknown group. */
    method ListGroup(g: G, poisoned: set<GroupedLock>) returns (r: Result<seq<V>, StateError>)
      requires TotalPreorder(le)
      ensures r.Failure? <==> GroupsLock in poisoned
      ensures r.Failure? ==> r.error == LockPoisoned(name, "groups_read")
      ensures r.Success? ==> Listing(r.value, GroupItems(groups, g), le)
      ensures r.Success? && g !in groups ==> r.value == []
    {
      if GroupsLock in poisoned {
        return Failure(LockPoisoned(name, "groups_read"));
      }
      var values := CollectValues(GroupItems(groups, g));
      SortBySorted(values, le);
      r := Success(SortBy(values, le));
    }

    /** `subscribe_group`: the group's watcher is reused, or created holding its listing; the
        subscriber reads what it holds. */
    method SubscribeGroup(g: G, poisoned: set<GroupedLock>) returns (r: Result<seq<V>, StateError>)
      requires TotalPreorder(le)
      modifies this
      ensures groups == old(groups) && index == old(index)
      ensures GroupSendersLock in poisoned ==> r == Failure(LockPoisoned(name, "group_senders")) && senders == old(senders)
      ensures GroupSendersLock !in poisoned && GroupsLock in poisoned ==> r == Failure(LockPoisoned(name, "groups_read")) && senders == old(senders)
      ensures r.Success? <==> GroupSendersLock !in poisoned && GroupsLock !in poisoned
      ensures r.Success? && g in old(senders) ==> senders == old(senders) && r.value == senders[g]
      ensures r.Success? && g !in old(senders) ==> senders.Keys == old(senders).Keys + {g} && senders[g] == r.value
      ensures forall h :: h in old(senders) ==> h in senders && senders[h] == old(senders)[h]
      ensures r.Success? && (g !in old(senders) || old(Valid())) ==> Listing(r.value, GroupItems(groups, g), le)
      ensures old(Valid()) ==> Valid()
    {
      if GroupSendersLock in poisoned {
        return Failure(LockPoisoned(name, "group_senders"));
      }
      var initial := ListGroup(g, poisoned);
      if initial.Failure? {
        return Failure(initial.error);
      }
      if g !in senders {
        senders := senders[g := initial.value];
      }
      r := Success(senders[g]);
    }

    /** `publish_group`: the group's watcher, if any, is sent the group's listing. */
    method PublishGroup(g: G, poisoned: set<GroupedLock>) returns (r: Result<(), StateError>)
      requires TotalPreorder(le)
      modifies this
      ensures groups == old(groups) && index == old(index)
      ensures GroupSendersLock in poisoned ==> r == Failure(LockPoisoned(name, "group_senders")) && senders == old(senders)
      ensures GroupSendersLock !in poisoned && g in senders && GroupsLock in poisoned ==>
        r == Failure(LockPoisoned(name, "groups_read")) && senders == old(senders)
      ensures r.Success? <==> GroupSendersLock !in poisoned && (g !in senders || GroupsLock !in poisoned)
      ensures r.Success? ==> r == Success(()) && PublishedTo(old(senders), senders, groups, {g}, le)
    {
      if GroupSendersLock in poisoned {
        return Failure(LockPoisoned(name, "group_senders"));
      }
      if g in senders {
        var listed := ListGroup(g, poisoned);
        if listed.Failure? {
          return Failure(listed.error);
        }
        senders := senders[g := listed.value];
      }
      r := Success(());
    }

    /** `upsert`: the value is taken out of the group it was indexed under if that is another,
        placed in its own group and indexed there; then the old group, if any, and its own
        group are published. */
    method Upsert(value: V, poisoned: set<GroupedLock>) returns (r: Result<(), StateError>)
      requires TotalPreorder(le)
      modifies this
      ensures IndexLock in poisoned ==>
        r == Failure(LockPoisoned(name, "item_to_group_write")) && groups == old(groups) && index == old(index) && senders == old(senders)
      ensures IndexLock !in poisoned && GroupsLock in poisoned ==>
        r == Failure(LockPoisoned(name, "groups_write")) && groups == old(groups) && index == old(index) && senders == old(senders)
      ensures IndexLock !in poisoned && GroupsLock !in poisoned ==>
        (groups, index) == Upserted(old(groups), old(index), groupOf(value), keyOf(value), value)
      ensures IndexLock !in poisoned && GroupsLock !in poisoned && GroupSendersLock in poisoned ==>
        r == Failure(LockPoisoned(name, "group_senders")) && senders == old(senders)
      ensures r.Success? <==> IndexLock !in poisoned && GroupsLock !in poisoned && GroupSendersLock !in poisoned
      ensures r.Success? && MovedFrom(old(index), keyOf(value), groupOf(value)).Some? ==>
        PublishedTo(old(senders), senders, groups, {groupOf(value), old(index)[keyOf(value)]}, le)
      ensures r.Success? && MovedFrom(old(index), keyOf(value), groupOf(value)).None? ==>
        PublishedTo(old(senders), senders, groups, {groupOf(value)}, le)
      ensures r.Success? && old(Valid()) ==> Valid()
    {
      var g, k := groupOf(value), keyOf(value);
      if IndexLock in poisoned {
        return Failure(LockPoisoned(name, "item_to_group_write"));
      }
      var oldGroup := if k in index then Some(index[k]) else None;
      if GroupsLock in poisoned {
        return Failure(LockPoisoned(name, "groups_write"));
      }
      var publishOld := if oldGroup.Some? && oldGroup.value != g then oldGroup else None;
      assert publishOld == MovedFrom(index, k, g);
      if old(Valid()) {
        UpsertKeeps(groups, index, value, groupOf, keyOf);
      }
      MoveIn(value);
      r := PublishEach(publishOld, g, poisoned);
      if r.Success? && old(Valid()) {
        UpsertedElsewhere(old(groups), old(index), g, k, value);
        RepublishedCurrent(old(senders), senders, old(groups), groups, PublishSet(publishOld, g), le);
      }
    }

    /** The store update of `upsert`: out of the group the item was indexed under if that is
        another, into its own group, and indexed there. */
    method MoveIn(value: V)
      modifies this
      ensures (groups, index) == Upserted(old(groups), old(index), groupOf(value), keyOf(value), value)
      ensures senders == old(senders)
    {
      var g, k := groupOf(value), keyOf(value);
      if k in index && index[k] != g && index[k] in groups {
        groups := groups[index[k] := groups[index[k]] - {k}];
      }
      groups := Place(groups, g, k, value);
      index := index[k := g];
    }

    /** The publishing of `upsert`: the group the item left, if any, then its own group. */
    method PublishEach(left: Option<G>, g: G, poisoned: set<GroupedLock>) returns (r: Result<(), StateError>)
      requires TotalPreorder(le)
      modifies this
      ensures groups == old(groups) && index == old(index)
      ensures GroupSendersLock in poisoned ==> r == Failure(LockPoisoned(name, "group_senders")) && senders == old(senders)
      ensures GroupsLock !in poisoned ==> (r.Success? <==> GroupSendersLock !in poisoned)
      ensures r.Success? ==> PublishedTo(old(senders), senders, groups, PublishSet(left, g), le)
    {
      if left.Some? {
        r := PublishGroup(left.value, poisoned);
        if r.Failure? {
          return;
        }
      }
      ghost var between := senders;
      r := PublishGroup(g, poisoned);
      if r.Success? && left.Some? {
        PublishedTwice(old(senders), between, senders, groups, left.value, g, le);
      }
    }
    /** `remove`: the item is unindexed and taken out of its group, which is published; an
        unknown item changes nothing. */
    method Remove(k: K, poisoned: set<GroupedLock>) returns (r: Result<(), StateError>)
      requires TotalPreorder(le)
      modifies this
      ensures IndexLock in poisoned ==>
        r == Failure(LockPoisoned(name, "item_to_group_write")) && groups == old(groups) && index == old(index) && senders == old(senders)
      ensures IndexLock !in poisoned && k !in old(index) ==>
        r == Success(()) && groups == old(groups) && index == old(index) && senders == old(senders)
      ensures IndexLock !in poisoned && k in old(index) && GroupsLock in poisoned ==>
        r == Failure(LockPoisoned(name, "groups_write")) && groups == old(groups) && index == old(index) - {k} && senders == old(senders)
      ensures IndexLock !in poisoned && k in old(index) && GroupsLock !in poisoned ==>
        (groups, index) == Removed(old(groups), old(index), k)
      ensures IndexLock !in poisoned && k in old(index) && GroupsLock !in poisoned && GroupSendersLock in poisoned ==>
        r == Failure(LockPoisoned(name, "group_senders")) && senders == old(senders)
      ensures IndexLock !in poisoned && k in old(index) && GroupsLock !in poisoned && GroupSendersLock !in poisoned ==>
        r == Success(()) && PublishedTo(old(senders), senders, groups, {old(index)[k]}, le)
      ensures r.Success? && old(Valid()) ==> Valid()
    {
      if IndexLock in poisoned {
        return Failure(LockPoisoned(name, "item_to_group_write"));
      }
      if k !in index {
        return Success(());
      }
      var g := index[k];
      if old(Valid()) {
        RemoveKeeps(groups, index, k, groupOf, keyOf);
      }
      index := index - {k};
      if GroupsLock in poisoned {
        return Failure(LockPoisoned(name, "groups_write"));
      }
      groups := groups[g := GroupItems(groups, g) - {k}];
      r := PublishGroup(g, poisoned);
    }

    /** `remove_group`: the group is dropped, each item it held is unindexed, and its watcher
        is dropped. */
    method RemoveGroup(g: G, poisoned: set<GroupedLock>) returns (r: Result<(), StateError>)
      modifies this
      ensures GroupsLock in poisoned ==>
        r == Failure(LockPoisoned(name, "groups_write")) && groups == old(groups) && index == old(index) && senders == old(senders)
      ensures GroupsLock !in poisoned ==> groups == old(groups) - {g}
      ensures GroupsLock !in poisoned && GroupItems(old(groups), g) != map[] && IndexLock in poisoned ==>
        r == Failure(LockPoisoned(name, "item_to_group_write")) && index == old(index) && senders == old(senders)
      ensures GroupsLock !in poisoned && (GroupItems(old(groups), g) == map[] || IndexLock !in poisoned) ==>
        index == GroupRemoved(old(groups), old(index), g).1
      ensures GroupsLock !in poisoned && (GroupItems(old(groups), g) == map[] || IndexLock !in poisoned) && GroupSendersLock in poisoned ==>
        r == Failure(LockPoisoned(name, "group_senders")) && senders == old(senders)
      ensures r.Success? <==> GroupsLock !in poisoned && (GroupItems(old(groups), g) == map[] || IndexLock !in poisoned) && GroupSendersLock !in poisoned
      ensures r.Success? ==> senders == old(senders) - {g}
      ensures r.Success? && old(Valid()) ==> Valid()
    {
      if GroupsLock in poisoned {
        return Failure(LockPoisoned(name, "groups_write"));
      }
      var removed := GroupItems(groups, g);
      if old(Valid()) {
        RemoveGroupKeeps(groups, index, g, groupOf, keyOf);
      }
      groups := groups - {g};
      if removed != map[] {
        if IndexLock in poisoned {
          return Failure(LockPoisoned(name, "item_to_group_write"));
        }
        Unindex(removed.Keys);
      } else {
        assert removed.Keys == {};
      }
      assert index == GroupRemoved(old(groups), old(index), g).1;
      if GroupSendersLock in poisoned {
        return Failure(LockPoisoned(name, "group_senders"));
      }
      senders := senders - {g};
      r := Success(());
    }

    /** The unindexing loop of `remove_group`: each of `keys` leaves the index. */
    method Unindex(keys: set<K>)
      modifies this
      ensures index == old(index) - keys
      ensures groups == old(groups) && senders == old(senders)
    {
      var rest := keys;
      ghost var done: set<K> := {};
      while rest != {}
        invariant done + rest == keys && done !! rest
        invariant index == old(index) - done
        invariant groups == old(groups) && senders == old(senders)
        decreases rest
      {
        var k :| k in rest;
        index := index - {k};
        RemoveMore(old(index), done, k);
        done := done + {k};
        rest := rest - {k};
      }
    }
  }
}
