/**
 * `EntityState`: the backend's in-memory copy of one kind of entity, keyed by `keyOf`, with a
 * latest-value watcher over the whole sorted list and optional watchers over single keys.
 * A `watch::Sender` is modelled by the value it last sent. The locks it takes are given, per
 * call, as the set of those found poisoned.
 */
module EntityStore {
  import opened Wrappers
  import opened Seqs
  import opened StateErrors

  datatype EntityLock = ItemsLock | ItemSendersLock

  /** What is stored under `k`, if anything. */
  function Lookup<K, V>(items: map<K, V>, k: K): (r: Option<V>)
    ensures r.Some? <==> k in items
    ensures r.Some? ==> r.value == items[k]
  {
    if k in items then Some(items[k]) else None
  }

  /** Every single-key watcher holds what is stored under its key. */
  ghost predicate WatchersCurrent<K, V>(items: map<K, V>, watchers: map<K, Option<V>>)
  {
    forall k :: k in watchers ==> watchers[k] == Lookup(items, k)
  }

  /** A value sent to the watcher of `k`, if there is one; other watchers keep theirs. */
  function Notify<K, V>(watchers: map<K, Option<V>>, k: K, v: Option<V>): (r: map<K, Option<V>>)
    ensures r.Keys == watchers.Keys
    ensures k in watchers ==> r[k] == v
    ensures forall j :: j in watchers && j != k ==> r[j] == watchers[j]
  {
    if k in watchers then watchers[k := v] else watchers
  }

  /** The entries `new` builds from the initial values: one per key. */
  function Indexed<K, V>(initial: seq<V>, keyOf: V -> K): (r: map<K, V>)
    ensures r.Keys == set i | 0 <= i < |initial| :: keyOf(initial[i])
    ensures forall k :: k in r ==> keyOf(r[k]) == k
    decreases |initial|
  {
    if initial == [] then map[]
    else
      var prefix := initial[..|initial| - 1];
      var v := initial[|initial| - 1];
      assert forall i :: 0 <= i < |prefix| ==> prefix[i] == initial[i];
      assert (set i | 0 <= i < |initial| :: keyOf(initial[i])) == (set i | 0 <= i < |prefix| :: keyOf(prefix[i])) + {keyOf(v)};
      Indexed(prefix, keyOf)[keyOf(v) := v]
  }

  /** A key holds the last initial value that has it: later duplicates overwrite earlier ones. */
  lemma {:induction false} IndexedLastWins<K, V>(initial: seq<V>, keyOf: V -> K, j: nat)
    requires j < |initial|
    requires forall j' :: j < j' < |initial| ==> keyOf(initial[j']) != keyOf(initial[j])
    ensures Indexed(initial, keyOf)[keyOf(initial[j])] == initial[j]
    decreases |initial|
  {
    if j < |initial| - 1 {
      var prefix := initial[..|initial| - 1];
      assert prefix[j] == initial[j];
      assert forall j' :: j < j' < |prefix| ==> prefix[j'] == initial[j'];
      IndexedLastWins(prefix, keyOf, j);
    }
  }

  /** With distinct keys nothing is overwritten: the entries hold exactly the initial values. */
  lemma {:induction false} IndexedDistinct<K, V>(initial: seq<V>, keyOf: V -> K)
    requires KeysDistinct(initial, keyOf)
    ensures ValueBag(Indexed(initial, keyOf)) == multiset(initial)
    decreases |initial|
  {
    if initial != [] {
      var prefix := initial[..|initial| - 1];
      var v := initial[|initial| - 1];
      assert forall i :: 0 <= i < |prefix| ==> prefix[i] == initial[i];
      IndexedDistinct(prefix, keyOf);
      assert keyOf(v) !in Indexed(prefix, keyOf);
      ValueBagPut(Indexed(prefix, keyOf), keyOf(v), v);
      assert initial == prefix + [v];
    }
  }

  /** Seeded with a listing of a map that stores each value under its own key, `new` holds
      that very map. */
  lemma IndexedListing<K, V>(initial: seq<V>, m: map<K, V>, keyOf: V -> K)
    requires multiset(initial) == ValueBag(m) && StoredUnderKey(m, keyOf)
    ensures Indexed(initial, keyOf) == m
  {
    KeyedBagKeys(initial, m, keyOf);
    var r := Indexed(initial, keyOf);
    forall k | k in r ensures r[k] == m[k] {
      assert k in (set i | 0 <= i < |initial| :: keyOf(initial[i]));
      var j :| 0 <= j < |initial| && keyOf(initial[j]) == k;
      IndexedLastWins(initial, keyOf, j);
    }
  }

  /** Two initial values with one key: the entries keep the second only, while the list that
      seeds the all-watcher holds both, so it is not a listing of the entries. */
  lemma RepeatedKeySeedsStaleList<K, V>(a: V, b: V, keyOf: V -> K, le: (V, V) -> bool)
    requires keyOf(a) == keyOf(b) && a != b
    ensures Indexed([a, b], keyOf) == map[keyOf(b) := b]
    ensures !Listing(SortBy([a, b], le), Indexed([a, b], keyOf), le)
  {
    var m := Indexed([a, b], keyOf);
    assert [a, b][..1] == [a];
    assert [a][..0] == [];
    assert m == map[keyOf(b) := b];
    BagRemove(m, m.Keys, keyOf(b));
    assert m.Keys - {keyOf(b)} == {};
    assert ValueBag(m) == multiset{b};
    assert multiset(SortBy([a, b], le)) == multiset{a, b};
  }

  class EntityState<K(==), V(!new)> {
    const name: string
    const keyOf: V -> K
    const le: (V, V) -> bool
    var items: map<K, V>
    /** `item_senders`: the senders of single keys, each as its latest value. */
    var watchers: map<K, Option<V>>
    /** `all_sender`'s latest value. */
    var all: seq<V>

    /** Every entry sits under its own key, the watchers agree with the entries and the
        all-watcher holds their listing. */
    ghost predicate Valid()
      reads this
    {
      StoredUnderKey(items, keyOf) && WatchersCurrent(items, watchers) && Listing(all, items, le)
    }

    /** `new`: one entry per key of `initial`, no single-key watcher, and the all-watcher
        seeded with `initial` sorted. That seed is a listing of the entries when the keys are
        distinct. */
    constructor (name: string, initial: seq<V>, keyOf: V -> K, le: (V, V) -> bool)
      requires TotalPreorder(le)
      ensures this.name == name && this.keyOf == keyOf && this.le == le
      ensures items == Indexed(initial, keyOf)
      ensures watchers == map[]
      ensures multiset(all) == multiset(initial) && SortedBy(all, le)
      ensures KeysDistinct(initial, keyOf) ==> Valid()
    {
      this.name := name;
      this.keyOf := keyOf;
      this.le := le;
      var entries := map[];
      var i := 0;
      while i < |initial|
        invariant 0 <= i <= |initial|
        invariant entries == Indexed(initial[..i], keyOf)
      {
        assert initial[..i + 1][..i] == initial[..i];
        entries := entries[keyOf(initial[i]) := initial[i]];
        i := i + 1;
      }
      assert initial[..i] == initial;
      items := entries;
      watchers := map[];
      SortBySorted(initial, le);
      all := SortBy(initial, le);
      if KeysDistinct(initial, keyOf) {
        IndexedDistinct(initial, keyOf);
      }
    }

    /** `subscribe_all`: the all-watcher's value. */
    method SubscribeAll() returns (r: seq<V>)
      ensures Valid() ==> Listing(r, items, le)
    {
      r := all;
    }

    /** `subscribe_one`: the key's watcher is reused, or created holding the key's current
        value; the subscriber reads what it holds. The watchers' lock is taken first. */
    method SubscribeOne(key: K, poisoned: set<EntityLock>) returns (r: Result<Option<V>, StateError>)
      modifies this
      ensures items == old(items) && all == old(all)
      ensures ItemSendersLock in poisoned ==> r == Failure(LockPoisoned(name, "item_senders")) && watchers == old(watchers)
      ensures ItemSendersLock !in poisoned && ItemsLock in poisoned ==> r == Failure(LockPoisoned(name, "items_read")) && watchers == old(watchers)
      ensures poisoned == {} && key in old(watchers) ==> watchers == old(watchers)
      ensures poisoned == {} && key !in old(watchers) ==> watchers == old(watchers)[key := Lookup(items, key)]
      ensures poisoned == {} ==> r == Success(watchers[key])
      ensures old(Valid()) ==> Valid()
      ensures old(Valid()) && r.Success? ==> r.value == Lookup(items, key)
    {
      if ItemSendersLock in poisoned {
        return Failure(LockPoisoned(name, "item_senders"));
      }
      if ItemsLock in poisoned {
        return Failure(LockPoisoned(name, "items_read"));
      }
      var initial := Lookup(items, key);
      if key !in watchers {
        watchers := watchers[key := initial];
      }
      r := Success(watchers[key]);
      assert forall l :: l in poisoned ==> l == ItemsLock || l == ItemSendersLock;
    }

    /** `list`: every stored value, sorted. */
    method List(poisoned: set<EntityLock>) returns (r: Result<seq<V>, StateError>)
      requires TotalPreorder(le)
      ensures r.Failure? <==> ItemsLock in poisoned
      ensures r.Failure? ==> r.error == LockPoisoned(name, "items_read")
      ensures r.Success? ==> Listing(r.value, items, le)
    {
      if ItemsLock in poisoned {
        return Failure(LockPoisoned(name, "items_read"));
      }
      var values := CollectValues(items);
      SortBySorted(values, le);
      r := Success(SortBy(values, le));
    }

    /** `get`: the stored value, or none. */
    method Get(key: K, poisoned: set<EntityLock>) returns (r: Result<Option<V>, StateError>)
      ensures r.Failure? <==> ItemsLock in poisoned
      ensures r.Failure? ==> r.error == LockPoisoned(name, "items_read")
      ensures r.Success? ==> r.value == Lookup(items, key)
    {
      if ItemsLock in poisoned {
        return Failure(LockPoisoned(name, "items_read"));
      }
      r := Success(Lookup(items, key));
    }

    /** `upsert`: the value replaces its key's entry, is sent to that key's watcher if one
        exists, and the full list is republished. A poisoned watcher lock stops it after the
        entry is written. */
    method Upsert(value: V, poisoned: set<EntityLock>) returns (r: Result<(), StateError>)
      requires TotalPreorder(le)
      modifies this
      ensures ItemsLock in poisoned ==>
        r == Failure(LockPoisoned(name, "items_write")) && items == old(items) && watchers == old(watchers) && all == old(all)
      ensures ItemsLock !in poisoned ==> items == old(items)[keyOf(value) := value]
      ensures ItemsLock !in poisoned && ItemSendersLock in poisoned ==>
        r == Failure(LockPoisoned(name, "item_senders")) && watchers == old(watchers) && all == old(all)
      ensures poisoned == {} ==>
        r == Success(()) && watchers == Notify(old(watchers), keyOf(value), Some(value)) && Listing(all, items, le)
      ensures poisoned == {} && old(Valid()) ==> Valid()
    {
      if ItemsLock in poisoned {
        return Failure(LockPoisoned(name, "items_write"));
      }
      var key := keyOf(value);
      items := items[key := value];
      if ItemSendersLock in poisoned {
        return Failure(LockPoisoned(name, "item_senders"));
      }
      watchers := Notify(watchers, key, Some(value));
      r := PublishAll(poisoned);
    }

    /** `remove`: the key's entry is deleted, its watcher is sent none and dropped, and the
        full list is republished; other keys are untouched. */
    method Remove(key: K, poisoned: set<EntityLock>) returns (r: Result<(), StateError>)
      requires TotalPreorder(le)
      modifies this
      ensures ItemsLock in poisoned ==>
        r == Failure(LockPoisoned(name, "items_write")) && items == old(items) && watchers == old(watchers) && all == old(all)
      ensures ItemsLock !in poisoned ==> items == old(items) - {key}
      ensures ItemsLock !in poisoned && ItemSendersLock in poisoned ==>
        r == Failure(LockPoisoned(name, "item_senders")) && watchers == old(watchers) && all == old(all)
      ensures poisoned == {} ==> r == Success(()) && watchers == old(watchers) - {key} && Listing(all, items, le)
      ensures poisoned == {} && old(Valid()) ==> Valid()
    {
      if ItemsLock in poisoned {
        return Failure(LockPoisoned(name, "items_write"));
      }
      items := items - {key};
      if ItemSendersLock in poisoned {
        return Failure(LockPoisoned(name, "item_senders"));
      }
      watchers := watchers - {key};
      r := PublishAll(poisoned);
    }

    /** `publish_all`: the all-watcher is sent `list()`. */
    method PublishAll(poisoned: set<EntityLock>) returns (r: Result<(), StateError>)
      requires TotalPreorder(le)
      modifies this
      ensures items == old(items) && watchers == old(watchers)
      ensures r.Failure? <==> ItemsLock in poisoned
      ensures r.Failure? ==> r == Failure(LockPoisoned(name, "items_read")) && all == old(all)
      ensures r.Success? ==> r == Success(()) && Listing(all, items, le)
    {
      var listed := List(poisoned);
      if listed.Failure? {
        return Failure(listed.error);
      }
      all := listed.value;
      r := Success(());
    }
  }

  // ---------------------------------------------------------------------------
  // What the operations keep

  /** After an upsert the listing holds the new value in place of the key's old one. */
  lemma UpsertListing<K, V>(items: map<K, V>, keyOf: V -> K, value: V, le: (V, V) -> bool, s: seq<V>)
    requires Listing(s, items[keyOf(value) := value], le)
    ensures value in s
    ensures multiset(s) == (if keyOf(value) in items then ValueBag(items) - multiset{items[keyOf(value)]} else ValueBag(items)) + multiset{value}
  {
    ValueBagPut(items, keyOf(value), value);
    assert value in multiset(s);
  }

  /** After a remove the listing lacks exactly the key's old value. */
  lemma RemoveListing<K, V>(items: map<K, V>, key: K, le: (V, V) -> bool, s: seq<V>)
    requires Listing(s, items - {key}, le)
    ensures key in items ==> multiset(s) == ValueBag(items) - multiset{items[key]}
    ensures key !in items ==> multiset(s) == ValueBag(items)
  {
    ValueBagRemove(items, key);
  }

  /** Two listings of the same entries under an antisymmetric order are the same list, so the
      all-watcher holds exactly what `list` answers. */
  lemma ListingUnique<K, V(!new)>(items: map<K, V>, le: (V, V) -> bool, a: seq<V>, b: seq<V>)
    requires Antisymmetric(le)
    requires Listing(a, items, le) && Listing(b, items, le)
    ensures a == b
  {
    SortedUnique(a, b, le);
  }
}
