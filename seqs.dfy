/**
 * Sequence, string and map helpers shared by every layer: duplicate-free lists,
 * `retain`-style removal, a comparator-driven sort (the model of Rust's `sort_by`
 * and of SQL `ORDER BY`), the lexicographic order of strings, and the multiset of
 * a map's values (what iterating a `HashMap` yields, in some order).
 */
module Seqs {
  predicate NoDup<T(==)>(s: seq<T>)
  {
    forall i, j :: 0 <= i < j < |s| ==> s[i] != s[j]
  }

  /** `Vec::retain(|y| *y != x)`: every occurrence of `x` goes, the rest keep their order. */
  function Without<T(==)>(s: seq<T>, x: T): (r: seq<T>)
    ensures multiset(r) == multiset(s)[x := 0]
    ensures x !in s ==> r == s
  {
    if s == [] then []
    else
      assert s == [s[0]] + s[1..];
      if s[0] == x then Without(s[1..], x) else [s[0]] + Without(s[1..], x)
  }

  lemma {:induction false} WithoutNoDup<T>(s: seq<T>, x: T)
    ensures NoDup(s) ==> NoDup(Without(s, x))
  {
    if s != [] && NoDup(s) {
      assert NoDup(s[1..]) by {
        forall i, j | 0 <= i < j < |s[1..]| ensures s[1..][i] != s[1..][j] {
          assert s[1..][i] == s[i + 1] && s[1..][j] == s[j + 1];
        }
      }
      WithoutNoDup(s[1..], x);
      if s[0] != x {
        var t := Without(s[1..], x);
        assert s[0] !in t by {
          assert s[0] !in s[1..] by {
            forall k | 0 <= k < |s[1..]| ensures s[1..][k] != s[0] {
              assert s[1..][k] == s[k + 1];
            }
          }
          assert multiset(t)[s[0]] == 0;
        }
        var r := [s[0]] + t;
        forall i, j | 0 <= i < j < |r| ensures r[i] != r[j] {
          if i == 0 {
            assert r[j] == t[j - 1];
          } else {
            assert r[i] == t[i - 1] && r[j] == t[j - 1];
          }
        }
      }
    }
  }

  /** `if !ids.contains(&x) { ids.push(x) }` */
  function AppendIfAbsent<T(==)>(s: seq<T>, x: T): (r: seq<T>)
    ensures x in r
    ensures forall i :: 0 <= i < |s| ==> s[i] in r
    ensures forall i :: 0 <= i < |r| ==> r[i] in s || r[i] == x
    ensures NoDup(s) ==> NoDup(r)
    ensures x in s ==> r == s
    ensures x !in s ==> r == s + [x]
  {
    if x in s then s else s + [x]
  }

  /** `ids.iter().filter_map(|id| m.get(id).cloned())` */
  function LookupAll<K, V>(m: map<K, V>, ids: seq<K>): (r: seq<V>)
    ensures |r| <= |ids|
    ensures forall v :: v in r ==> exists k :: k in ids && k in m && m[k] == v
    ensures (forall k :: k in ids ==> k in m) ==> |r| == |ids| && forall i :: 0 <= i < |ids| ==> r[i] == m[ids[i]]
  {
    if ids == [] then []
    else if ids[0] in m then [m[ids[0]]] + LookupAll(m, ids[1..])
    else LookupAll(m, ids[1..])
  }

  // ---------------------------------------------------------------------------
  // Sorting by a comparator

  /** `le(a, b)` is "a may come before b": `cmp(a, b) != Ordering::Greater`. */
  ghost predicate TotalPreorder<T(!new)>(le: (T, T) -> bool)
  {
    (forall a, b :: le(a, b) || le(b, a)) &&
    (forall a, b, c :: le(a, b) && le(b, c) ==> le(a, c))
  }

  predicate SortedBy<T>(s: seq<T>, le: (T, T) -> bool)
  {
    forall i, j :: 0 <= i < j < |s| ==> le(s[i], s[j])
  }

  /** Insert `x` before the first element it may precede. */
  function Insert<T>(x: T, s: seq<T>, le: (T, T) -> bool): (r: seq<T>)
    ensures |r| == |s| + 1
    ensures multiset(r) == multiset(s) + multiset{x}
  {
    if s == [] then [x]
    else if le(x, s[0]) then [x] + s
    else
      assert s == [s[0]] + s[1..];
      [s[0]] + Insert(x, s[1..], le)
  }

  /** Insertion sort: the reference for every "sort by" of the source. */
  function SortBy<T>(s: seq<T>, le: (T, T) -> bool): (r: seq<T>)
    ensures |r| == |s|
    ensures multiset(r) == multiset(s)
  {
    if s == [] then []
    else
      assert s == [s[0]] + s[1..];
      Insert(s[0], SortBy(s[1..], le), le)
  }

  lemma {:induction false} InsertSorted<T(!new)>(x: T, s: seq<T>, le: (T, T) -> bool)
    requires TotalPreorder(le) && SortedBy(s, le)
    ensures SortedBy(Insert(x, s, le), le)
  {
    if s == [] {
    } else if le(x, s[0]) {
      forall y | y in s ensures le(x, y) {
        var k :| 0 <= k < |s| && s[k] == y;
        if k > 0 {
          assert le(s[0], s[k]);
        }
      }
      SortedCons(x, s, le);
    } else {
      SortedTail(s, le);
      InsertSorted(x, s[1..], le);
      var tail := Insert(x, s[1..], le);
      forall y | y in tail ensures le(s[0], y) {
        assert y in multiset(tail);
        if y != x {
          assert y in multiset(s[1..]);
          var k :| 0 <= k < |s[1..]| && s[1..][k] == y;
          assert s[k + 1] == y;
        }
      }
      SortedCons(s[0], tail, le);
    }
  }

  /** A sorted list stays sorted with a head that precedes all of it. */
  lemma SortedCons<T>(h: T, t: seq<T>, le: (T, T) -> bool)
    requires SortedBy(t, le) && forall y :: y in t ==> le(h, y)
    ensures SortedBy([h] + t, le)
  {
    var r := [h] + t;
    forall i, j | 0 <= i < j < |r| ensures le(r[i], r[j]) {
      assert r[j] == t[j - 1];
      if i > 0 {
        assert r[i] == t[i - 1];
      }
    }
  }

  /** The tail of a sorted list is sorted. */
  lemma SortedTail<T>(s: seq<T>, le: (T, T) -> bool)
    requires SortedBy(s, le) && s != []
    ensures SortedBy(s[1..], le)
  {
    forall i, j | 0 <= i < j < |s[1..]| ensures le(s[1..][i], s[1..][j]) {
      assert s[1..][i] == s[i + 1] && s[1..][j] == s[j + 1];
    }
  }

  lemma {:induction false} SortBySorted<T(!new)>(s: seq<T>, le: (T, T) -> bool)
    requires TotalPreorder(le)
    ensures SortedBy(SortBy(s, le), le)
  {
    if s != [] {
      SortBySorted(s[1..], le);
      InsertSorted(s[0], SortBy(s[1..], le), le);
    }
  }

  /** Sorting a list that is already sorted leaves it as it is. */
  lemma {:induction false} SortedFixpoint<T>(s: seq<T>, le: (T, T) -> bool)
    requires SortedBy(s, le)
    ensures SortBy(s, le) == s
  {
    if s != [] {
      SortedTail(s, le);
      SortedFixpoint(s[1..], le);
      if |s| > 1 {
        assert le(s[0], s[1]);
      }
      assert s == [s[0]] + s[1..];
    }
  }

  ghost predicate Antisymmetric<T(!new)>(le: (T, T) -> bool)
  {
    forall a, b :: le(a, b) && le(b, a) ==> a == b
  }

  /** Under an antisymmetric order a multiset has exactly one sorted arrangement. */
  lemma {:induction false} SortedUnique<T(!new)>(a: seq<T>, b: seq<T>, le: (T, T) -> bool)
    requires Antisymmetric(le) && SortedBy(a, le) && SortedBy(b, le) && multiset(a) == multiset(b)
    ensures a == b
    decreases |a|
  {
    assert |b| == |a| by { assert |multiset(a)| == |a| && |multiset(b)| == |b|; }
    if a != [] {
      SameHead(a, b, le);
      SameTailBag(a, b);
      SortedTail(a, le);
      SortedTail(b, le);
      SortedUnique(a[1..], b[1..], le);
      assert a == [a[0]] + a[1..] && b == [b[0]] + b[1..];
    }
  }

  /** Two sorted arrangements of one multiset start alike under an antisymmetric order. */
  lemma SameHead<T(!new)>(a: seq<T>, b: seq<T>, le: (T, T) -> bool)
    requires Antisymmetric(le) && SortedBy(a, le) && SortedBy(b, le) && multiset(a) == multiset(b)
    requires a != [] && b != []
    ensures a[0] == b[0]
  {
    assert a[0] in multiset(b) && b[0] in multiset(a);
    var i :| 0 <= i < |b| && b[i] == a[0];
    var j :| 0 <= j < |a| && a[j] == b[0];
    if i > 0 && j > 0 {
      assert le(b[0], b[i]) && le(a[0], a[j]);
    }
  }

  /** Lists with one multiset and one head have tails with one multiset. */
  lemma SameTailBag<T>(a: seq<T>, b: seq<T>)
    requires multiset(a) == multiset(b) && a != [] && b != [] && a[0] == b[0]
    ensures multiset(a[1..]) == multiset(b[1..])
  {
    assert a == [a[0]] + a[1..] && b == [b[0]] + b[1..];
    assert multiset(a) == multiset{a[0]} + multiset(a[1..]);
    assert multiset(b) == multiset{b[0]} + multiset(b[1..]);
    forall e ensures multiset(a[1..])[e] == multiset(b[1..])[e] {
      assert multiset(a)[e] == multiset(b)[e];
    }
  }

  /** Sorting a duplicate-free list keeps it duplicate-free. */
  lemma MultisetNoDup<T>(a: seq<T>, b: seq<T>)
    ensures multiset(a) == multiset(b) && NoDup(a) ==> NoDup(b)
  {
    forall i, j | 0 <= i < j < |b| && multiset(a) == multiset(b) && NoDup(a) ensures b[i] != b[j] {
      if b[i] == b[j] {
        var x := b[i];
        assert multiset(b)[x] >= 2 by {
          assert b == b[..i] + [x] + b[i + 1..j] + [x] + b[j + 1..];
        }
        MultisetAtMostOnce(a, x);
      }
    }
  }

  lemma {:induction false} MultisetAtMostOnce<T>(a: seq<T>, x: T)
    requires NoDup(a)
    ensures multiset(a)[x] <= 1
  {
    if a != [] {
      assert a == [a[0]] + a[1..];
      assert NoDup(a[1..]) by {
        forall i, j | 0 <= i < j < |a[1..]| ensures a[1..][i] != a[1..][j] {
          assert a[1..][i] == a[i + 1] && a[1..][j] == a[j + 1];
        }
      }
      MultisetAtMostOnce(a[1..], x);
      if a[0] == x {
        assert x !in a[1..] by {
          forall k | 0 <= k < |a[1..]| ensures a[1..][k] != x {
            assert a[1..][k] == a[k + 1];
          }
        }
      }
    }
  }

  // ---------------------------------------------------------------------------
  // Strings

  predicate StartsWith(s: string, prefix: string)
  {
    |prefix| <= |s| && s[..|prefix|] == prefix
  }

  predicate EndsWith(s: string, suffix: string)
  {
    |suffix| <= |s| && s[|s| - |suffix|..] == suffix
  }

  /** A concatenation starts with its first part and ends with its second. */
  lemma ConcatAffixes(a: string, b: string)
    ensures StartsWith(a + b, a) && EndsWith(a + b, b)
  {
    assert (a + b)[..|a|] == a;
    assert (a + b)[|a + b| - |b|..] == b;
  }

  /** `str::contains` on a substring. */
  predicate Contains(s: string, sub: string)
  {
    StartsWith(s, sub) || (s != [] && Contains(s[1..], sub))
  }

  /** Lower-casing restricted to ASCII letters. */
  function ToLower(s: string): (r: string)
    ensures |r| == |s|
    ensures forall i :: 0 <= i < |s| ==> r[i] == LowerChar(s[i])
  {
    if s == [] then [] else [LowerChar(s[0])] + ToLower(s[1..])
  }

  function LowerChar(c: char): char
  {
    if 'A' <= c <= 'Z' then (c as int + 32) as char else c
  }

  /** Lexicographic order on strings, by code point: Rust's `String` ordering and the SQL `TEXT` ordering. */
  predicate StrLe(a: string, b: string)
    decreases |a|
  {
    a == [] || (b != [] && (a[0] < b[0] || (a[0] == b[0] && StrLe(a[1..], b[1..]))))
  }

  lemma {:induction false} StrLeTotal(a: string, b: string)
    ensures StrLe(a, b) || StrLe(b, a)
    decreases |a|
  {
    if a != [] && b != [] && a[0] == b[0] {
      StrLeTotal(a[1..], b[1..]);
    }
  }

  lemma {:induction false} StrLeTrans(a: string, b: string, c: string)
    requires StrLe(a, b) && StrLe(b, c)
    ensures StrLe(a, c)
    decreases |a|
  {
    if a != [] && b != [] && c != [] && a[0] == b[0] && b[0] == c[0] {
      StrLeTrans(a[1..], b[1..], c[1..]);
    }
  }

  lemma StrLeTotalPreorder()
    ensures TotalPreorder((a: string, b: string) => StrLe(a, b))
  {
    forall a: string, b: string ensures StrLe(a, b) || StrLe(b, a) {
      StrLeTotal(a, b);
    }
    forall a: string, b: string, c: string | StrLe(a, b) && StrLe(b, c) ensures StrLe(a, c) {
      StrLeTrans(a, b, c);
    }
  }

  // ---------------------------------------------------------------------------
  // The values of a map, as a multiset

  /** Removing one more key from a map is removing the keys together. */
  lemma RemoveMore<K, V>(m: map<K, V>, done: set<K>, k: K)
    ensures (m - done) - {k} == m - (done + {k})
  {
  }

  /** The values stored under the keys `ks` of `m`, with multiplicity. */
  ghost function Bag<K, V>(m: map<K, V>, ks: set<K>): multiset<V>
    requires ks <= m.Keys
    decreases ks
  {
    if ks == {} then multiset{} else
      var k :| k in ks;
      multiset{m[k]} + Bag(m, ks - {k})
  }

  ghost function ValueBag<K, V>(m: map<K, V>): multiset<V>
  {
    Bag(m, m.Keys)
  }

  /** The bag does not depend on which key is taken out first. */
  lemma {:induction false} BagRemove<K, V>(m: map<K, V>, ks: set<K>, k: K)
    requires ks <= m.Keys && k in ks
    ensures Bag(m, ks) == multiset{m[k]} + Bag(m, ks - {k})
    decreases ks
  {
    var j :| j in ks && Bag(m, ks) == multiset{m[j]} + Bag(m, ks - {j});
    if j != k {
      BagRemove(m, ks - {j}, k);
      BagRemove(m, ks - {k}, j);
      assert ks - {j} - {k} == ks - {k} - {j};
    }
  }

  lemma ValueBagMember<K, V>(m: map<K, V>, v: V)
    requires v in ValueBag(m)
    ensures exists k :: k in m && m[k] == v
  {
    BagMember(m, m.Keys, v);
  }

  lemma {:induction false} BagMember<K, V>(m: map<K, V>, ks: set<K>, v: V)
    requires ks <= m.Keys && v in Bag(m, ks)
    ensures exists k :: k in ks && m[k] == v
    decreases ks
  {
    var k :| k in ks && Bag(m, ks) == multiset{m[k]} + Bag(m, ks - {k});
    if m[k] != v {
      BagMember(m, ks - {k}, v);
    }
  }

  /** Two maps that agree on `ks` hold the same values there. */
  lemma {:induction false} BagAgree<K, V>(m1: map<K, V>, m2: map<K, V>, ks: set<K>)
    requires ks <= m1.Keys && ks <= m2.Keys
    requires forall k :: k in ks ==> m1[k] == m2[k]
    ensures Bag(m1, ks) == Bag(m2, ks)
    decreases ks
  {
    if ks != {} {
      var j :| j in ks && Bag(m1, ks) == multiset{m1[j]} + Bag(m1, ks - {j});
      BagRemove(m2, ks, j);
      BagAgree(m1, m2, ks - {j});
    }
  }

  /** Storing `v` under `k` adds `v` and drops what `k` held. */
  lemma ValueBagPut<K, V>(m: map<K, V>, k: K, v: V)
    ensures ValueBag(m[k := v]) == (if k in m then ValueBag(m) - multiset{m[k]} else ValueBag(m)) + multiset{v}
  {
    var m' := m[k := v];
    BagRemove(m', m'.Keys, k);
    assert m'.Keys - {k} == m.Keys - {k};
    BagAgree(m', m, m.Keys - {k});
    if k in m {
      BagRemove(m, m.Keys, k);
    } else {
      assert m.Keys - {k} == m.Keys;
    }
  }

  /** Removing `k` drops what it held. */
  lemma ValueBagRemove<K, V>(m: map<K, V>, k: K)
    ensures ValueBag(m - {k}) == if k in m then ValueBag(m) - multiset{m[k]} else ValueBag(m)
  {
    var m' := m - {k};
    assert m'.Keys == m.Keys - {k};
    BagAgree(m', m, m'.Keys);
    if k in m {
      BagRemove(m, m.Keys, k);
    } else {
      assert m'.Keys == m.Keys;
    }
  }

  /** A listing of a map, as `values().collect()` then `sort_by(le)` make it: its values, each
      once per key, sorted by `le`. */
  ghost predicate Listing<K, V>(s: seq<V>, items: map<K, V>, le: (V, V) -> bool)
  {
    multiset(s) == ValueBag(items) && SortedBy(s, le)
  }

  /** `keyOf` tells the elements apart. */
  predicate KeysDistinct<K(==), V>(initial: seq<V>, keyOf: V -> K)
  {
    forall i, j :: 0 <= i < j < |initial| ==> keyOf(initial[i]) != keyOf(initial[j])
  }

  /** Every value is stored under its own key. */
  ghost predicate StoredUnderKey<K, V>(items: map<K, V>, keyOf: V -> K)
  {
    forall k :: k in items ==> keyOf(items[k]) == k
  }

  lemma ValueBagHas<K, V>(m: map<K, V>, k: K)
    requires k in m
    ensures m[k] in ValueBag(m)
  {
    BagRemove(m, m.Keys, k);
  }

  lemma BagMemberIf<K, V>(m: map<K, V>, ks: set<K>, v: V)
    requires ks <= m.Keys
    ensures v in Bag(m, ks) ==> exists k :: k in ks && m[k] == v
  {
    if v in Bag(m, ks) {
      BagMember(m, ks, v);
    }
  }

  /** Values stored under their own keys are told apart by them, so each occurs once. */
  lemma ValueBagOnce<K, V>(m: map<K, V>, keyOf: V -> K, k: K)
    requires StoredUnderKey(m, keyOf) && k in m
    ensures ValueBag(m)[m[k]] == 1
  {
    BagRemove(m, m.Keys, k);
    BagMemberIf(m, m.Keys - {k}, m[k]);
  }

  lemma TwoCopies<T>(s: seq<T>, i: nat, j: nat)
    requires i < j < |s|
    ensures s[i] == s[j] ==> multiset(s)[s[i]] >= 2
  {
    assert s == s[..j] + s[j..];
    assert s[..j][i] == s[i];
    assert s[j..][0] == s[j];
    assert s[i] in multiset(s[..j]);
    assert s[j] in multiset(s[j..]);
  }

  /** A list holding the values of a map stored under their own keys has one element per key,
      each the map's value there. */
  lemma KeyedBagKeys<K, V>(s: seq<V>, m: map<K, V>, keyOf: V -> K)
    requires multiset(s) == ValueBag(m) && StoredUnderKey(m, keyOf)
    ensures forall i :: 0 <= i < |s| ==> keyOf(s[i]) in m && m[keyOf(s[i])] == s[i]
    ensures (set i | 0 <= i < |s| :: keyOf(s[i])) == m.Keys
    ensures KeysDistinct(s, keyOf)
  {
    forall i | 0 <= i < |s| ensures keyOf(s[i]) in m && m[keyOf(s[i])] == s[i] {
      assert s[i] in multiset(s);
      ValueBagMember(m, s[i]);
    }
    forall k | k in m ensures k in (set i | 0 <= i < |s| :: keyOf(s[i])) {
      ValueBagHas(m, k);
      assert m[k] in multiset(s);
      var i :| 0 <= i < |s| && s[i] == m[k];
    }
    forall i, j | 0 <= i < j < |s| ensures keyOf(s[i]) != keyOf(s[j]) {
      TwoCopies(s, i, j);
      ValueBagOnce(m, keyOf, keyOf(s[i]));
    }
  }

  /** Iterating `m.values()`: each value once per key, in an unspecified order. */
  method CollectValues<K, V>(m: map<K, V>) returns (r: seq<V>)
    ensures multiset(r) == ValueBag(m)
    ensures |r| == |m.Keys|
  {
    r := [];
    var rest := m.Keys;
    while rest != {}
      invariant rest <= m.Keys
      invariant multiset(r) + Bag(m, rest) == ValueBag(m)
      invariant |r| + |rest| == |m.Keys|
      decreases rest
    {
      var k :| k in rest;
      BagRemove(m, rest, k);
      r := r + [m[k]];
      rest := rest - {k};
    }
  }
}
