/** Splitting a list into groups by a key, and going through the groups of a Go map in the unspecified
    order that Go gives them. */
module Grouping {

  /** The elements whose key is one of the given keys, in their original order. */
  function OfKeys<T, K(==)>(s: seq<T>, key: T -> K, keys: set<K>): seq<T> {
    if s == [] then []
    else OfKeys(s[..|s| - 1], key, keys) + if key(s[|s| - 1]) in keys then [s[|s| - 1]] else []
  }

  lemma {:induction false} OfKeysSplit<T, K>(s: seq<T>, key: T -> K, keys: set<K>, k: K)
    requires k !in keys
    ensures multiset(OfKeys(s, key, keys + {k})) == multiset(OfKeys(s, key, keys)) + multiset(OfKeys(s, key, {k}))
  {
    if s != [] {
      OfKeysSplit(s[..|s| - 1], key, keys, k);
    }
  }

  lemma {:induction false} OfKeysAll<T, K>(s: seq<T>, key: T -> K, keys: set<K>)
    requires forall i :: 0 <= i < |s| ==> key(s[i]) in keys
    ensures OfKeys(s, key, keys) == s
  {
    if s != [] {
      OfKeysAll(s[..|s| - 1], key, keys);
    }
  }

  lemma {:induction false} OfKeysNone<T, K>(s: seq<T>, key: T -> K)
    ensures OfKeys(s, key, {}) == []
  {
    if s != [] {
      OfKeysNone(s[..|s| - 1], key);
    }
  }

  lemma {:induction false} OfKeysFrom<T, K>(s: seq<T>, key: T -> K, keys: set<K>)
    ensures forall t :: t in OfKeys(s, key, keys) ==> t in s && key(t) in keys
    ensures multiset(OfKeys(s, key, keys)) <= multiset(s)
  {
    if s != [] {
      OfKeysFrom(s[..|s| - 1], key, keys);
      assert s == s[..|s| - 1] + [s[|s| - 1]];
    }
  }

  lemma {:induction false} OfKeysHas<T, K>(s: seq<T>, key: T -> K, keys: set<K>)
    ensures forall t :: t in OfKeys(s, key, keys) <==> t in s && key(t) in keys
  {
    if s != [] {
      OfKeysHas(s[..|s| - 1], key, keys);
      assert s == s[..|s| - 1] + [s[|s| - 1]];
    }
  }

  lemma {:induction false} OfKeysConcat<T, K>(a: seq<T>, b: seq<T>, key: T -> K, keys: set<K>)
    ensures OfKeys(a + b, key, keys) == OfKeys(a, key, keys) + OfKeys(b, key, keys)
    decreases |b|
  {
    if b == [] {
      assert a + b == a;
    } else {
      var front := b[..|b| - 1];
      assert (a + b)[..|a + b| - 1] == a + front;
      OfKeysConcat(a, front, key, keys);
    }
  }

  lemma {:induction false} OfKeysMisses<T, K>(s: seq<T>, key: T -> K, keys: set<K>)
    requires forall i :: 0 <= i < |s| ==> key(s[i]) !in keys
    ensures OfKeys(s, key, keys) == []
  {
    if s != [] { OfKeysMisses(s[..|s| - 1], key, keys); }
  }

  function OfKey<T, K(==)>(s: seq<T>, key: T -> K, k: K): seq<T> { OfKeys(s, key, {k}) }

  lemma OfKeysStep<T, K>(s: seq<T>, key: T -> K, i: nat, k: K)
    requires i < |s|
    ensures OfKey(s[..i + 1], key, k) == OfKey(s[..i], key, k) + if key(s[i]) == k then [s[i]] else []
  {
    assert s[..i + 1][..i] == s[..i] && s[..i + 1][i] == s[i];
    assert key(s[i]) in {k} <==> key(s[i]) == k;
  }

  ghost predicate Grouped<T, K(!new)>(groups: map<K, seq<T>>, s: seq<T>, key: T -> K) {
    forall k :: GroupedAt(groups, s, key, k)
  }

  predicate GroupedAt<T(==), K(==)>(groups: map<K, seq<T>>, s: seq<T>, key: T -> K, k: K) {
    && OfKey(s, key, k) == (if k in groups then groups[k] else [])
    && (k in groups ==> groups[k] != [])
  }

  lemma GroupedStep<T, K(!new)>(groups: map<K, seq<T>>, s: seq<T>, key: T -> K, i: nat)
    requires i < |s| && Grouped(groups, s[..i], key)
    ensures var k := key(s[i]);
            Grouped(groups[k := (if k in groups then groups[k] else []) + [s[i]]], s[..i + 1], key)
  {
    var k := key(s[i]);
    var groups' := groups[k := (if k in groups then groups[k] else []) + [s[i]]];
    var s' := s[..i + 1];
    forall j: K
      ensures GroupedAt(groups', s', key, j)
    {
      assert GroupedAt(groups, s[..i], key, j);
      OfKeysStep(s, key, i, j);
    }
  }

  method GroupBy<T(==), K(==,!new)>(s: seq<T>, key: T -> K) returns (groups: map<K, seq<T>>)
    ensures forall i :: 0 <= i < |s| ==> key(s[i]) in groups
    ensures forall k :: k in groups ==> groups[k] != [] && groups[k] == OfKeys(s, key, {k})
  {
    groups := map[];
    for i := 0 to |s|
      invariant forall j :: 0 <= j < i ==> key(s[j]) in groups
      invariant Grouped(groups, s[..i], key)
    {
      var k := key(s[i]);
      GroupedStep(groups, s, key, i);
      groups := groups[k := (if k in groups then groups[k] else []) + [s[i]]];
    }
    assert s[..|s|] == s;
    forall k | k in groups
      ensures groups[k] != [] && groups[k] == OfKeys(s, key, {k})
    {
      assert GroupedAt(groups, s, key, k);
    }
  }
}
