/**
 * A map built from a list by setting each element under its key in list order, as
 * `Map.set` in a loop or `new Map(pairs)` does: for a repeated key the last element wins.
 */
module Indexing {

  /** The keys of the elements of `s`. */
  function Keys<K(==), V(==)>(s: seq<V>, key: V -> K): set<K> {
    set v | v in s :: key(v)
  }

  /** A key is a key of `s` exactly when some position of `s` holds an element with it. */
  lemma KeyAtSomePosition<K, V>(s: seq<V>, key: V -> K, k: K)
    ensures k in Keys(s, key) <==> exists i :: 0 <= i < |s| && key(s[i]) == k
  {
    if k in Keys(s, key) {
      var v :| v in s && key(v) == k;
      var i :| 0 <= i < |s| && s[i] == v;
    }
    if exists i :: 0 <= i < |s| && key(s[i]) == k {
      var i :| 0 <= i < |s| && key(s[i]) == k;
      assert s[i] in s;
    }
  }

  /** The key-indexed map of `s`, the last element with each key winning. */
  function IndexBy<K(==), V(==)>(s: seq<V>, key: V -> K): (m: map<K, V>)
    ensures m.Keys == Keys(s, key)
    ensures forall k :: k in m ==> key(m[k]) == k && m[k] in s
    decreases |s|
  {
    if s == [] then map[]
    else
      var init := s[..|s| - 1];
      var last := s[|s| - 1];
      assert s == init + [last];
      IndexBy(init, key)[key(last) := last]
  }

  /** An element that no later element shares its key with is the one the map holds. */
  lemma {:induction false} IndexByLastWins<K, V>(s: seq<V>, key: V -> K, i: nat)
    requires i < |s|
    requires forall j :: i < j < |s| ==> key(s[j]) != key(s[i])
    ensures IndexBy(s, key)[key(s[i])] == s[i]
    decreases |s|
  {
    if i < |s| - 1 {
      var init := s[..|s| - 1];
      assert init[i] == s[i];
      IndexByLastWins(init, key, i);
    }
  }

  /** Indexing a concatenation: the elements of the second part override those of the first. */
  lemma {:induction false} IndexByAppend<K, V>(a: seq<V>, b: seq<V>, key: V -> K)
    ensures IndexBy(a + b, key) == IndexBy(a, key) + IndexBy(b, key)
    decreases |b|
  {
    if b == [] {
      assert a + b == a;
    } else {
      var init := b[..|b| - 1];
      var last := b[|b| - 1];
      assert (a + b)[..|a + b| - 1] == a + init;
      assert (a + b)[|a + b| - 1] == last;
      IndexByAppend(a, init, key);
      var left := IndexBy(a, key);
      var right := IndexBy(init, key);
      calc {
        IndexBy(a + b, key);
        IndexBy(a + init, key)[key(last) := last];
        (left + right)[key(last) := last];
        { UpdateOfUnion(left, right, key(last), last); }
        left + right[key(last) := last];
        left + IndexBy(b, key);
      }
    }
  }

  /** Indexing one more element of a list updates the index of the shorter prefix. */
  lemma IndexByStep<K, V>(s: seq<V>, key: V -> K, i: nat)
    requires i < |s|
    ensures IndexBy(s[..i + 1], key) == IndexBy(s[..i], key)[key(s[i]) := s[i]]
  {
    assert s[..i + 1][..i] == s[..i];
  }

  /** Updating a right-biased union is updating its right operand. */
  lemma UpdateOfUnion<K, V>(left: map<K, V>, right: map<K, V>, k: K, v: V)
    ensures (left + right)[k := v] == left + right[k := v]
  {
  }
}
