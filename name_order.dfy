/**
 * Ordering food lists by name, as `list.sort((a, b) => a.name.localeCompare(b.name))`
 * does, with the comparison taken as plain character-by-character order.
 */
module NameOrder {

  /** `a` sorts no later than `b`: lexicographic order on characters, a prefix first. */
  predicate NameLe(a: string, b: string)
    decreases |a|
  {
    if a == [] then true
    else if b == [] then false
    else if a[0] != b[0] then a[0] < b[0]
    else NameLe(a[1..], b[1..])
  }

  /** Any two names are comparable one way or the other. */
  lemma {:induction false} NameLeTotal(a: string, b: string)
    ensures NameLe(a, b) || NameLe(b, a)
    decreases |a|
  {
    if a != [] && b != [] && a[0] == b[0] {
      NameLeTotal(a[1..], b[1..]);
    }
  }

  /** The order is transitive. */
  lemma {:induction false} NameLeTransitive(a: string, b: string, c: string)
    requires NameLe(a, b) && NameLe(b, c)
    ensures NameLe(a, c)
    decreases |a|
  {
    if a != [] && b != [] && c != [] && a[0] == b[0] && b[0] == c[0] {
      NameLeTransitive(a[1..], b[1..], c[1..]);
    }
  }

  /** The elements of `s` appear in ascending order of their names. */
  predicate SortedBy<T>(s: seq<T>, name: T -> string) {
    forall i, j :: 0 <= i < j < |s| ==> NameLe(name(s[i]), name(s[j]))
  }

  /** Putting `h` in front of a sorted list whose names are all at least its own keeps it sorted. */
  lemma ConsSorted<T>(h: T, t: seq<T>, name: T -> string)
    requires SortedBy(t, name)
    requires forall k :: 0 <= k < |t| ==> NameLe(name(h), name(t[k]))
    ensures SortedBy([h] + t, name)
  {
    var s := [h] + t;
    forall i, j | 0 <= i < j < |s| ensures NameLe(name(s[i]), name(s[j])) {
      if i > 0 {
        assert s[i] == t[i - 1] && s[j] == t[j - 1];
      } else {
        assert s[j] == t[j - 1];
      }
    }
  }

  /**
   * Inserting `x` into a sorted list in front of the first element whose name is not
   * smaller: the result holds the same elements plus `x`, and is sorted.
   */
  function Insert<T(==)>(x: T, s: seq<T>, name: T -> string): (r: seq<T>)
    requires SortedBy(s, name)
    ensures multiset(r) == multiset([x] + s)
    ensures SortedBy(r, name)
    decreases |s|
  {
    if s == [] then [x]
    else if NameLe(name(x), name(s[0])) then
      BelowHead(x, s, name);
      ConsSorted(x, s, name);
      [x] + s
    else
      NameLeTotal(name(x), name(s[0]));
      var tail := s[1..];
      assert s == [s[0]] + tail;
      TailOfSorted(s, name);
      var rest := Insert(x, tail, name);
      BelowRearranged(s[0], x, tail, rest, name);
      ConsSorted(s[0], rest, name);
      [s[0]] + rest
  }

  /** A name no greater than the first of a sorted list is no greater than any of it. */
  lemma BelowHead<T>(x: T, s: seq<T>, name: T -> string)
    requires SortedBy(s, name) && s != [] && NameLe(name(x), name(s[0]))
    ensures forall k :: 0 <= k < |s| ==> NameLe(name(x), name(s[k]))
  {
    forall k | 0 <= k < |s| ensures NameLe(name(x), name(s[k])) {
      if k > 0 { NameLeTransitive(name(x), name(s[0]), name(s[k])); }
    }
  }

  /** The rest of a sorted list is sorted, and its names are all at least the first one's. */
  lemma TailOfSorted<T>(s: seq<T>, name: T -> string)
    requires SortedBy(s, name) && s != []
    ensures SortedBy(s[1..], name)
    ensures forall k :: 0 <= k < |s[1..]| ==> NameLe(name(s[0]), name(s[1..][k]))
  {
    var t := s[1..];
    forall k | 0 <= k < |t| ensures NameLe(name(s[0]), name(t[k])) {
      assert t[k] == s[k + 1];
    }
    forall i, j | 0 <= i < j < |t| ensures NameLe(name(t[i]), name(t[j])) {
      assert t[i] == s[i + 1] && t[j] == s[j + 1];
    }
  }

  /** A bound on every element of `t` and on `x` bounds every element of a rearrangement of `[x] + t`. */
  lemma BelowRearranged<T>(h: T, x: T, t: seq<T>, r: seq<T>, name: T -> string)
    requires NameLe(name(h), name(x))
    requires forall k :: 0 <= k < |t| ==> NameLe(name(h), name(t[k]))
    requires multiset(r) == multiset([x] + t)
    ensures forall k :: 0 <= k < |r| ==> NameLe(name(h), name(r[k]))
  {
    forall k | 0 <= k < |r| ensures NameLe(name(h), name(r[k])) {
      assert r[k] in multiset(r);
      if r[k] != x {
        assert r[k] in multiset(t);
        var j :| 0 <= j < |t| && t[j] == r[k];
      }
    }
  }

  /** Insertion sort by name: a rearrangement of `s` in ascending order of names. */
  function SortByName<T(==)>(s: seq<T>, name: T -> string): (r: seq<T>)
    ensures multiset(r) == multiset(s)
    ensures SortedBy(r, name)
    decreases |s|
  {
    if s == [] then []
    else
      assert s == [s[0]] + s[1..];
      Insert(s[0], SortByName(s[1..], name), name)
  }
}
