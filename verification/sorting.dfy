/**
 * Python's `sorted(xs, key=...)` for integer-pair keys compared as tuples:
 * a stable sort, modelled as insertion sort and proved ordered, a
 * permutation, stable, and equal to every other stable sort of the input.
 */
module StableSort {

  /** `a <= b` for Python tuples of two integers. */
  predicate KeyLe(a: (int, int), b: (int, int)) {
    a.0 < b.0 || (a.0 == b.0 && a.1 <= b.1)
  }

  predicate SortedBy<T>(s: seq<T>, key: T -> (int, int)) {
    forall i, j :: 0 <= i < j < |s| ==> KeyLe(key(s[i]), key(s[j]))
  }

  /** The elements of `s` whose key is `k`, in their order in `s`. A sort is
      stable when this subsequence is the same before and after, for every `k`. */
  function WithKey<T>(s: seq<T>, key: T -> (int, int), k: (int, int)): seq<T> {
    if s == [] then [] else (if key(s[0]) == k then [s[0]] else []) + WithKey(s[1..], key, k)
  }

  lemma {:induction false} WithKeyMember<T>(s: seq<T>, key: T -> (int, int), k: (int, int), x: T)
    requires x in WithKey(s, key, k)
    ensures x in s && key(x) == k
  {
    if !(key(s[0]) == k && x == s[0]) {
      WithKeyMember(s[1..], key, k, x);
    }
  }

  /** Places `x` before the first element whose key is not smaller. */
  function Insert<T>(x: T, s: seq<T>, key: T -> (int, int)): seq<T> {
    if s == [] || KeyLe(key(x), key(s[0])) then [x] + s else [s[0]] + Insert(x, s[1..], key)
  }

  lemma {:induction false} InsertPermutes<T>(x: T, s: seq<T>, key: T -> (int, int))
    ensures multiset(Insert(x, s, key)) == multiset(s) + multiset{x}
  {
    if s != [] && !KeyLe(key(x), key(s[0])) {
      InsertPermutes(x, s[1..], key);
      assert s == [s[0]] + s[1..];
    }
  }

  lemma {:induction false} InsertSorted<T>(x: T, s: seq<T>, key: T -> (int, int))
    requires SortedBy(s, key)
    ensures SortedBy(Insert(x, s, key), key)
  {
    if s != [] && !KeyLe(key(x), key(s[0])) {
      var t := Insert(x, s[1..], key);
      InsertSorted(x, s[1..], key);
      InsertPermutes(x, s[1..], key);
      forall j | 0 <= j < |t| ensures KeyLe(key(s[0]), key(t[j])) {
        assert t[j] in multiset(t);
        if t[j] != x {
          assert t[j] in multiset(s[1..]);
          var m :| 0 <= m < |s[1..]| && s[1..][m] == t[j];
          assert s[m + 1] == t[j];
        }
      }
    }
  }

  lemma {:induction false} InsertStable<T>(x: T, s: seq<T>, key: T -> (int, int), k: (int, int))
    ensures WithKey(Insert(x, s, key), key, k) == (if key(x) == k then [x] else []) + WithKey(s, key, k)
  {
    if s == [] || KeyLe(key(x), key(s[0])) {
      assert ([x] + s)[1..] == s;
    } else {
      InsertStable(x, s[1..], key, k);
      assert ([s[0]] + Insert(x, s[1..], key))[1..] == Insert(x, s[1..], key);
    }
  }

  /** `sorted(s, key=key)`: ascending by key, a permutation of `s`, and
      stable (equal keys keep their relative order). */
  function SortBy<T>(s: seq<T>, key: T -> (int, int)): (r: seq<T>)
    ensures |r| == |s|
    ensures SortedBy(r, key)
    ensures multiset(r) == multiset(s)
    ensures forall k :: WithKey(r, key, k) == WithKey(s, key, k)
  {
    if s == [] then []
    else
      var t := SortBy(s[1..], key);
      InsertSorted(s[0], t, key);
      InsertPermutes(s[0], t, key);
      assert s == [s[0]] + s[1..];
      assert |multiset(Insert(s[0], t, key))| == |multiset(s)|;
      forall k ensures WithKey(Insert(s[0], t, key), key, k) == WithKey(s, key, k) {
        InsertStable(s[0], t, key, k);
      }
      Insert(s[0], t, key)
  }

  /** A sorted, stable arrangement of a sequence is unique: whatever
      algorithm Python's `sorted` runs, its result is `SortBy`'s. */
  lemma {:induction false} StableSortUnique<T>(a: seq<T>, b: seq<T>, key: T -> (int, int))
    requires SortedBy(a, key) && SortedBy(b, key)
    requires forall k :: WithKey(a, key, k) == WithKey(b, key, k)
    ensures a == b
  {
    if a != [] && b != [] {
      var ka, kb := key(a[0]), key(b[0]);
      assert a[0] in WithKey(a, key, ka);
      WithKeyMember(b, key, ka, a[0]);
      var j :| 0 <= j < |b| && b[j] == a[0];
      assert KeyLe(kb, ka);
      assert b[0] in WithKey(b, key, kb);
      WithKeyMember(a, key, kb, b[0]);
      var i :| 0 <= i < |a| && a[i] == b[0];
      assert KeyLe(ka, kb);
      assert ka == kb;
      assert WithKey(a, key, ka) == [a[0]] + WithKey(a[1..], key, ka);
      assert WithKey(b, key, ka) == [b[0]] + WithKey(b[1..], key, ka);
      assert WithKey(a, key, ka)[0] == a[0];
      assert WithKey(b, key, ka)[0] == b[0];
      forall k ensures WithKey(a[1..], key, k) == WithKey(b[1..], key, k) {
        if k == ka {
          assert WithKey(a[1..], key, k) == WithKey(a, key, k)[1..];
          assert WithKey(b[1..], key, k) == WithKey(b, key, k)[1..];
        } else {
          assert WithKey(a[1..], key, k) == WithKey(a, key, k);
          assert WithKey(b[1..], key, k) == WithKey(b, key, k);
        }
      }
      StableSortUnique(a[1..], b[1..], key);
      assert a == [a[0]] + a[1..] && b == [b[0]] + b[1..];
    } else if a != [] {
      assert WithKey(b, key, key(a[0])) == [];
      assert false;
    } else if b != [] {
      assert WithKey(a, key, key(b[0])) == [];
      assert false;
    }
  }

  /** The last element of a sorted sequence has the greatest key. */
  lemma SortedLast<T>(s: seq<T>, key: T -> (int, int), x: T)
    requires SortedBy(s, key) && x in s
    ensures KeyLe(key(x), key(s[|s| - 1]))
  {
    var i :| 0 <= i < |s| && s[i] == x;
    if i < |s| - 1 {
      assert KeyLe(key(s[i]), key(s[|s| - 1]));
    }
  }

  /** Any sorted arrangement of `s` that keeps equal keys in their input
      order is `SortBy(s, key)`. */
  lemma SortByIsTheStableSort<T>(s: seq<T>, r: seq<T>, key: T -> (int, int))
    requires SortedBy(r, key)
    requires forall k :: WithKey(r, key, k) == WithKey(s, key, k)
    ensures r == SortBy(s, key)
  {
    StableSortUnique(r, SortBy(s, key), key);
  }
}
