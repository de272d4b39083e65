/**
 * Generic sequence building blocks of the query layer: the filter-and-read
 * loop (`for x in s: v = f(x); if v is not None: out.append(v)`), the Python
 * set filled in a loop, and sequences without repetitions.
 */
module Seqs {
  import opened Optional

  function OptionSeq<U>(o: Option<U>): seq<U> {
    if o.Some? then [o.value] else []
  }

  /** The values `f` reads from the elements of `s`, in order, skipping the
      elements it cannot read. */
  function FilterMap<T, U>(s: seq<T>, f: T -> Option<U>): seq<U> {
    if s == [] then [] else FilterMap(s[..|s| - 1], f) + OptionSeq(f(s[|s| - 1]))
  }

  /** One more loop iteration appends what `f` reads from the next element. */
  lemma FilterMapSnoc<T, U>(s: seq<T>, x: T, f: T -> Option<U>)
    ensures FilterMap(s + [x], f) == FilterMap(s, f) + OptionSeq(f(x))
  {
    assert (s + [x])[..|s|] == s;
  }

  /** A value is read from `s` exactly when some element of `s` reads as it. */
  lemma {:induction false} FilterMapMembers<T, U>(s: seq<T>, f: T -> Option<U>, u: U)
    ensures u in FilterMap(s, f) <==> exists x :: x in s && f(x) == Some(u)
  {
    if s != [] {
      var init, last := s[..|s| - 1], s[|s| - 1];
      assert s == init + [last];
      FilterMapMembers(init, f, u);
      if exists x :: x in s && f(x) == Some(u) {
        var x :| x in s && f(x) == Some(u);
        if x != last {
          assert x in init;
        }
      }
    }
  }

  /** The comprehension `[x for x in s if p(x)]`. */
  function Keep<T>(s: seq<T>, p: T -> bool): (r: seq<T>)
    ensures |r| <= |s|
  {
    if s == [] then [] else (if p(s[0]) then [s[0]] else []) + Keep(s[1..], p)
  }

  /** The comprehension keeps the order of its input: filtering a
      concatenation filters each part. */
  lemma {:induction false} KeepAppend<T>(a: seq<T>, b: seq<T>, p: T -> bool)
    ensures Keep(a + b, p) == Keep(a, p) + Keep(b, p)
  {
    if a == [] {
      assert a + b == b;
    } else {
      var h := if p(a[0]) then [a[0]] else [];
      assert (a + b)[0] == a[0];
      assert (a + b)[1..] == a[1..] + b;
      assert Keep(a + b, p) == h + Keep(a[1..] + b, p);
      KeepAppend(a[1..], b, p);
      assert Keep(a, p) == h + Keep(a[1..], p);
    }
  }

  /** The comprehension keeps exactly the elements that pass. */
  lemma {:induction false} KeepMembers<T>(s: seq<T>, p: T -> bool, x: T)
    ensures x in Keep(s, p) <==> x in s && p(x)
  {
    if s != [] {
      KeepMembers(s[1..], p, x);
      assert s == [s[0]] + s[1..];
    }
  }

  /** When every element passes, the comprehension rebuilds its input. */
  lemma {:induction false} KeepAll<T>(s: seq<T>, p: T -> bool)
    requires forall x :: x in s ==> p(x)
    ensures Keep(s, p) == s
  {
    if s != [] {
      KeepAll(s[1..], p);
      assert s == [s[0]] + s[1..];
    }
  }

  /** The comprehension `[f(x) for x in s]`. */
  function Each<T, U>(s: seq<T>, f: T -> U): (r: seq<U>)
    ensures |r| == |s|
    ensures forall i :: 0 <= i < |s| ==> r[i] == f(s[i])
  {
    seq(|s|, i requires 0 <= i < |s| => f(s[i]))
  }

  /** Mapping a slice is slicing the mapped sequence. */
  lemma EachSlice<T, U>(s: seq<T>, f: T -> U, lo: int, hi: int)
    requires 0 <= lo <= hi <= |s|
    ensures Each(s[lo..hi], f) == Each(s, f)[lo..hi]
  {
    var a, b := Each(s[lo..hi], f), Each(s, f)[lo..hi];
    forall i | 0 <= i < hi - lo ensures a[i] == b[i] {
      assert s[lo..hi][i] == s[lo + i];
    }
  }

  predicate Distinct<T(==)>(s: seq<T>) {
    forall i, j :: 0 <= i < j < |s| ==> s[i] != s[j]
  }

  /** A Python set filled from `s` with `add`, listed in the order its
      elements were first added. */
  function Dedup<T(==,!new)>(s: seq<T>): (r: seq<T>)
    ensures Distinct(r)
    ensures forall x :: x in r <==> x in s
  {
    if s == [] then []
    else
      var acc := Dedup(s[..|s| - 1]);
      var last := s[|s| - 1];
      assert s == s[..|s| - 1] + [last];
      if last in acc then acc else acc + [last]
  }

  lemma DedupSnoc<T(!new)>(s: seq<T>, x: T)
    ensures Dedup(s + [x]) == if x in Dedup(s) then Dedup(s) else Dedup(s) + [x]
  {
    assert (s + [x])[..|s|] == s;
  }

  /** One iteration of "read the next element; add what was read to the
      set" on the set of values read so far. */
  lemma DedupFilterMapSnoc<T, U(!new)>(s: seq<T>, x: T, f: T -> Option<U>)
    ensures Dedup(FilterMap(s + [x], f)) ==
      if f(x).None? || f(x).value in Dedup(FilterMap(s, f)) then Dedup(FilterMap(s, f))
      else Dedup(FilterMap(s, f)) + [f(x).value]
  {
    FilterMapSnoc(s, x, f);
    var ps := FilterMap(s, f);
    if f(x).Some? {
      DedupSnoc(ps, f(x).value);
    } else {
      assert FilterMap(s + [x], f) == ps + [];
      assert ps + [] == ps;
    }
  }

  /** The same iteration, with the loop's index into `s`. */
  lemma DedupFilterMapStep<T, U(!new)>(s: seq<T>, j: nat, f: T -> Option<U>)
    requires j < |s|
    ensures Dedup(FilterMap(s[..j + 1], f)) ==
      if f(s[j]).None? || f(s[j]).value in Dedup(FilterMap(s[..j], f)) then Dedup(FilterMap(s[..j], f))
      else Dedup(FilterMap(s[..j], f)) + [f(s[j]).value]
  {
    assert s[..j + 1] == s[..j] + [s[j]];
    DedupFilterMapSnoc(s[..j], s[j], f);
  }

  lemma {:induction false} DistinctCount<T>(s: seq<T>, x: T)
    requires Distinct(s)
    ensures multiset(s)[x] <= 1
  {
    if s != [] {
      DistinctCount(s[1..], x);
      assert s == [s[0]] + s[1..];
      if s[0] == x {
        assert x !in s[1..];
      }
    }
  }

  /** A permutation of a sequence without repetitions has none either. */
  lemma DistinctPermutation<T>(s: seq<T>, r: seq<T>)
    requires Distinct(s) && multiset(r) == multiset(s)
    ensures Distinct(r)
  {
    forall i, j | 0 <= i < j < |r| ensures r[i] != r[j] {
      DistinctCount(s, r[i]);
      assert r == r[..j] + r[j..];
      assert r[i] in multiset(r[..j]);
      assert r[j] in multiset(r[j..]);
    }
  }

  lemma PrefixExtend<T>(a: seq<T>, p: seq<T>, r: seq<T>)
    requires p <= r
    ensures a + p <= a + r
  {
    assert (a + r)[..|a + p|] == a + p;
  }

  lemma PrefixTrans<T>(a: seq<T>, b: seq<T>, c: seq<T>)
    requires a <= b && b <= c
    ensures a <= c
  {
    assert c[..|a|] == b[..|a|];
  }

  /** The loop `for k in keys: table[k] = g(k)`. */
  method Tabulate<K, V>(keys: seq<K>, g: K -> V) returns (table: map<K, V>)
    ensures table == map k | k in keys :: g(k)
  {
    table := map[];
    var n := 0;
    while n < |keys|
      invariant 0 <= n <= |keys|
      invariant forall k :: k in table <==> k in keys[..n]
      invariant forall k :: k in table ==> table[k] == g(k)
    {
      table := table[keys[n] := g(keys[n])];
      n := n + 1;
    }
    assert keys[..n] == keys;
  }

  /** The dict comprehension `{key(v): v for v in s}`: a later element
      replaces an earlier one with the same key. */
  function IndexBy<K(==), V>(s: seq<V>, key: V -> K): map<K, V> {
    if s == [] then map[] else IndexBy(s[..|s| - 1], key)[key(s[|s| - 1]) := s[|s| - 1]]
  }

  /** `s[i]` is the last element of `s` whose key is `k`. */
  predicate LastWith<K(==), V>(s: seq<V>, key: V -> K, k: K, i: int) {
    0 <= i < |s| && key(s[i]) == k && forall j :: i < j < |s| ==> key(s[j]) != k
  }

  /** The comprehension holds exactly the keys of the elements. */
  lemma {:induction false} IndexByKeys<K, V>(s: seq<V>, key: V -> K, k: K)
    ensures k in IndexBy(s, key) <==> exists i :: 0 <= i < |s| && key(s[i]) == k
  {
    if s != [] {
      var n := |s| - 1;
      var init := s[..n];
      IndexByKeys(init, key, k);
      assert IndexBy(s, key) == IndexBy(init, key)[key(s[n]) := s[n]];
      if exists i :: 0 <= i < |s| && key(s[i]) == k {
        var i :| 0 <= i < |s| && key(s[i]) == k;
        if i < n {
          assert init[i] == s[i];
        }
      }
      if exists i :: 0 <= i < |init| && key(init[i]) == k {
        var i :| 0 <= i < |init| && key(init[i]) == k;
        assert s[i] == init[i];
      }
    }
  }

  /** Each key is mapped to the last element with that key. */
  lemma {:induction false} IndexByLastWins<K, V>(s: seq<V>, key: V -> K, k: K)
    requires k in IndexBy(s, key)
    ensures exists i :: LastWith(s, key, k, i) && IndexBy(s, key)[k] == s[i]
  {
    var n := |s| - 1;
    var init := s[..n];
    assert IndexBy(s, key) == IndexBy(init, key)[key(s[n]) := s[n]];
    if key(s[n]) == k {
      assert LastWith(s, key, k, n);
    } else {
      IndexByLastWins(init, key, k);
      var i :| LastWith(init, key, k, i) && IndexBy(init, key)[k] == init[i];
      assert s[i] == init[i];
      forall j | i < j < |s| ensures key(s[j]) != k {
        if j < n {
          assert s[j] == init[j];
        }
      }
      assert LastWith(s, key, k, i);
    }
  }
}
