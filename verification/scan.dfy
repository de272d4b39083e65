/**
 * The nested scan `for key, entries in scoresData.items(): for entry in
 * entries: ...` that reads one optional value from every (key, entry)
 * pair and appends what it reads, in document order.
 */
module Scan {
  import opened Optional
  import opened Dataset
  import opened Seqs

  /** What the inner loop reads from one industry's `entries`. */
  function RowHits<U>(key: string, entries: seq<Entry>, f: (string, Entry) -> Option<U>): seq<U> {
    if entries == [] then []
    else RowHits(key, entries[..|entries| - 1], f) + OptionSeq(f(key, entries[|entries| - 1]))
  }

  /** What the whole nested loop reads from the industries `ss`. */
  function Gather<U>(ss: seq<IndustryScores>, f: (string, Entry) -> Option<U>): seq<U> {
    if ss == [] then []
    else Gather(ss[..|ss| - 1], f) + RowHits(ss[|ss| - 1].key, ss[|ss| - 1].entries, f)
  }

  /** One iteration of the inner loop. */
  lemma RowHitsStep<U>(key: string, entries: seq<Entry>, j: nat, f: (string, Entry) -> Option<U>)
    requires j < |entries|
    ensures RowHits(key, entries[..j + 1], f) == RowHits(key, entries[..j], f) + OptionSeq(f(key, entries[j]))
  {
    assert entries[..j + 1][..j] == entries[..j];
  }

  /** One iteration of the inner loop, as it extends the results so far. */
  lemma RowAppend<U>(results0: seq<U>, acc: seq<U>, key: string, entries: seq<Entry>, j: nat, f: (string, Entry) -> Option<U>)
    requires j < |entries|
    requires acc == results0 + RowHits(key, entries[..j], f)
    ensures acc + OptionSeq(f(key, entries[j])) == results0 + RowHits(key, entries[..j + 1], f)
  {
    RowHitsStep(key, entries, j, f);
    assert acc + OptionSeq(f(key, entries[j])) == results0 + (RowHits(key, entries[..j], f) + OptionSeq(f(key, entries[j])));
  }

  /** The inner loop over a whole industry, as one iteration of the outer loop. */
  lemma GatherStep<U>(ss: seq<IndustryScores>, i: nat, f: (string, Entry) -> Option<U>)
    requires i < |ss|
    ensures Gather(ss[..i + 1], f) == Gather(ss[..i], f) + RowHits(ss[i].key, ss[i].entries[..|ss[i].entries|], f)
  {
    assert ss[..i + 1][..i] == ss[..i];
    assert ss[i].entries[..|ss[i].entries|] == ss[i].entries;
  }

  lemma {:induction false} RowHitsAppend<U>(key: string, a: seq<Entry>, b: seq<Entry>, f: (string, Entry) -> Option<U>)
    ensures RowHits(key, a + b, f) == RowHits(key, a, f) + RowHits(key, b, f)
  {
    if b == [] {
      assert a + b == a;
    } else {
      var b' := b[..|b| - 1];
      assert (a + b)[..|a + b| - 1] == a + b';
      RowHitsAppend(key, a, b', f);
    }
  }

  lemma {:induction false} GatherAppend<U>(a: seq<IndustryScores>, b: seq<IndustryScores>, f: (string, Entry) -> Option<U>)
    ensures Gather(a + b, f) == Gather(a, f) + Gather(b, f)
  {
    if b == [] {
      assert a + b == a;
    } else {
      var b' := b[..|b| - 1];
      assert (a + b)[..|a + b| - 1] == a + b';
      GatherAppend(a, b', f);
    }
  }

  /** Reading a row from the front: the first entry's value comes first. */
  lemma RowHitsCons<U>(key: string, entries: seq<Entry>, f: (string, Entry) -> Option<U>)
    requires entries != []
    ensures RowHits(key, entries, f) == OptionSeq(f(key, entries[0])) + RowHits(key, entries[1..], f)
  {
    var first := [entries[0]];
    assert RowHits(key, first, f) == OptionSeq(f(key, entries[0])) by {
      assert first[..0] == [];
    }
    RowHitsAppend(key, first, entries[1..], f);
    assert first + entries[1..] == entries;
  }

  /** Reading the industries from the front: the first industry's values come first. */
  lemma GatherCons<U>(ss: seq<IndustryScores>, f: (string, Entry) -> Option<U>)
    requires ss != []
    ensures Gather(ss, f) == RowHits(ss[0].key, ss[0].entries, f) + Gather(ss[1..], f)
  {
    var first := [ss[0]];
    assert Gather(first, f) == RowHits(ss[0].key, ss[0].entries, f) by {
      assert first[..0] == [];
    }
    GatherAppend(first, ss[1..], f);
    assert first + ss[1..] == ss;
  }

  lemma RowHitsPrefix<U>(key: string, es: seq<Entry>, j: nat, f: (string, Entry) -> Option<U>)
    requires j <= |es|
    ensures RowHits(key, es[..j], f) <= RowHits(key, es, f)
  {
    RowHitsAppend(key, es[..j], es[j..], f);
    assert es[..j] + es[j..] == es;
  }

  lemma GatherPrefixOf<U>(ss: seq<IndustryScores>, i: nat, f: (string, Entry) -> Option<U>)
    requires i <= |ss|
    ensures Gather(ss[..i], f) <= Gather(ss, f)
  {
    GatherAppend(ss[..i], ss[i..], f);
    assert ss[..i] + ss[i..] == ss;
  }

  /** What is read after `i` industries and `j` entries of the next one is
      the beginning of what the whole scan reads. */
  lemma GatherPrefix<U>(ss: seq<IndustryScores>, i: nat, j: nat, f: (string, Entry) -> Option<U>)
    requires i < |ss| && j <= |ss[i].entries|
    ensures Gather(ss[..i], f) + RowHits(ss[i].key, ss[i].entries[..j], f) <= Gather(ss, f)
  {
    var key, es := ss[i].key, ss[i].entries;
    RowHitsPrefix(key, es, j, f);
    PrefixExtend(Gather(ss[..i], f), RowHits(key, es[..j], f), RowHits(key, es, f));
    GatherStep(ss, i, f);
    assert es[..|es|] == es;
    GatherPrefixOf(ss, i + 1, f);
    PrefixTrans(Gather(ss[..i], f) + RowHits(key, es[..j], f), Gather(ss[..i + 1], f), Gather(ss, f));
  }

  /** A value is read from a row exactly when some entry of the row reads as it. */
  lemma {:induction false} RowHitsMembers<U>(key: string, entries: seq<Entry>, f: (string, Entry) -> Option<U>, u: U)
    ensures u in RowHits(key, entries, f) <==> exists e :: e in entries && f(key, e) == Some(u)
  {
    if entries != [] {
      var init, last := entries[..|entries| - 1], entries[|entries| - 1];
      assert entries == init + [last];
      RowHitsMembers(key, init, f, u);
      if exists e :: e in entries && f(key, e) == Some(u) {
        var e :| e in entries && f(key, e) == Some(u);
        if e != last {
          assert e in init;
        }
      }
    }
  }

  /** A value is read by the scan exactly when some entry of some industry
      reads as it. */
  lemma {:induction false} GatherMembers<U>(ss: seq<IndustryScores>, f: (string, Entry) -> Option<U>, u: U)
    ensures u in Gather(ss, f) <==>
      exists i, e :: 0 <= i < |ss| && e in ss[i].entries && f(ss[i].key, e) == Some(u)
  {
    if ss != [] {
      var n := |ss| - 1;
      var init, key, es := ss[..n], ss[n].key, ss[n].entries;
      assert Gather(ss, f) == Gather(init, f) + RowHits(key, es, f);
      GatherMembers(init, f, u);
      RowHitsMembers(key, es, f, u);
      if exists i, e :: 0 <= i < |ss| && e in ss[i].entries && f(ss[i].key, e) == Some(u) {
        var i, e :| 0 <= i < |ss| && e in ss[i].entries && f(ss[i].key, e) == Some(u);
        if i < n {
          assert init[i] == ss[i];
          assert u in Gather(init, f);
        } else {
          assert u in RowHits(key, es, f);
        }
      }
      if u in Gather(init, f) {
        var i, e :| 0 <= i < |init| && e in init[i].entries && f(init[i].key, e) == Some(u);
        assert init[i] == ss[i];
      }
    }
  }
}
