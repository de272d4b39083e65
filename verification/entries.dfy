/**
 * Per-entry operations: the optional year/month filter, the rename of
 * `period` to `month` for the external shape, and the ranking sort.
 */
module Entries {
  import opened Optional
  import opened PyText
  import opened Dataset
  import opened Seqs
  import opened StableSort

  /** `_matches_year_month`: `str(entry.get("year"))` equals the year filter
      when one is given, and `int(entry.get("period"))` equals the month
      filter when one is given; a period `int()` rejects never matches. */
  predicate MatchesYearMonth(e: Entry, year: Option<string>, month: Option<int>) {
    (year.None? || PyStr(Get(e, "year")) == year.value) &&
    (month.None? || PyInt(Get(e, "period")) == Some(month.value))
  }

  function Matching(year: Option<string>, month: Option<int>): Entry -> bool {
    e => MatchesYearMonth(e, year, month)
  }

  /** The list comprehension `[e for e in s if _matches_year_month(e, ...)]`. */
  function KeepMatching(s: seq<Entry>, year: Option<string>, month: Option<int>): seq<Entry> {
    Keep(s, Matching(year, month))
  }

  /** The comprehension keeps exactly the entries that match. */
  lemma KeepMatchingMembers(s: seq<Entry>, year: Option<string>, month: Option<int>, e: Entry)
    ensures e in KeepMatching(s, year, month) <==> e in s && MatchesYearMonth(e, year, month)
  {
    KeepMembers(s, Matching(year, month), e);
  }

  /** The comprehension keeps the order of its input: filtering a
      concatenation filters each part. */
  lemma KeepMatchingAppend(a: seq<Entry>, b: seq<Entry>, year: Option<string>, month: Option<int>)
    ensures KeepMatching(a + b, year, month) == KeepMatching(a, year, month) + KeepMatching(b, year, month)
  {
    KeepAppend(a, b, Matching(year, month));
  }

  /** With no year and no month every entry matches, so the comprehension
      keeps the whole list. */
  lemma KeepMatchingUnfiltered(s: seq<Entry>)
    ensures KeepMatching(s, None, None) == s
  {
    KeepAll(s, Matching(None, None));
  }

  /** `_filter_entries`: its shortcut for "no filter" returns the input list
      itself, which is what the comprehension would have built. */
  function FilterEntries(s: seq<Entry>, year: Option<string>, month: Option<int>): (r: seq<Entry>)
    ensures r == KeepMatching(s, year, month)
  {
    if year.None? && month.None? then
      KeepMatchingUnfiltered(s);
      s
    else KeepMatching(s, year, month)
  }

  /** `_transform_entry`: a copy of the entry in which `period` is renamed to
      `month` (overwriting a `month` already there); the input map is a
      value and cannot change. */
  function TransformEntry(e: Entry): (r: Entry)
    ensures "period" !in r
    ensures "period" in e ==> "month" in r && r["month"] == e["period"]
    ensures "period" !in e ==> r == e
    ensures r.Keys == if "period" in e then e.Keys - {"period"} + {"month"} else e.Keys
    ensures forall k :: k in e && k != "period" && k != "month" ==> k in r && r[k] == e[k]
  {
    if "period" in e then (e - {"period"})["month" := e["period"]] else e
  }

  /** The external shape of an entry of industry `industry`:
      `result = _transform_entry(entry); result["industry"] = industry`. */
  function Tagged(e: Entry, industry: string): (r: Entry)
    ensures "period" !in r
    ensures "industry" in r && r["industry"] == VStr(industry)
    ensures "period" in e ==> "month" in r && r["month"] == e["period"]
    ensures "period" !in e ==> ("month" in r <==> "month" in e)
    ensures "period" !in e && "month" in e ==> "month" in r && r["month"] == e["month"]
    ensures forall k :: k !in {"period", "month", "industry"} ==> (k in r <==> k in e)
    ensures forall k :: k in e && k !in {"period", "month", "industry"} ==> k in r && r[k] == e[k]
  {
    TransformEntry(e)["industry" := VStr(industry)]
  }

  /** The sort key `int(r.get("ranking", 10**9))`; `None` where `int()` raises. */
  function RankingKey(e: Entry): Option<int> {
    PyInt(GetOr(e, "ranking", VInt(1000000000)))
  }

  /** Every key of the list can be computed, so `sorted` does not raise. */
  predicate RankingsReadable(s: seq<Entry>) {
    forall i :: 0 <= i < |s| ==> RankingKey(s[i]).Some?
  }

  /** The key as a tuple for `SortBy`; only used on entries whose key is readable. */
  function RankOrder(e: Entry): (int, int) {
    match RankingKey(e)
    case Some(k) => (k, 0)
    case None => (0, 0)
  }

  /** Both ranking keys are readable and the first is not greater. */
  predicate RankLe(a: Entry, b: Entry) {
    RankingKey(a).Some? && RankingKey(b).Some? && RankingKey(a).value <= RankingKey(b).value
  }

  /** Entries in ascending order of their readable ranking keys. */
  predicate RankAscending(s: seq<Entry>) {
    forall i, j :: 0 <= i < j < |s| ==> RankLe(s[i], s[j])
  }

  /** `sorted(s, key=lambda r: int(r.get("ranking", 10**9)))`, `None` when a
      key raises (CPython computes every key before it compares any). */
  function SortByRanking(s: seq<Entry>): (r: Option<seq<Entry>>)
    ensures r.Some? <==> RankingsReadable(s)
    ensures r.Some? ==> multiset(r.value) == multiset(s)
    ensures r.Some? ==> RankAscending(r.value)
    ensures r.Some? ==> forall k :: WithKey(r.value, RankOrder, k) == WithKey(s, RankOrder, k)
  {
    if RankingsReadable(s) then
      var t := SortBy(s, RankOrder);
      forall i | 0 <= i < |t| ensures RankingKey(t[i]).Some? {
        assert t[i] in multiset(s);
      }
      Some(t)
    else None
  }
}
