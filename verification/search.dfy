/**
 * `search_companies`: a case-insensitive substring search over the company
 * names of every industry's entries, restricted to each industry's latest
 * period when no period is asked for, stopping once `limit` hits are found.
 */
module Search {
  import opened Optional
  import opened PyText
  import opened Dataset
  import opened Seqs
  import opened Scan
  import opened Entries
  import opened Periods
  import opened Rankings

  /** One search result: `{company, industry, ranking}`. */
  datatype Hit = Hit(company: string, industry: string, ranking: Value)

  /** The period filter the search applies to the entries stored under `key`:
      the requested one when a year or a month is given; otherwise the latest
      period of `key` when `key` is listed in `industries` and has one, and
      no filter at all when it is not listed or has no period. */
  function EffectivePeriod(doc: Document, key: string, year: Option<string>, month: Option<int>): (Option<string>, Option<int>) {
    if year.None? && month.None? && key in doc.industries then
      DefaultPeriod(None, None, LatestForIndustry(doc, key))
    else (year, month)
  }

  /** The company name as the search reads it, `str(entry.get("company", ""))`. */
  function NameOf(e: Entry): string {
    PyStr(GetOr(e, "company", VStr("")))
  }

  /** The test applied to one entry once its period filter is known. */
  function HitAt(key: string, e: Entry, needle: string, y: Option<string>, m: Option<int>): Option<Hit> {
    if Contains(Lower(NameOf(e)), needle) && MatchesYearMonth(e, y, m) then
      Some(Hit(NameOf(e), key, Get(e, "ranking")))
    else None
  }

  /** The hit an entry of industry `key` gives, if any. */
  function HitOf(doc: Document, key: string, e: Entry, needle: string, year: Option<string>, month: Option<int>): Option<Hit> {
    var (y, m) := EffectivePeriod(doc, key, year, month);
    HitAt(key, e, needle, y, m)
  }

  function HitFinder(doc: Document, needle: string, year: Option<string>, month: Option<int>): (string, Entry) -> Option<Hit> {
    (key, e) => HitOf(doc, key, e, needle, year, month)
  }

  /** Every hit, in document order, with no limit. */
  function AllHits(doc: Document, needle: string, year: Option<string>, month: Option<int>): seq<Hit> {
    Gather(doc.scoresData, HitFinder(doc, needle, year, month))
  }

  /** The number of hits after which the scan stops: the check happens only
      after a hit is appended, so a `limit` below one still lets one through. */
  function Cap(limit: int): int {
    Max(limit, 1)
  }

  /** `search_companies`: the first `Cap(limit)` hits for the stripped,
      lower-cased query, none for a blank query. */
  function SearchCompanies(doc: Document, query: string, limit: int, year: Option<string>, month: Option<int>): (r: seq<Hit>)
    ensures Strip(query) == [] ==> r == []
    ensures |r| <= Cap(limit)
    ensures limit >= 1 ==> |r| <= limit
    ensures r <= AllHits(doc, Lower(Strip(query)), year, month)
    ensures Strip(query) != [] && |AllHits(doc, Lower(Strip(query)), year, month)| < Cap(limit) ==>
      r == AllHits(doc, Lower(Strip(query)), year, month)
    ensures Strip(query) != [] ==> |r| == Min(Cap(limit), |AllHits(doc, Lower(Strip(query)), year, month)|)
  {
    var needle := Lower(Strip(query));
    LowerSpec(Strip(query));
    if needle == [] then []
    else
      var all := AllHits(doc, needle, year, month);
      all[..Min(Cap(limit), |all|)]
  }

  /** The table `latest_by_industry` built before the scan. */
  predicate LatestTable(doc: Document, latestBy: map<string, Option<Period>>) {
    (forall k :: k in latestBy ==> k in doc.industries) &&
    (forall k :: k in doc.industries ==> k in latestBy) &&
    (forall k :: k in latestBy ==> latestBy[k] == LatestForIndustry(doc, k))
  }

  /** One step of the inner loop of the scan, once the entry's period
      filter `(y, m)` is known: appending the entry's hit, if any, to the
      results so far gives the results up to and including the entry. */
  lemma SearchRowStep(doc: Document, results0: seq<Hit>, acc: seq<Hit>, key: string, entries: seq<Entry>, j: nat,
                      needle: string, year: Option<string>, month: Option<int>, y: Option<string>, m: Option<int>)
    requires j < |entries|
    requires (y, m) == EffectivePeriod(doc, key, year, month)
    requires acc == results0 + RowHits(key, entries[..j], HitFinder(doc, needle, year, month))
    ensures acc + OptionSeq(HitAt(key, entries[j], needle, y, m)) ==
      results0 + RowHits(key, entries[..j + 1], HitFinder(doc, needle, year, month))
  {
    var f := HitFinder(doc, needle, year, month);
    RowAppend(results0, acc, key, entries, j, f);
    assert f(key, entries[j]) == HitAt(key, entries[j], needle, y, m);
  }

  /** The effective period of one entry, read from the table. */
  method PeriodFor(ghost doc: Document, key: string, latestBy: map<string, Option<Period>>,
                   year: Option<string>, month: Option<int>) returns (effYear: Option<string>, effMonth: Option<int>)
    requires year.None? && month.None? ==> LatestTable(doc, latestBy)
    ensures (effYear, effMonth) == EffectivePeriod(doc, key, year, month)
  {
    effYear, effMonth := year, month;
    if year.None? && month.None? {
      var latest := if key in latestBy then latestBy[key] else None;
      effYear := if latest.Some? then Some(latest.value.year) else None;
      effMonth := if latest.Some? then Some(latest.value.month) else None;
    }
  }

  /** Stopping after entry `j`: the results so far begin the whole row's. */
  lemma RowFull<U>(results0: seq<U>, key: string, entries: seq<Entry>, j: nat, f: (string, Entry) -> Option<U>)
    requires j < |entries|
    ensures results0 + RowHits(key, entries[..j + 1], f) <= results0 + RowHits(key, entries, f)
  {
    RowHitsPrefix(key, entries, j + 1, f);
    PrefixExtend(results0, RowHits(key, entries[..j + 1], f), RowHits(key, entries, f));
  }

  /** The inner loop over the entries stored under `key`. It stops with
      `full` once the results reach `Cap(limit)`; the results are then the
      beginning of what the whole row would give. */
  method ScanRow(ghost doc: Document, results0: seq<Hit>, key: string, entries: seq<Entry>, needle: string,
                 latestBy: map<string, Option<Period>>, year: Option<string>, month: Option<int>, limit: int)
    returns (results: seq<Hit>, full: bool)
    requires year.None? && month.None? ==> LatestTable(doc, latestBy)
    requires |results0| < Cap(limit)
    ensures !full ==> results == results0 + RowHits(key, entries, HitFinder(doc, needle, year, month))
    ensures !full ==> |results| < Cap(limit)
    ensures full ==> results <= results0 + RowHits(key, entries, HitFinder(doc, needle, year, month))
    ensures full ==> |results| == Cap(limit)
  {
    ghost var f := HitFinder(doc, needle, year, month);
    results, full := results0, false;
    var j := 0;
    assert entries[..0] == [];
    while j < |entries|
      invariant 0 <= j <= |entries|
      invariant results == results0 + RowHits(key, entries[..j], f)
      invariant |results| < Cap(limit)
    {
      var effYear, effMonth := PeriodFor(doc, key, latestBy, year, month);
      var hit := HitAt(key, entries[j], needle, effYear, effMonth);
      SearchRowStep(doc, results0, results, key, entries, j, needle, year, month, effYear, effMonth);
      if hit.Some? {
        results := results + [hit.value];
        if |results| >= limit {
          RowFull(results0, key, entries, j, f);
          full := true;
          return;
        }
      }
      j := j + 1;
    }
    assert entries[..j] == entries;
  }

  function LatestOf(doc: Document): string -> Option<Period> {
    key => LatestForIndustry(doc, key)
  }

  /** `latest_by_industry`: the latest period of every listed industry,
      computed once before the scan when no period is asked for, and left
      empty otherwise. */
  method LatestByIndustry(doc: Document, year: Option<string>, month: Option<int>)
    returns (latestBy: map<string, Option<Period>>)
    ensures year.None? && month.None? ==> LatestTable(doc, latestBy)
  {
    latestBy := map[];
    if year.None? && month.None? {
      latestBy := Tabulate(doc.industries, LatestOf(doc));
      assert forall k :: LatestOf(doc)(k) == LatestForIndustry(doc, k);
    }
  }

  /** Stopping inside industry `i` with `cap` results: they are the first
      `cap` values of the whole scan. */
  lemma StopEarly<U>(ss: seq<IndustryScores>, i: nat, f: (string, Entry) -> Option<U>, results: seq<U>, cap: int)
    requires i < |ss|
    requires results <= Gather(ss[..i + 1], f) && |results| == cap
    ensures results == Gather(ss, f)[..Min(cap, |Gather(ss, f)|)]
  {
    GatherPrefixOf(ss, i + 1, f);
    PrefixTrans(results, Gather(ss[..i + 1], f), Gather(ss, f));
  }

  /** What the scan ends with, complete or cut at the cap, is the search's result. */
  lemma ScanIsSearch(doc: Document, query: string, limit: int, year: Option<string>, month: Option<int>, results: seq<Hit>)
    requires Lower(Strip(query)) != []
    requires (results == AllHits(doc, Lower(Strip(query)), year, month) && |results| < Cap(limit)) ||
      results == AllHits(doc, Lower(Strip(query)), year, month)[..Min(Cap(limit), |AllHits(doc, Lower(Strip(query)), year, month)|)]
    ensures results == SearchCompanies(doc, query, limit, year, month)
  {
    var all := AllHits(doc, Lower(Strip(query)), year, month);
    assert all[..|all|] == all;
  }

  /** `search_companies` as the nested scan with an early return. */
  method SearchScan(doc: Document, query: string, limit: int, year: Option<string>, month: Option<int>)
    returns (results: seq<Hit>)
    ensures results == SearchCompanies(doc, query, limit, year, month)
  {
    var needle := Lower(Strip(query));
    if needle == [] {
      return [];
    }
    var latestBy := LatestByIndustry(doc, year, month);
    ghost var f := HitFinder(doc, needle, year, month);
    var ss := doc.scoresData;
    results := [];
    var i := 0;
    while i < |ss|
      invariant 0 <= i <= |ss|
      invariant results == Gather(ss[..i], f)
      invariant |results| < Cap(limit)
    {
      var full;
      results, full := ScanRow(doc, results, ss[i].key, ss[i].entries, needle, latestBy, year, month, limit);
      GatherStep(ss, i, f);
      assert ss[i].entries[..|ss[i].entries|] == ss[i].entries;
      if full {
        StopEarly(ss, i, f, results, Cap(limit));
        ScanIsSearch(doc, query, limit, year, month, results);
        return;
      }
      i := i + 1;
    }
    assert ss[..i] == ss;
    ScanIsSearch(doc, query, limit, year, month, results);
  }

  /** `h` is the hit that entry `e` of industry `key` gives: the entry's
      company name contains the needle, the entry is in the effective
      period, and `h` carries the name, the industry key and the ranking. */
  predicate IsHit(doc: Document, key: string, e: Entry, needle: string, year: Option<string>, month: Option<int>, h: Hit) {
    var (y, m) := EffectivePeriod(doc, key, year, month);
    Contains(Lower(NameOf(e)), needle) && MatchesYearMonth(e, y, m) &&
    h == Hit(NameOf(e), key, Get(e, "ranking"))
  }

  /** A hit is in the unlimited scan exactly when some entry gives it. */
  lemma AllHitsExact(doc: Document, needle: string, year: Option<string>, month: Option<int>, h: Hit)
    ensures h in AllHits(doc, needle, year, month) <==>
      exists i, e :: (0 <= i < |doc.scoresData| && e in doc.scoresData[i].entries &&
        IsHit(doc, doc.scoresData[i].key, e, needle, year, month, h))
  {
    var f := HitFinder(doc, needle, year, month);
    GatherMembers(doc.scoresData, f, h);
    assert forall k, e :: f(k, e) == HitOf(doc, k, e, needle, year, month);
  }

  /** Every result comes from an entry whose company name contains the
      query, ignoring case and surrounding blanks, and which lies in the
      effective period of its industry. */
  lemma SearchHitsMatch(doc: Document, query: string, limit: int, year: Option<string>, month: Option<int>, h: Hit)
    requires h in SearchCompanies(doc, query, limit, year, month)
    ensures exists i, e :: (0 <= i < |doc.scoresData| && e in doc.scoresData[i].entries &&
      IsHit(doc, doc.scoresData[i].key, e, Lower(Strip(query)), year, month, h))
  {
    AllHitsExact(doc, Lower(Strip(query)), year, month, h);
  }

  /** When fewer hits exist than the scan may return, every matching entry
      is among the results. */
  lemma SearchComplete(doc: Document, query: string, limit: int, year: Option<string>, month: Option<int>,
                       i: int, e: Entry, h: Hit)
    requires Strip(query) != []
    requires |AllHits(doc, Lower(Strip(query)), year, month)| < Cap(limit)
    requires 0 <= i < |doc.scoresData| && e in doc.scoresData[i].entries
    requires IsHit(doc, doc.scoresData[i].key, e, Lower(Strip(query)), year, month, h)
    ensures h in SearchCompanies(doc, query, limit, year, month)
  {
    AllHitsExact(doc, Lower(Strip(query)), year, month, h);
  }

  /** With no period asked for, a result from a listed industry that has a
      latest period comes from an entry of exactly that period. */
  lemma SearchUsesLatest(doc: Document, query: string, limit: int, h: Hit, p: Period)
    requires h in SearchCompanies(doc, query, limit, None, None)
    requires h.industry in doc.industries && LatestForIndustry(doc, h.industry) == Some(p)
    ensures exists i, e :: (0 <= i < |doc.scoresData| && e in doc.scoresData[i].entries &&
      doc.scoresData[i].key == h.industry && NameOf(e) == h.company &&
      PyStr(Get(e, "year")) == p.year && PyInt(Get(e, "period")) == Some(p.month))
  {
    SearchHitsMatch(doc, query, limit, None, None, h);
  }
}
