/**
 * The per-company queries: the first entry of a company over all
 * industries, all its entries, and the batch lookup of several companies
 * (inside one industry through a name index, or across all industries).
 */
module Companies {
  import opened Optional
  import opened PyText
  import opened Dataset
  import opened Seqs
  import opened Scan
  import opened Entries
  import opened Periods
  import opened Rankings

  /** What the company scans take from `entry` of industry `key`: the
      entry, transformed and tagged with `key`, when its normalised company
      is `needle` and it matches the period filter. */
  function CompanyMatch(key: string, e: Entry, needle: string, year: Option<string>, month: Option<int>): Option<Entry> {
    if CompanyKey(e) == needle && MatchesYearMonth(e, year, month) then Some(Tagged(e, key)) else None
  }

  function Matcher(needle: string, year: Option<string>, month: Option<int>): (string, Entry) -> Option<Entry> {
    (key, e) => CompanyMatch(key, e, needle, year, month)
  }

  /** `get_company_entries`: every entry of the company that matches the
      filter, over all industries in document order. No period defaulting
      happens here. */
  function CompanyEntries(doc: Document, company: string, year: Option<string>, month: Option<int>): seq<Entry> {
    Gather(doc.scoresData, Matcher(Lower(Strip(company)), year, month))
  }

  /** The entries listed are exactly the tagged matching entries. */
  lemma CompanyEntriesExact(doc: Document, company: string, year: Option<string>, month: Option<int>, r: Entry)
    ensures r in CompanyEntries(doc, company, year, month) <==>
      exists i, e :: 0 <= i < |doc.scoresData| && e in doc.scoresData[i].entries &&
        CompanyKey(e) == Lower(Strip(company)) && MatchesYearMonth(e, year, month) &&
        r == Tagged(e, doc.scoresData[i].key)
  {
    var f := Matcher(Lower(Strip(company)), year, month);
    GatherMembers(doc.scoresData, f, r);
    assert forall k, e :: f(k, e) == CompanyMatch(k, e, Lower(Strip(company)), year, month);
  }

  /** One iteration of the inner loop of `get_company_entries`: appending
      the match of `entries[j]`, if any, extends the row's matches by one
      entry. */
  lemma CompanyRowStep(results0: seq<Entry>, acc: seq<Entry>, key: string, entries: seq<Entry>, j: nat,
                       needle: string, year: Option<string>, month: Option<int>)
    requires j < |entries|
    requires acc == results0 + RowHits(key, entries[..j], Matcher(needle, year, month))
    ensures acc + OptionSeq(CompanyMatch(key, entries[j], needle, year, month)) ==
      results0 + RowHits(key, entries[..j + 1], Matcher(needle, year, month))
  {
    RowAppend(results0, acc, key, entries, j, Matcher(needle, year, month));
    assert Matcher(needle, year, month)(key, entries[j]) == CompanyMatch(key, entries[j], needle, year, month);
  }

  /** The inner loop of `get_company_entries` over one industry,
      appending each match to `results`. */
  method AppendCompanyRow(results0: seq<Entry>, key: string, entries: seq<Entry>, needle: string,
                          year: Option<string>, month: Option<int>)
    returns (results: seq<Entry>)
    ensures results == results0 + RowHits(key, entries, Matcher(needle, year, month))
  {
    results := results0;
    var j := 0;
    assert entries[..j] == [];
    while j < |entries|
      invariant 0 <= j <= |entries|
      invariant results == results0 + RowHits(key, entries[..j], Matcher(needle, year, month))
    {
      var hit := CompanyMatch(key, entries[j], needle, year, month);
      CompanyRowStep(results0, results, key, entries, j, needle, year, month);
      if hit.Some? {
        results := results + [hit.value];
      }
      j := j + 1;
    }
    assert entries[..j] == entries;
  }

  /** The loops of `get_company_entries`, appending each match. */
  method GetCompanyEntries(doc: Document, company: string, year: Option<string>, month: Option<int>)
    returns (results: seq<Entry>)
    ensures results == CompanyEntries(doc, company, year, month)
  {
    var needle := Lower(Strip(company));
    var ss := doc.scoresData;
    results := [];
    var i := 0;
    while i < |ss|
      invariant 0 <= i <= |ss|
      invariant results == Gather(ss[..i], Matcher(needle, year, month))
    {
      results := AppendCompanyRow(results, ss[i].key, ss[i].entries, needle, year, month);
      GatherStep(ss, i, Matcher(needle, year, month));
      assert ss[i].entries[..|ss[i].entries|] == ss[i].entries;
      i := i + 1;
    }
    assert ss[..i] == ss;
  }

  /** The inner loop of `get_company_data` over one industry: the first
      match, returned at once. */
  function FirstInRow(key: string, entries: seq<Entry>, needle: string, year: Option<string>, month: Option<int>): Option<Entry> {
    if entries == [] then None
    else if CompanyKey(entries[0]) == needle && MatchesYearMonth(entries[0], year, month) then Some(Tagged(entries[0], key))
    else FirstInRow(key, entries[1..], needle, year, month)
  }

  /** The outer loop of `get_company_data`: industries in document order. */
  function FirstMatch(ss: seq<IndustryScores>, needle: string, year: Option<string>, month: Option<int>): Option<Entry> {
    if ss == [] then None
    else match FirstInRow(ss[0].key, ss[0].entries, needle, year, month)
      case Some(r) => Some(r)
      case None => FirstMatch(ss[1..], needle, year, month)
  }

  function Head(s: seq<Entry>): Option<Entry> {
    if s == [] then None else Some(s[0])
  }

  lemma {:induction false} FirstInRowIsHead(key: string, entries: seq<Entry>, needle: string, year: Option<string>, month: Option<int>)
    ensures FirstInRow(key, entries, needle, year, month) == Head(RowHits(key, entries, Matcher(needle, year, month)))
  {
    if entries != [] {
      RowHitsCons(key, entries, Matcher(needle, year, month));
      FirstInRowIsHead(key, entries[1..], needle, year, month);
    }
  }

  lemma {:induction false} FirstMatchIsHead(ss: seq<IndustryScores>, needle: string, year: Option<string>, month: Option<int>)
    ensures FirstMatch(ss, needle, year, month) == Head(Gather(ss, Matcher(needle, year, month)))
  {
    if ss != [] {
      GatherCons(ss, Matcher(needle, year, month));
      FirstInRowIsHead(ss[0].key, ss[0].entries, needle, year, month);
      FirstMatchIsHead(ss[1..], needle, year, month);
    }
  }

  /** `get_company_data`: with neither a year nor a month, the company's
      latest period is used; then the first matching entry over all
      industries, tagged with its industry key, or `None`. */
  function CompanyData(doc: Document, company: string, year: Option<string>, month: Option<int>): (r: Option<Entry>)
    ensures var (y, m) := DefaultPeriod(year, month, LatestForCompany(doc, company));
      r == Head(CompanyEntries(doc, company, y, m))
  {
    var (y, m) := DefaultPeriod(year, month, LatestForCompany(doc, company));
    FirstMatchIsHead(doc.scoresData, Lower(Strip(company)), y, m);
    FirstMatch(doc.scoresData, Lower(Strip(company)), y, m)
  }

  /** `get_company_data` finds something exactly when the company has an
      entry matching the (defaulted) period, and what it finds is such an
      entry, tagged with its industry key. */
  lemma CompanyDataFound(doc: Document, company: string, year: Option<string>, month: Option<int>)
    ensures var (y, m) := DefaultPeriod(year, month, LatestForCompany(doc, company));
      CompanyData(doc, company, year, month).Some? <==>
        exists i, e :: 0 <= i < |doc.scoresData| && e in doc.scoresData[i].entries &&
          CompanyKey(e) == Lower(Strip(company)) && MatchesYearMonth(e, y, m)
    ensures var (y, m) := DefaultPeriod(year, month, LatestForCompany(doc, company));
      var r := CompanyData(doc, company, year, month);
      r.Some? ==> exists i, e :: (0 <= i < |doc.scoresData| && e in doc.scoresData[i].entries &&
        CompanyKey(e) == Lower(Strip(company)) && MatchesYearMonth(e, y, m) &&
        r.value == Tagged(e, doc.scoresData[i].key))
  {
    var (y, m) := DefaultPeriod(year, month, LatestForCompany(doc, company));
    var all := CompanyEntries(doc, company, y, m);
    var needle := Lower(Strip(company));
    if all != [] {
      CompanyEntriesExact(doc, company, y, m, all[0]);
    }
    if exists i, e :: 0 <= i < |doc.scoresData| && e in doc.scoresData[i].entries &&
        CompanyKey(e) == needle && MatchesYearMonth(e, y, m) {
      var i, e :| 0 <= i < |doc.scoresData| && e in doc.scoresData[i].entries &&
        CompanyKey(e) == needle && MatchesYearMonth(e, y, m);
      CompanyEntriesExact(doc, company, y, m, Tagged(e, doc.scoresData[i].key));
    }
  }

  /** `{normalised company: e for e in entries}`: the last entry of each
      name wins. */
  function BuildIndex(s: seq<Entry>): map<string, Entry> {
    IndexBy(s, CompanyKey)
  }

  /** `s[i]` is the last entry of `s` whose name is `k`. */
  predicate LastWithKey(s: seq<Entry>, k: string, i: int) {
    LastWith(s, CompanyKey, k, i)
  }

  /** One name of `get_companies_data` inside an industry: the indexed
      entry, transformed and tagged with the upper-cased industry, when
      there is one and it is not empty. */
  function IndexLookup(index: map<string, Entry>, name: string, tag: string): Option<Entry> {
    var key := Lower(Strip(name));
    if key in index && index[key] != map[] then Some(Tagged(index[key], tag)) else None
  }

  /** An empty entry has the empty name, so the entry indexed under a
      non-empty name is never the empty dict that `if entry:` rejects. */
  lemma EmptyEntryHasNoName()
    ensures CompanyKey(map[]) == []
  {
    assert Strip([]) == [];
    LowerSpec([]);
  }

  /** Inside an industry a name is found exactly when one of the selected
      entries has that normalised name (and the last such one is not
      empty); what is found is that last entry, tagged. */
  lemma IndexLookupExact(s: seq<Entry>, name: string, tag: string)
    ensures IndexLookup(BuildIndex(s), name, tag).Some? ==>
      exists i :: LastWithKey(s, Lower(Strip(name)), i) &&
        IndexLookup(BuildIndex(s), name, tag) == Some(Tagged(s[i], tag))
    ensures (forall i :: 0 <= i < |s| ==> CompanyKey(s[i]) != Lower(Strip(name))) ==>
      IndexLookup(BuildIndex(s), name, tag) == None
    ensures forall i :: LastWithKey(s, Lower(Strip(name)), i) ==>
      IndexLookup(BuildIndex(s), name, tag) == if s[i] != map[] then Some(Tagged(s[i], tag)) else None
    ensures Lower(Strip(name)) != [] ==> forall i :: LastWithKey(s, Lower(Strip(name)), i) ==>
      IndexLookup(BuildIndex(s), name, tag) == Some(Tagged(s[i], tag))
  {
    var key := Lower(Strip(name));
    IndexByKeys(s, CompanyKey, key);
    EmptyEntryHasNoName();
    if key in BuildIndex(s) {
      IndexByLastWins(s, CompanyKey, key);
      var i0 :| LastWith(s, CompanyKey, key, i0) && BuildIndex(s)[key] == s[i0];
      forall i | LastWithKey(s, key, i) ensures i == i0 {
        assert !(i < i0) && !(i0 < i);
      }
    }
  }

  /** The loop of `get_companies_data` inside an industry. */
  method LookupInIndex(names: seq<string>, index: map<string, Entry>, tag: string)
    returns (results: map<string, Option<Entry>>)
    ensures forall n :: n in results <==> n in names
    ensures forall n :: n in names ==> results[n] == IndexLookup(index, n, tag)
  {
    results := map[];
    var i := 0;
    while i < |names|
      invariant 0 <= i <= |names|
      invariant forall n :: n in results <==> n in names[..i]
      invariant forall n :: n in names[..i] ==> results[n] == IndexLookup(index, n, tag)
    {
      var name := names[i];
      var key := Lower(Strip(name));
      if key in index && index[key] != map[] {
        results := results[name := Some(Tagged(index[key], tag))];
      } else {
        results := results[name := None];
      }
      assert names[..i + 1] == names[..i] + [name];
      i := i + 1;
    }
    assert names[..i] == names;
  }

  /** The loop of `get_companies_data` without an industry: each name is
      stored with its `get_company_data` result, by the dict-filling loop
      `Tabulate`. */
  method LookupGlobally(doc: Document, names: seq<string>, year: Option<string>, month: Option<int>)
    returns (results: map<string, Option<Entry>>)
    ensures forall n :: n in results <==> n in names
    ensures forall n :: n in names ==> results[n] == CompanyData(doc, n, year, month)
  {
    results := Tabulate(names, CompanyDataOf(doc, year, month));
    assert forall n :: CompanyDataOf(doc, year, month)(n) == CompanyData(doc, n, year, month);
  }

  function CompanyDataOf(doc: Document, year: Option<string>, month: Option<int>): string -> Option<Entry> {
    n => CompanyData(doc, n, year, month)
  }

  /** `get_companies_data`: a result for every requested name. With a
      (non-empty) industry, names are looked up in the index of that
      industry's entries for the requested or latest period; otherwise each
      name goes through `get_company_data`. */
  method GetCompaniesData(doc: Document, names: seq<string>, industry: Option<string>,
                          year: Option<string>, month: Option<int>)
    returns (results: map<string, Option<Entry>>)
    ensures forall n :: n in results <==> n in names
    ensures industry.Some? && industry.value != "" ==> forall n :: n in names ==>
      results[n] == IndexLookup(BuildIndex(Selected(doc, industry.value, year, month)), n, Upper(industry.value))
    ensures !(industry.Some? && industry.value != "") ==> forall n :: n in names ==>
      results[n] == CompanyData(doc, n, year, month)
  {
    if names == [] {
      return map[];
    }
    if industry.Some? && industry.value != "" {
      var index := BuildIndex(Selected(doc, industry.value, year, month));
      results := LookupInIndex(names, index, Upper(industry.value));
    } else {
      results := LookupGlobally(doc, names, year, month);
    }
  }
}
