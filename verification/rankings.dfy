/**
 * The per-industry ranking queries: the ranked company names, the entry
 * at a given rank, and a page of the ranking. Each one defaults to the
 * industry's latest period, filters the industry's entries on the
 * period, and sorts them by `int(ranking)` (missing ranking = 10**9).
 */
module Rankings {
  import opened Optional
  import opened PyText
  import opened Dataset
  import opened Seqs
  import opened StableSort
  import opened Entries
  import opened Periods
  import opened Overviews

  /** A query's value, or the `TypeError`/`ValueError` that `sorted`
      raises when some entry's ranking cannot go through `int()`. */
  datatype Outcome<T> = Ok(value: T) | RankingNotInt

  function Max(a: int, b: int): int { if a < b then b else a }
  function Min(a: int, b: int): int { if a < b then a else b }

  /** The industry's entries for the requested period, or for its latest
      period when neither a year nor a month is given. */
  function Selected(doc: Document, industry: string, year: Option<string>, month: Option<int>): seq<Entry> {
    var (y, m) := DefaultPeriod(year, month, LatestForIndustry(doc, industry));
    FilterEntries(ScoresForIndustry(doc, industry), y, m)
  }

  /** An entry passes the filter on the very period `get_available_periods`
      reads from it: `str(year)` and `int(period)` are what both compare. */
  lemma MatchesOwnPeriod(e: Entry)
    requires PeriodOf(e).Some?
    ensures MatchesYearMonth(e, Some(PeriodOf(e).value.year), Some(PeriodOf(e).value.month))
  {
  }

  /** Defaulting to the latest period never empties an industry that has a
      period: the entry the latest period was read from is selected. */
  lemma {:induction false} LatestPeriodSelects(doc: Document, industry: string)
    requires industry != "" && LatestForIndustry(doc, industry).Some?
    ensures Selected(doc, industry, None, None) != []
    ensures exists e :: e in Selected(doc, industry, None, None) && PeriodOf(e) == LatestForIndustry(doc, industry)
  {
    LatestForIndustryIsLatest(doc, industry);
    var p := LatestForIndustry(doc, industry).value;
    var e :| e in ScopeEntries(doc, Some(industry)) && PeriodOf(e) == Some(p);
    MatchesOwnPeriod(e);
    KeepMatchingMembers(ScoresForIndustry(doc, industry), Some(p.year), Some(p.month), e);
  }

  /** `[dict(_transform_entry(e), industry=industry) for e in s]`. */
  function TagAll(s: seq<Entry>, industry: string): (r: seq<Entry>)
    ensures |r| == |s|
    ensures forall i :: 0 <= i < |s| ==> r[i] == Tagged(s[i], industry)
    ensures forall e :: e in r ==> "period" !in e && GetOr(e, "industry", VNull) == VStr(industry)
  {
    var r := Each(s, Tagger(industry));
    assert forall i :: 0 <= i < |s| ==> r[i] == Tagged(s[i], industry);
    r
  }

  function Tagger(industry: string): Entry -> Entry {
    e => Tagged(e, industry)
  }

  /** The company name `get_industry_companies` lists for an entry:
      `str(company).strip()` when the entry's `company` is truthy. */
  function CompanyNameOf(e: Entry): Option<string> {
    if Truthy(Get(e, "company")) then Some(Strip(PyStr(GetOr(e, "company", VStr(""))))) else None
  }

  /** The pagination of `get_industry_rankings`: a negative offset counts
      as 0, and with a limit the slice ends at `offset + max(0, limit)`;
      Python's slicing clamps both ends to the length. */
  function Page<T>(s: seq<T>, limit: Option<int>, offset: int): (r: seq<T>)
    ensures |r| <= |s|
    ensures limit.Some? ==> |r| <= Max(0, limit.value)
    ensures limit.Some? ==> |r| == Min(Max(0, limit.value), |s| - Min(Max(0, offset), |s|))
    ensures limit.None? ==> |r| == |s| - Min(Max(0, offset), |s|)
    ensures Min(Max(0, offset), |s|) + |r| <= |s|
    ensures r == s[Min(Max(0, offset), |s|)..Min(Max(0, offset), |s|) + |r|]
  {
    var off := if offset < 0 then 0 else offset;
    var lo := Min(off, |s|);
    match limit
    case None => s[lo..]
    case Some(l) => s[lo..Min(Max(0, off) + Max(0, l), |s|)]
  }

  /** Tagging an entry keeps its sort key. */
  lemma TaggedRanking(e: Entry, industry: string)
    ensures RankingKey(Tagged(e, industry)) == RankingKey(e)
  {
    assert "ranking" !in {"period", "month", "industry"};
  }

  /** Tagging an entry keeps the company name it lists. */
  lemma TaggedName(e: Entry, industry: string)
    ensures CompanyNameOf(Tagged(e, industry)) == CompanyNameOf(e)
  {
    assert "company" !in {"period", "month", "industry"};
  }

  /** The body of `get_industry_rankings` once the entries are selected:
      sort them, then tag the page. */
  function RankedPage(entries: seq<Entry>, tag: string, limit: Option<int>, offset: int): (r: Outcome<seq<Entry>>)
    ensures r.RankingNotInt? <==> !RankingsReadable(entries)
    ensures r.Ok? && limit.Some? ==> |r.value| <= Max(0, limit.value)
    ensures r.Ok? && limit.None? && offset <= 0 ==> |r.value| == |entries|
  {
    if entries == [] then Ok([])
    else match SortByRanking(entries)
      case None => RankingNotInt
      case Some(sorted) => Ok(TagAll(Page(sorted, limit, offset), tag))
  }

  /** A slice of an ascending list is ascending. */
  lemma SliceAscending(s: seq<Entry>, a: int, b: int)
    requires 0 <= a <= b <= |s|
    requires RankAscending(s)
    ensures RankAscending(s[a..b])
  {
    var t := s[a..b];
    forall i, j | 0 <= i < j < |t| ensures RankLe(t[i], t[j]) {
      assert t[i] == s[a + i];
      assert t[j] == s[a + j];
    }
  }

  /** Tagging keeps an ascending list ascending. */
  lemma TagAllAscending(s: seq<Entry>, tag: string)
    requires RankAscending(s)
    ensures RankAscending(TagAll(s, tag))
  {
    var r := TagAll(s, tag);
    forall i | 0 <= i < |s| ensures RankingKey(r[i]) == RankingKey(s[i]) {
      TaggedRanking(s[i], tag);
    }
  }

  /** A page is ascending by ranking, and every item is tagged and has no
      `period`. */
  lemma RankedPageOrdered(entries: seq<Entry>, tag: string, limit: Option<int>, offset: int)
    ensures var r := RankedPage(entries, tag, limit, offset);
      r.Ok? ==> RankAscending(r.value)
    ensures var r := RankedPage(entries, tag, limit, offset);
      r.Ok? ==> forall e :: e in r.value ==> "period" !in e && GetOr(e, "industry", VNull) == VStr(tag)
  {
    if entries != [] && RankingsReadable(entries) {
      var sorted := SortByRanking(entries).value;
      var lo := Min(Max(0, offset), |sorted|);
      SliceAscending(sorted, lo, lo + |Page(sorted, limit, offset)|);
      TagAllAscending(Page(sorted, limit, offset), tag);
    }
  }

  /** Applying `f` to every element commutes with taking a page. */
  lemma PageOfEach<T, U>(s: seq<T>, f: T -> U, limit: Option<int>, offset: int)
    ensures Each(Page(s, limit, offset), f) == Page(Each(s, f), limit, offset)
  {
    var off := if offset < 0 then 0 else offset;
    var lo := Min(off, |s|);
    var hi := if limit.None? then |s| else Min(Max(0, off) + Max(0, limit.value), |s|);
    assert Page(s, limit, offset) == s[lo..hi];
    assert Page(Each(s, f), limit, offset) == Each(s, f)[lo..hi];
    EachSlice(s, f, lo, hi);
  }

  /** Tagging commutes with taking a page. */
  lemma PageOfTagged(s: seq<Entry>, limit: Option<int>, offset: int, tag: string)
    ensures TagAll(Page(s, limit, offset), tag) == Page(TagAll(s, tag), limit, offset)
  {
    PageOfEach(s, Tagger(tag), limit, offset);
  }

  /** A page is the slice `[offset : offset + limit]` (or `[offset:]`) of
      the whole ranking, which holds every entry once, in stable order. */
  lemma RankedPageIsSlice(entries: seq<Entry>, tag: string, limit: Option<int>, offset: int)
    ensures RankedPage(entries, tag, None, 0) ==
      if RankingsReadable(entries) then Ok(TagAll(SortBy(entries, RankOrder), tag)) else RankingNotInt
    ensures RankedPage(entries, tag, limit, offset) ==
      match RankedPage(entries, tag, None, 0)
      case RankingNotInt => RankingNotInt
      case Ok(items) => Ok(Page(items, limit, offset))
  {
    if entries != [] && RankingsReadable(entries) {
      var sorted := SortBy(entries, RankOrder);
      assert Page(sorted, None, 0) == sorted;
      PageOfTagged(sorted, limit, offset, tag);
    }
  }

  /** The body of `get_company_nth_rank` once the rank is positive and the
      entries are selected. */
  function RankedNth(entries: seq<Entry>, rank: int, tag: string): (r: Outcome<Option<Entry>>)
    ensures r.RankingNotInt? <==> !RankingsReadable(entries)
    ensures r == Ok(None) <==> RankingsReadable(entries) && (rank > |entries| || rank <= 0)
    ensures r.Ok? && r.value.Some? ==> exists e :: e in entries && r.value.value == Tagged(e, tag)
  {
    if entries == [] then Ok(None)
    else match SortByRanking(entries)
      case None => RankingNotInt
      case Some(sorted) =>
        if rank > |sorted| then Ok(None)
        else if rank <= 0 then Ok(None)
        else
          assert sorted[rank - 1] in multiset(entries);
          Ok(Some(Tagged(sorted[rank - 1], tag)))
  }

  /** Rank `k` is item `k` of the whole ranking. */
  lemma RankedNthInPage(entries: seq<Entry>, rank: int, tag: string)
    requires rank >= 1
    ensures RankedNth(entries, rank, tag) ==
      match RankedPage(entries, tag, None, 0)
      case RankingNotInt => RankingNotInt
      case Ok(items) => Ok(if rank <= |items| then Some(items[rank - 1]) else None)
  {
    RankedPageIsSlice(entries, tag, None, 0);
  }

  /** The body of `get_industry_companies` once its entries are filtered. */
  function RankedNames(filtered: seq<Entry>): (r: Outcome<seq<string>>)
    ensures r.RankingNotInt? <==> !RankingsReadable(filtered)
    ensures r.Ok? ==> forall n :: n in r.value <==> exists e :: e in filtered && CompanyNameOf(e) == Some(n)
  {
    if filtered == [] then Ok([])
    else match SortByRanking(filtered)
      case None => RankingNotInt
      case Some(sorted) =>
        forall n ensures n in FilterMap(sorted, CompanyNameOf) <==>
          exists e :: e in filtered && CompanyNameOf(e) == Some(n)
        {
          FilterMapMembers(sorted, CompanyNameOf, n);
          FilterMapMembers(filtered, CompanyNameOf, n);
          assert forall e :: e in sorted <==> e in filtered by {
            assert forall e :: e in sorted <==> e in multiset(sorted);
          }
        }
        Ok(FilterMap(sorted, CompanyNameOf))
  }

  lemma {:induction false} NamesOfTagged(s: seq<Entry>, tag: string)
    ensures FilterMap(TagAll(s, tag), CompanyNameOf) == FilterMap(s, CompanyNameOf)
  {
    if s != [] {
      var n := |s| - 1;
      assert TagAll(s, tag)[..n] == TagAll(s[..n], tag);
      NamesOfTagged(s[..n], tag);
      TaggedName(s[n], tag);
    }
  }

  /** The names are those of the whole ranking, in ranking order. */
  lemma RankedNamesOfPage(entries: seq<Entry>, tag: string)
    ensures RankedNames(entries) ==
      match RankedPage(entries, tag, None, 0)
      case RankingNotInt => RankingNotInt
      case Ok(items) => Ok(FilterMap(items, CompanyNameOf))
  {
    RankedPageIsSlice(entries, tag, None, 0);
    if entries != [] && RankingsReadable(entries) {
      NamesOfTagged(SortBy(entries, RankOrder), tag);
    }
  }

  /** `get_industry_companies`: the names of the selected entries in
      ranking order. An industry without scores yields no names at all:
      the code has no fallback to `top_companies`. */
  function IndustryCompanies(doc: Document, industry: string, year: Option<string>, month: Option<int>): (r: Outcome<seq<string>>)
    ensures ScoresForIndustry(doc, industry) == [] ==> r == Ok([])
    ensures r.RankingNotInt? <==> !RankingsReadable(Selected(doc, industry, year, month))
    ensures r.Ok? ==> forall n :: n in r.value <==>
      exists e :: e in Selected(doc, industry, year, month) && CompanyNameOf(e) == Some(n)
  {
    var (y, m) := DefaultPeriod(year, month, LatestForIndustry(doc, industry));
    var scores := ScoresForIndustry(doc, industry);
    if scores == [] then
      assert FilterEntries(scores, y, m) == [];
      Ok([])
    else RankedNames(FilterEntries(scores, y, m))
  }

  /** `get_company_nth_rank`: the entry at 1-based position `rank` of the
      ranking, tagged with the upper-cased industry; `None` for a
      non-positive rank, an empty selection or a rank past the end. */
  function NthRank(doc: Document, rank: int, industry: string, year: Option<string>, month: Option<int>): (r: Outcome<Option<Entry>>)
    ensures rank <= 0 ==> r == Ok(None)
    ensures r == Ok(None) <==>
      rank <= 0 || (RankingsReadable(Selected(doc, industry, year, month)) && rank > |Selected(doc, industry, year, month)|)
    ensures r.Ok? && r.value.Some? ==>
      exists e :: e in Selected(doc, industry, year, month) && r.value.value == Tagged(e, Upper(industry))
  {
    if rank <= 0 then Ok(None)
    else RankedNth(Selected(doc, industry, year, month), rank, Upper(industry))
  }

  /** `get_industry_rankings`: the ranking, tagged with the upper-cased
      industry, from the offset to the end or for `limit` items. */
  function IndustryRankings(doc: Document, industry: string, limit: Option<int>, offset: int,
                            year: Option<string>, month: Option<int>): (r: Outcome<seq<Entry>>)
    ensures r.RankingNotInt? <==> !RankingsReadable(Selected(doc, industry, year, month))
    ensures r.Ok? && limit.Some? ==> |r.value| <= Max(0, limit.value)
  {
    RankedPage(Selected(doc, industry, year, month), Upper(industry), limit, offset)
  }

  /** A page of `get_industry_rankings` is ascending by ranking and tagged. */
  lemma RankingsOrdered(doc: Document, industry: string, limit: Option<int>, offset: int,
                        year: Option<string>, month: Option<int>)
    ensures var r := IndustryRankings(doc, industry, limit, offset, year, month);
      r.Ok? ==> RankAscending(r.value)
    ensures var r := IndustryRankings(doc, industry, limit, offset, year, month);
      r.Ok? ==> forall e :: e in r.value ==> "period" !in e && GetOr(e, "industry", VNull) == VStr(Upper(industry))
  {
    RankedPageOrdered(Selected(doc, industry, year, month), Upper(industry), limit, offset);
  }

  /** A page is a slice of the whole ranking. */
  lemma RankingsPage(doc: Document, industry: string, limit: Option<int>, offset: int,
                     year: Option<string>, month: Option<int>)
    ensures IndustryRankings(doc, industry, limit, offset, year, month) ==
      match IndustryRankings(doc, industry, None, 0, year, month)
      case RankingNotInt => RankingNotInt
      case Ok(items) => Ok(Page(items, limit, offset))
  {
    RankedPageIsSlice(Selected(doc, industry, year, month), Upper(industry), limit, offset);
  }

  /** `get_company_nth_rank(k)` is item `k` of the whole ranking. */
  lemma NthRankInRanking(doc: Document, rank: int, industry: string, year: Option<string>, month: Option<int>)
    requires rank >= 1
    ensures NthRank(doc, rank, industry, year, month) ==
      match IndustryRankings(doc, industry, None, 0, year, month)
      case RankingNotInt => RankingNotInt
      case Ok(items) => Ok(if rank <= |items| then Some(items[rank - 1]) else None)
  {
    RankedNthInPage(Selected(doc, industry, year, month), rank, Upper(industry));
  }

  /** `get_industry_companies` lists the names of the whole ranking, in
      ranking order, skipping entries without a truthy company. */
  lemma CompaniesAreRankingNames(doc: Document, industry: string, year: Option<string>, month: Option<int>)
    ensures IndustryCompanies(doc, industry, year, month) ==
      match IndustryRankings(doc, industry, None, 0, year, month)
      case RankingNotInt => RankingNotInt
      case Ok(items) => Ok(FilterMap(items, CompanyNameOf))
  {
    RankedNamesOfPage(Selected(doc, industry, year, month), Upper(industry));
  }
}
