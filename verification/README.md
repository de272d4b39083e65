# Industry index query layer, modelled in Dafny

The service answers questions about an industry index that is published
upstream as one JSON document. It has three parts: a list of `industries`,
a list of per-industry overview objects (`data`, each with a `name` and a
`top_companies` list), and `scoresData`. The last maps an upper-case
industry key to that industry's ranking entries. An entry is a JSON object
with `company`, `ranking`, `year` and `period` (the month) among its
fields. The module `app/services/service_industries.py` loads the document
through a 600-second TTL cache. Every query of the HTTP layer is a function
over that document:

- the industry list and an industry's overview and top companies;
- an industry's ranked company names, its ranking page and its n-th entry;
- one company's entries across industries, its first matching entry, and
  a batch lookup;
- a substring search over company names;
- the available `(year, month)` periods and the latest period of an
  industry or a company;
- a discovery payload with one live example of each shape.

When neither a year nor a month is given, most queries default to the
latest period.

The model follows the module's own structure:

| file | module | what it holds |
|---|---|---|
| `option.dfy` | `Optional` | `Option` |
| `text.dfy` | `PyText` | ASCII `strip`, `lower`, `upper`, the substring test `in`, `int(str)` and `str(int)` |
| `dataset.dfy` | `Dataset` | the document, JSON scalar values and the coercions `str(x)`, `int(x)` and `dict.get` applied to them |
| `seqs.dfy` | `Seqs` | list comprehensions, a Python `set` kept in insertion order, a dict comprehension in which the last entry wins, and the loop that fills a dict |
| `sorting.dfy` | `StableSort` | Python's stable `sorted`, by a key |
| `loader.dfy` | `Loader` | `_load_data`: the cache globals as a class, plus a pure step function and its laws |
| `entries.dfy` | `Entries` | the year/month filter, `_transform_entry`, the ranking sort key |
| `periods.dfy` | `Periods` | `get_available_periods` and the two "latest period" helpers, as loops and as specifications |
| `overview.dfy` | `Overviews` | `get_industries`, `get_industry_overview`, `get_top_companies`, `_get_scores_for_industry` |
| `scan.dfy` | `Scan` | the shared "for every industry, for every entry" double loop and its algebra |
| `rankings.dfy` | `Rankings` | `get_industry_companies`, `get_industry_rankings`, `get_company_nth_rank` |
| `companies.dfy` | `Companies` | `get_company_entries`, `get_company_data`, `get_companies_data` |
| `search.dfy` | `Search` | `search_companies`, as a specification and as the early-returning loop |
| `discover.dfy` | `Discover` | `get_discover_schema` |

Each query takes the document as an explicit parameter. `Loader.TtlCache`
models where that document comes from. A query whose `sorted` call would
raise, because some entry's `ranking` is not an integer, yields the
outcome `RankingNotInt` and not a value. Where the source is a loop that
updates variables, the model has a `method` with that loop. Each such
method is proved equal to a specification function. The lemmas state what
the source promises about those functions.

Where a docstring and the code disagree, the model follows the code:

- `_load_data` makes one POST request and never a GET. When the response
  is not ok, `_fetch_remote` falls off its end, so `None` is cached with a
  fresh timestamp. That `None` is never served from the cache: the
  freshness test demands a value, so the next call fetches again.
- `get_industry_companies` has no fallback to `top_companies`. An
  industry without scores has no names.
- `search_companies` with `limit <= 0` still returns the first hit,
  because the limit is checked only after an append.
- Without a year or month, search filters an industry by its latest
  period only when the industry is listed in `industries` and has a
  latest period. Every other industry is searched unfiltered.
- The company's latest year is rendered as `str(int(year))`.
  `get_company_data` then compares it with `str(year)` of each entry. So an
  entry whose year is written non-canonically (`"02024"`, `" 2024"`) is not
  found under the default period. `CompanyDataFound` states the exact
  condition.

## Model

| member | source | states |
|---|---|---|
| `Loader.TtlCache.constructor` | app/services/service_industries.py:13-15 | the cache starts empty, with no timestamp and no fetch made |
| `Loader.TtlCache.Load` | app/services/service_industries.py:18-37 | one call updates the globals and returns exactly as the step function says; a request is made exactly when the cache is not fresh |
| `Loader.Step` | app/services/service_industries.py:23-37 | one call of `_load_data`: a fresh cache is returned unchanged; otherwise the fetch's exception propagates with the globals untouched, or its value (`None` for a not-ok response) is stored with the time `now` and returned |
| `Loader.HitIgnoresUpstream` | app/services/service_industries.py:24-26 | while the cache holds a value younger than 600 seconds, the call returns it and changes nothing, whatever the upstream would answer |
| `Loader.MissStoresFetch` | app/services/service_industries.py:28-37 | on a miss: an exception leaves the cache unchanged and propagates; a response that is not ok stores `None` at `now`; an ok body is stored at `now` and returned |
| `Loader.FetchedDocumentStaysFresh` | app/services/service_industries.py:24-26 | a document fetched at `t1` is served without a request at any `t2` in `[t1, t1 + 600)` |
| `Loader.NotOkForcesRefetch` | app/services/service_industries.py:25 | after a not-ok response the cache is never fresh, so the next call fetches again |
| `Overviews.Industries` | app/services/service_industries.py:40-44 | the result lists the document's industries, element by element |
| `Overviews.IndustryOverview` | app/services/service_industries.py:47-53 | `None` exactly when no item's `name` matches case-insensitively; otherwise the first matching item |
| `Overviews.OverviewCaseInsensitive` | app/services/service_industries.py:51 | the overview lookup gives the same answer for an industry and its lower-cased form |
| `Overviews.TopCompanies` | app/services/service_industries.py:270-275 | a non-empty result is the `top_companies` of a matching overview, and of the first one; no matching overview gives `[]` |
| `Overviews.ScoresForIndustry` | app/services/service_industries.py:56-59 | a present upper-cased industry key gives exactly the list stored under it; a non-empty result is such a list; a missing key gives `[]` |
| `Overviews.ScoresCaseInsensitive` | app/services/service_industries.py:59 | the scores lookup ignores the case of the industry |
| `Entries.MatchesYearMonth` | app/services/service_industries.py:308-319 | an entry matches when `str(year)` equals the year filter (if any) and `int(period)` equals the month filter (if any); an unreadable period never matches a month filter |
| `Entries.KeepMatchingMembers` | app/services/service_industries.py:322-326 | an entry survives the filter iff it is in the input and matches the year/month filter |
| `Entries.KeepMatchingAppend` | app/services/service_industries.py:326 | filtering distributes over concatenation, so order is kept |
| `Entries.KeepMatchingUnfiltered` | app/services/service_industries.py:324-325 | with no year and no month, the list comes back unchanged |
| `Entries.FilterEntries` | app/services/service_industries.py:322-326 | the early return and the comprehension together keep exactly the matching entries, in order |
| `Entries.TransformEntry` | app/services/service_industries.py:329-334 | the result has no `period`; `period`'s value moves to `month`; the key set changes only by that rename; an entry without `period` is unchanged |
| `Entries.Tagged` | app/services/service_industries.py:129-130 | a transformed entry gets `industry` set to the given key; `period` moves to `month`, an existing `month` is kept when there is no `period`, and every other field is kept |
| `Entries.SortByRanking` | app/services/service_industries.py:109 | `sorted` raises iff some entry's `ranking` is not an integer; otherwise the result is a permutation, ascending by ranking, and keeps the input order among equal rankings |
| `StableSort.SortBy` | app/services/service_industries.py:304 | `sorted(..., key=...)`: a sorted permutation that keeps the input order within each key |
| `StableSort.StableSortUnique` | app/services/service_industries.py:304 | a sorted list that keeps the input order within each key and has the same elements is unique, so `SortBy` is the stable sort |
| `StableSort.SortByIsTheStableSort` | app/services/service_industries.py:261 | any sorted, stable permutation of the input equals `SortBy` |
| `PyText.StripSpec` | app/services/service_industries.py:72 | `strip()` is a slice `s[a:b]` of the input with only whitespace before `a` and after `b`, neither end of it whitespace; the result is empty iff the input is all whitespace |
| `PyText.UpperOfLower` | app/services/service_industries.py:51 | upper-casing forgets a previous lower-casing |
| `PyText.ContainsAt` | app/services/service_industries.py:236 | `needle in hay` iff `needle` occurs at some position of `hay` |
| `PyText.ParseGroupedExample` | app/services/service_industries.py:298 | `int()` reads `"1_000"` as 1000 and rejects a doubled, leading or trailing underscore |
| `PyText.IntToStringRoundTrip` | app/services/service_industries.py:90 | `int(str(y)) == y` for every integer |
| `Dataset.ScoresFor` | app/services/service_industries.py:58-59 | a present key gives exactly the list stored under it (its first occurrence); a non-empty result is such a list; a missing key gives `[]` |
| `Dataset.InAllEntries` | app/services/service_industries.py:289-291 | an entry is in the concatenation of every industry's list iff it is in one of them |
| `Periods.PeriodOf` | app/services/service_industries.py:293-302 | the pair an entry contributes: `(str(year), int(period))` when both are present and not null and `int()` accepts the period, nothing otherwise |
| `Periods.AvailablePeriods` | app/services/service_industries.py:278-305 | the periods are distinct, sorted by `(year if digits else 0, month)`, and are exactly the pairs read from the scope's entries |
| `Periods.AvailablePeriodsExact` | app/services/service_industries.py:292-302 | a period is listed iff some entry in scope has a present `year` and an integer `period` that give it |
| `Periods.ConcatEntries` | app/services/service_industries.py:289-291 | the loop's list is the entries of every industry, concatenated in document order |
| `Periods.CollectPeriods` | app/services/service_industries.py:292-302 | the loop's set holds each readable pair once, in order of first appearance |
| `Periods.GetAvailablePeriods` | app/services/service_industries.py:278-305 | the procedure returns exactly the specified period list |
| `Periods.LatestForIndustry` | app/services/service_industries.py:62-67 | `None` iff the industry has no periods; otherwise a listed period that no listed period follows |
| `Periods.LatestForIndustryIsLatest` | app/services/service_industries.py:62-67 | the same, stated over the industry's entries: the pair of one entry, and no entry's pair is later |
| `Periods.MaxPair` | app/services/service_industries.py:86-87 | the running maximum in tuple order is one of the pairs and is not below any of them |
| `Periods.LatestForCompany` | app/services/service_industries.py:70-90 | the company's greatest `(int(str(year)), int(str(period)))` pair over all industries, with the year rendered by `str`, `None` when it has none |
| `Periods.LatestCompanyPairIsLatest` | app/services/service_industries.py:76-89 | `None` iff none of the company's entries has readable `year` and `period`; otherwise the greatest such pair, taken from one of them |
| `Periods.LatestForCompanyYear` | app/services/service_industries.py:90 | the returned year string reads back as the greatest year |
| `Periods.ScanCompanyEntries` | app/services/service_industries.py:77-87 | the inner loop carries the running maximum from the entries seen before to those entries plus this industry's |
| `Periods.GetLatestPeriodForCompany` | app/services/service_industries.py:70-90 | the nested loops return exactly the company's latest period, with the year rendered as `str(y)` |
| `Scan.GatherAppend` | app/services/service_industries.py:144-150 | the double loop over all industries distributes over concatenation of the industry list |
| `Scan.GatherMembers` | app/services/service_industries.py:144-150 | an item is collected iff some entry of some industry yields it |
| `Rankings.Page` | app/services/service_industries.py:262-267 | the page is the contiguous slice starting at `max(0, offset)` clamped to the list; with a limit it has exactly `min(max(0, limit), items left after the offset)` items, i.e. it is `s[offset:offset+max(0,limit)]`; without a limit it runs to the end |
| `Rankings.Selected` | app/services/service_industries.py:253-258 | an industry's entries under its upper-cased key, filtered on the given period, or on the latest period when neither a year nor a month is given |
| `Rankings.MatchesOwnPeriod` | app/services/service_industries.py:308-319 | an entry passes the filter on the very period `get_available_periods` reads from it |
| `Rankings.LatestPeriodSelects` | app/services/service_industries.py:253-258 | when a non-empty industry has a latest period, defaulting to it keeps at least the entry that period came from |
| `Rankings.TagAll` | app/services/service_industries.py:265 | every item is its entry transformed and tagged with the industry; none has `period` |
| `Rankings.RankedPage` | app/services/service_industries.py:259-267 | raises iff a ranking is not an integer; at most `max(0, limit)` items; with no limit and no offset, every entry |
| `Rankings.RankedPageOrdered` | app/services/service_industries.py:261-267 | a page is ascending by ranking, and every item is tagged and has no `period` |
| `Rankings.PageOfTagged` | app/services/service_industries.py:265-267 | tagging and paging commute |
| `Rankings.RankedPageIsSlice` | app/services/service_industries.py:261-267 | every page is `[offset:offset+limit]` (or `[offset:]`) of the one tagged stable sort |
| `Rankings.RankedNth` | app/services/service_industries.py:198-205 | raises iff a ranking is unreadable; `None` iff the rank is outside `1..len`; a found item is a tagged input entry |
| `Rankings.RankedNthInPage` | app/services/service_industries.py:200-205 | rank `k` is item `k - 1` of the whole ranking |
| `Rankings.RankedNames` | app/services/service_industries.py:109-110 | raises iff a ranking is unreadable; a name is listed iff some entry has a truthy `company` whose stripped `str` it is |
| `Rankings.RankedNamesOfPage` | app/services/service_industries.py:109-110 | the names are those of the whole ranking, in ranking order |
| `Rankings.IndustryCompanies` | app/services/service_industries.py:93-110 | no scores gives `[]`; raises iff a selected ranking is unreadable; the names are exactly those of the selected entries |
| `Rankings.CompaniesAreRankingNames` | app/services/service_industries.py:93-110 | the names list equals the truthy names of the unpaged ranking, in order |
| `Rankings.NthRank` | app/services/service_industries.py:188-205 | a rank of 0 or below gives `None`; `None` iff the rank is outside the selection; a hit is a selected entry tagged with the upper-cased industry |
| `Rankings.NthRankInRanking` | app/services/service_industries.py:188-205 | `get_company_nth_rank(k)` is item `k` of `get_industry_rankings` without limit or offset |
| `Rankings.IndustryRankings` | app/services/service_industries.py:247-267 | raises iff a selected ranking is unreadable; at most `max(0, limit)` items |
| `Rankings.RankingsOrdered` | app/services/service_industries.py:247-267 | every page is ascending by ranking and tagged with the upper-cased industry |
| `Rankings.RankingsPage` | app/services/service_industries.py:262-267 | every page is a slice of the whole ranking |
| `Companies.CompanyEntries` | app/services/service_industries.py:135-151 | the transformed, tagged entries whose normalised company is the stripped, lower-cased name and that match the filter, over all industries in document order, with no period defaulting |
| `Companies.CompanyEntriesExact` | app/services/service_industries.py:135-151 | an item is returned iff it is an entry of some industry whose normalised company is the needle and that matches the filter, tagged with that industry's key |
| `Companies.AppendCompanyRow` | app/services/service_industries.py:145-150 | the inner loop appends exactly the row's matches, in order |
| `Companies.GetCompanyEntries` | app/services/service_industries.py:135-151 | the nested loops return exactly the specified list |
| `Companies.FirstMatchIsHead` | app/services/service_industries.py:125-132 | the early return gives the first item `get_company_entries` would give for the same period |
| `Companies.CompanyData` | app/services/service_industries.py:113-132 | the result is the first company entry of the company's latest (or the given) period, `None` when there is none |
| `Companies.CompanyDataFound` | app/services/service_industries.py:119-132 | found iff some entry of the company matches the defaulted period; what is found is such an entry, tagged |
| `Companies.IndexLookupExact` | app/services/service_industries.py:170-179 | a found item is the last entry with that normalised name, transformed and tagged; conversely, when such a last entry exists it is found unless it is the empty dict, which it never is for a non-empty name; a name that no entry has gives `None` |
| `Companies.EmptyEntryHasNoName` | app/services/service_industries.py:170-174 | the empty dict is indexed under the empty name, so an entry found under a non-empty name is truthy |
| `Companies.LookupInIndex` | app/services/service_industries.py:171-179 | the result has exactly the requested names as keys, each mapped to its index lookup |
| `Companies.LookupGlobally` | app/services/service_industries.py:183-185 | the result has exactly the requested names as keys, each mapped to `get_company_data` |
| `Companies.GetCompaniesData` | app/services/service_industries.py:154-185 | with a non-empty industry, each name maps to the lookup in that industry's selected entries; otherwise to `get_company_data`; the keys are exactly the names |
| `Search.SearchCompanies` | app/services/service_industries.py:208-244 | a blank query gives `[]`; otherwise exactly `min(max(limit, 1), number of hits)` hits, so at most `limit` when positive; the hits are a prefix of all hits in scan order, and all of them when fewer than the cap exist |
| `Search.EffectivePeriod` | app/services/service_industries.py:227-235 | the filter of an industry key: the given one when a year or month is given; otherwise the latest period of a listed industry that has one, and no filter for any other key |
| `Search.PeriodFor` | app/services/service_industries.py:227-235 | the effective year and month of an industry are its latest period when no filter was given, and the filter otherwise |
| `Search.LatestByIndustry` | app/services/service_industries.py:219-222 | without a filter, the table maps each listed industry to its latest period |
| `Search.ScanRow` | app/services/service_industries.py:225-243 | one industry's loop appends its hits in order; it either finishes below the cap or stops at exactly the cap with a prefix of them |
| `Search.SearchScan` | app/services/service_industries.py:208-244 | the procedure with its early return is exactly the specified search |
| `Search.AllHitsExact` | app/services/service_industries.py:224-241 | a hit is collected iff some entry's lower-cased name contains the needle and the entry matches its industry's effective period |
| `Search.SearchHitsMatch` | app/services/service_industries.py:236-241 | each returned hit carries an entry's name, its industry key and its ranking, for an entry that satisfies the condition |
| `Search.SearchComplete` | app/services/service_industries.py:236-244 | when fewer hits than the cap exist, every matching entry is returned |
| `Search.SearchUsesLatest` | app/services/service_industries.py:219-236 | without a filter, a hit in a listed industry with a latest period comes from an entry of that period |
| `Discover.RankingExample` | app/services/service_industries.py:352-356 | `None` iff every industry's list is empty; otherwise the first entry of the first non-empty industry, tagged with its key |
| `Discover.FindRankingExample` | app/services/service_industries.py:352-356 | the loop with its `break` returns exactly that example |
| `Discover.TopCompaniesExample` | app/services/service_industries.py:360-366 | a non-empty example list is the overview example's `top_companies` |
| `Discover.TopCompaniesFallbackRedundant` | app/services/service_industries.py:360-366 | the fallback to the overview's own list never changes the result: the example is `get_top_companies` of the first industry |
| `Discover.DiscoverSchema` | app/services/service_industries.py:338-382 | the payload lists the industries; the overview example matches the first industry; the ranking example is tagged and has no `period`; `periods` is every period; `periods_by_industry` has one key per industry, holding that industry's periods |
| `Discover.GetDiscoverSchema` | app/services/service_industries.py:338-382 | the procedure builds exactly the specified payload |
| `Discover.IndustryPeriodsWithinAll` | app/services/service_industries.py:357-371 | every period listed for an industry is among the periods listed for the whole document |

## Left out

- The HTTP request itself, its 15-second timeout, JSON decoding, and the clock. The request's outcome (an exception, a not-ok response, or a body) and the time `now` are parameters of `Loader.TtlCache.Load`. Any exception of the request or of `resp.json()` is one outcome, `FetchRaised`.
- Each query's own call to `_load_data`. A query is a function of the document the cache returned. When the cache returned `None` (after a not-ok response), the source's queries fail on `None.get` with an `AttributeError`. That failure is not modelled.
- The concurrency of module globals shared between request threads. `Loader.TtlCache` is single-threaded.
- Entry values beyond JSON scalars. Floats, lists and nested objects in an entry field are not represented. `int()` and `str()` are modelled for null, booleans, integers and strings only.
- Non-ASCII text. `strip`, `lower`, `upper` and `isdigit` are modelled on ASCII characters. Unicode whitespace, case mapping and digits are not.
- Repeated industry keys in `scoresData`. The model's document is a list of `(key, entries)` pairs, which can repeat a key; a Python dict cannot. For a document whose keys are distinct, which is every document the source can hold, the model is exact. With a repeated key, a keyed lookup (`Dataset.ScoresFor`) reads the first occurrence while the scans over all industries visit every occurrence.
- The fields of an overview item other than its scalar fields and `top_companies`. Lists and nested objects in an item are dropped, so `get_industry_overview` returns only those parts of the item.
- More than one document per query. Some queries call `_load_data` more than once: `get_industry_companies` calls it through `get_available_periods` and again through `_get_scores_for_industry`, and `search_companies` calls it once per listed industry. If the TTL expires between those calls, the source can read two different documents within one query. The model gives every query a single document.
- Top-level fields of the document that are null, or of the wrong type (`data.get(...) or []`). The document always has its three members, possibly empty.
- `top_companies` that is missing, null or empty: all three are one empty list.
- `Companies.GetCompaniesData`: the result is a map, so the order in which the source's dict lists the names is not modelled.
- `Periods.CollectPeriods`: the Python `set` is modelled as a list in first-insertion order. The source's iteration order of a set is unspecified. Only the sorted result depends on it, through the order of equal sort keys (two years that are not all digits both sort as 0).
- The Flask routes, authentication and application bootstrap, which only call into these functions.
