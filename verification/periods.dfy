/**
 * Period discovery: the distinct `(year, month)` pairs of an industry or of
 * the whole document (`get_available_periods`), and the latest period of an
 * industry or of a company.
 */
module Periods {
  import opened Optional
  import opened PyText
  import opened Dataset
  import opened Seqs
  import opened StableSort

  /** How `get_available_periods` reads an entry: `year` and `period` must be
      present and not null, and `int(period)` must succeed; the pair is
      `(str(year), int(period))`. */
  function PeriodOf(e: Entry): Option<Period> {
    var y := Get(e, "year");
    var p := Get(e, "period");
    if y.VNull? || p.VNull? then None
    else match PyInt(p) {
      case None => None
      case Some(m) => Some(Period(PyStr(y), m))
    }
  }

  /** The year's sort key: `int(year) if year.isdigit() else 0`. */
  function YearKey(year: string): int {
    if IsDigits(year) then DigitsValue(year) else 0
  }

  /** The chronological sort key `(year key, month)`. */
  function PeriodOrder(p: Period): (int, int) {
    (YearKey(p.year), p.month)
  }

  /** The entries `get_available_periods(industry)` scans: those of
      `scoresData[industry.upper()]` for a non-empty industry, else those of
      all industries in order. */
  function ScopeEntries(doc: Document, industry: Option<string>): seq<Entry> {
    if industry.Some? && industry.value != "" then ScoresFor(doc.scoresData, Upper(industry.value))
    else AllEntries(doc.scoresData)
  }

  /** `get_available_periods(industry)`: the set of the scope's readable
      pairs, without repetitions and in chronological order. */
  function AvailablePeriods(doc: Document, industry: Option<string>): (r: seq<Period>)
    ensures Distinct(r)
    ensures SortedBy(r, PeriodOrder)
    ensures forall p :: p in r <==> p in FilterMap(ScopeEntries(doc, industry), PeriodOf)
  {
    var pairs := Dedup(FilterMap(ScopeEntries(doc, industry), PeriodOf));
    var r := SortBy(pairs, PeriodOrder);
    DistinctPermutation(pairs, r);
    assert forall p :: p in r <==> p in multiset(pairs);
    r
  }

  /** The periods listed for a scope are exactly the pairs its entries read
      as: each listed pair comes from an entry, and each entry whose `year`
      and `period` are present and readable contributes its pair. */
  lemma AvailablePeriodsExact(doc: Document, industry: Option<string>, p: Period)
    ensures p in AvailablePeriods(doc, industry) <==>
      exists e :: e in ScopeEntries(doc, industry) && PeriodOf(e) == Some(p)
  {
    FilterMapMembers(ScopeEntries(doc, industry), PeriodOf, p);
  }

  /** The first loop of `get_available_periods` without an industry: the
      entries of every industry, concatenated in document order. */
  method ConcatEntries(scores: seq<IndustryScores>) returns (iter: seq<Entry>)
    ensures iter == AllEntries(scores)
  {
    iter := [];
    var i := 0;
    while i < |scores|
      invariant 0 <= i <= |scores|
      invariant iter == AllEntries(scores[..i])
    {
      AllEntriesSnoc(scores, i);
      iter := iter + scores[i].entries;
      i := i + 1;
    }
    assert scores[..i] == scores;
  }

  /** The second loop of `get_available_periods`: add each readable pair to
      the set `pairs`. */
  method CollectPeriods(iter: seq<Entry>) returns (pairs: seq<Period>)
    ensures pairs == Dedup(FilterMap(iter, PeriodOf))
  {
    pairs := [];
    var j := 0;
    while j < |iter|
      invariant 0 <= j <= |iter|
      invariant pairs == Dedup(FilterMap(iter[..j], PeriodOf))
    {
      var pe := PeriodOf(iter[j]);
      DedupFilterMapStep(iter, j, PeriodOf);
      if pe.Some? && pe.value !in pairs {
        pairs := pairs + [pe.value];
      }
      j := j + 1;
    }
    assert iter[..j] == iter;
  }

  /** `get_available_periods`: pick the scope's entries, collect their
      pairs, then sort. */
  method GetAvailablePeriods(doc: Document, industry: Option<string>) returns (r: seq<Period>)
    ensures r == AvailablePeriods(doc, industry)
  {
    var iter: seq<Entry>;
    if industry.Some? && industry.value != "" {
      iter := ScoresFor(doc.scoresData, Upper(industry.value));
    } else {
      iter := ConcatEntries(doc.scoresData);
    }
    var pairs := CollectPeriods(iter);
    r := SortBy(pairs, PeriodOrder);
  }

  /** `_get_latest_period_for_industry`: the last of the industry's available
      periods, `None` when there are none. */
  function LatestForIndustry(doc: Document, industry: string): (r: Option<Period>)
    ensures r.None? <==> AvailablePeriods(doc, Some(industry)) == []
    ensures r.Some? ==> r.value in AvailablePeriods(doc, Some(industry))
    ensures r.Some? ==> forall q :: q in AvailablePeriods(doc, Some(industry)) ==>
      KeyLe(PeriodOrder(q), PeriodOrder(r.value))
  {
    var ps := AvailablePeriods(doc, Some(industry));
    if ps == [] then None
    else
      forall q | q in ps ensures KeyLe(PeriodOrder(q), PeriodOrder(ps[|ps| - 1])) {
        SortedLast(ps, PeriodOrder, q);
      }
      Some(ps[|ps| - 1])
  }

  /** The latest period of an industry in terms of its entries: `None`
      exactly when no entry of the industry has a readable pair; otherwise
      the pair of one of its entries, and no entry's pair is later. */
  lemma LatestForIndustryIsLatest(doc: Document, industry: string)
    ensures LatestForIndustry(doc, industry).None? <==>
      forall e :: e in ScopeEntries(doc, Some(industry)) ==> PeriodOf(e).None?
    ensures LatestForIndustry(doc, industry).Some? ==>
      exists e :: e in ScopeEntries(doc, Some(industry)) && PeriodOf(e) == LatestForIndustry(doc, industry)
    ensures LatestForIndustry(doc, industry).Some? ==>
      forall e :: e in ScopeEntries(doc, Some(industry)) && PeriodOf(e).Some? ==>
        KeyLe(PeriodOrder(PeriodOf(e).value), PeriodOrder(LatestForIndustry(doc, industry).value))
  {
    var s := ScopeEntries(doc, Some(industry));
    var r := LatestForIndustry(doc, industry);
    forall e | e in s && PeriodOf(e).Some?
      ensures PeriodOf(e).value in AvailablePeriods(doc, Some(industry))
    {
      AvailablePeriodsExact(doc, Some(industry), PeriodOf(e).value);
    }
    if r.Some? {
      AvailablePeriodsExact(doc, Some(industry), r.value);
    }
  }

  /** How `_get_latest_period_for_company` reads an entry:
      `(int(str(year)), int(str(period)))`, `None` where either raises. */
  function CompanyPeriod(e: Entry): Option<(int, int)> {
    match (ParseInt(PyStr(Get(e, "year"))), ParseInt(PyStr(Get(e, "period"))))
    case (Some(y), Some(m)) => Some((y, m))
    case _ => None
  }

  /** The pair the company loop takes from an entry: only entries whose
      normalised company is `needle` count. */
  function CompanyPairOf(e: Entry, needle: string): Option<(int, int)> {
    if CompanyKey(e) == needle then CompanyPeriod(e) else None
  }

  /** The running maximum of the company loop: the pair replaces the one
      kept so far when it is greater in tuple order (so among equal pairs
      the first is kept). The result is the greatest pair, `None` for none. */
  function MaxPair(ps: seq<(int, int)>): (r: Option<(int, int)>)
    ensures r.None? <==> ps == []
    ensures r.Some? ==> r.value in ps
    ensures r.Some? ==> forall i :: 0 <= i < |ps| ==> KeyLe(ps[i], r.value)
  {
    if ps == [] then None
    else
      var acc := MaxPair(ps[..|ps| - 1]);
      var p := ps[|ps| - 1];
      assert ps == ps[..|ps| - 1] + [p];
      if acc.None? || !KeyLe(p, acc.value) then Some(p) else acc
  }

  /** The greatest pair the company loop sees over `s`. */
  function LatestCompanyPair(s: seq<Entry>, needle: string): Option<(int, int)> {
    MaxPair(FilterMap(s, e => CompanyPairOf(e, needle)))
  }

  /** One step of the running maximum: `acc` is replaced by the pair read,
      if any, when that pair is greater. */
  function Advance(acc: Option<(int, int)>, read: Option<(int, int)>): Option<(int, int)> {
    match read {
      case None => acc
      case Some(p) => if acc.None? || !KeyLe(p, acc.value) then Some(p) else acc
    }
  }

  /** One iteration of the company loop over the entry `e`. */
  lemma LatestCompanyPairSnoc(s: seq<Entry>, e: Entry, needle: string)
    ensures LatestCompanyPair(s + [e], needle) ==
      Advance(LatestCompanyPair(s, needle), CompanyPairOf(e, needle))
  {
    var f := x => CompanyPairOf(x, needle);
    FilterMapSnoc(s, e, f);
    var ps := FilterMap(s, f);
    if f(e).Some? {
      assert (ps + [f(e).value])[..|ps|] == ps;
    } else {
      assert FilterMap(s + [e], f) == ps;
    }
  }

  /** The same step, with the loop's index into one industry's entries. */
  lemma LatestCompanyPairStep(seen: seq<Entry>, entries: seq<Entry>, j: nat, needle: string)
    requires j < |entries|
    ensures LatestCompanyPair(seen + entries[..j + 1], needle) ==
      Advance(LatestCompanyPair(seen + entries[..j], needle), CompanyPairOf(entries[j], needle))
  {
    assert seen + entries[..j + 1] == (seen + entries[..j]) + [entries[j]];
    LatestCompanyPairSnoc(seen + entries[..j], entries[j], needle);
  }

  /** `_get_latest_period_for_company`: the company's greatest readable pair
      over all industries, as `{ year: str(y), month: m }`. */
  function LatestForCompany(doc: Document, company: string): Option<Period> {
    match LatestCompanyPair(AllEntries(doc.scoresData), Lower(Strip(company)))
    case None => None
    case Some((y, m)) => Some(Period(IntToString(y), m))
  }

  /** The latest pair of a company in terms of its entries: `None` exactly
      when none of the entries whose name (trimmed, lower-cased) is `needle`
      has a readable pair; otherwise the pair of one of them, and no such
      pair is greater. */
  lemma LatestCompanyPairIsLatest(s: seq<Entry>, needle: string)
    ensures LatestCompanyPair(s, needle).None? <==>
      forall e :: e in s && CompanyKey(e) == needle ==> CompanyPeriod(e).None?
    ensures LatestCompanyPair(s, needle).Some? ==>
      exists e :: e in s && CompanyKey(e) == needle && CompanyPeriod(e) == LatestCompanyPair(s, needle)
    ensures LatestCompanyPair(s, needle).Some? ==>
      forall e :: e in s && CompanyKey(e) == needle && CompanyPeriod(e).Some? ==>
        KeyLe(CompanyPeriod(e).value, LatestCompanyPair(s, needle).value)
  {
    var f := e => CompanyPairOf(e, needle);
    var ps := FilterMap(s, f);
    forall e | e in s && CompanyKey(e) == needle && CompanyPeriod(e).Some?
      ensures CompanyPeriod(e).value in ps
    {
      FilterMapMembers(s, f, CompanyPeriod(e).value);
    }
    if ps != [] {
      var m := MaxPair(ps).value;
      FilterMapMembers(s, f, m);
      forall e | e in s && CompanyKey(e) == needle && CompanyPeriod(e).Some?
        ensures KeyLe(CompanyPeriod(e).value, m)
      {
        var i :| 0 <= i < |ps| && ps[i] == CompanyPeriod(e).value;
      }
    }
  }

  /** The year of a company's latest period is given back as `str(y)`, which
      `int()` reads as `y` again. */
  lemma LatestForCompanyYear(doc: Document, company: string)
    requires LatestForCompany(doc, company).Some?
    ensures ParseInt(LatestForCompany(doc, company).value.year) ==
      Some(LatestCompanyPair(AllEntries(doc.scoresData), Lower(Strip(company))).value.0)
  {
    IntToStringRoundTrip(LatestCompanyPair(AllEntries(doc.scoresData), Lower(Strip(company))).value.0);
  }

  /** The running maximum `(latest_year, latest_month)` stands for the
      pair `p`: both are unset when `p` is `None`, and equal to it otherwise. */
  predicate Tracks(latestYear: Option<int>, latestMonth: Option<int>, p: Option<(int, int)>) {
    (latestYear.None? <==> p.None?) &&
    (latestYear.Some? ==> latestMonth.Some? && p == Some((latestYear.value, latestMonth.value)))
  }

  /** The inner loop of `_get_latest_period_for_company` over one
      industry's entries, continuing the running maximum of `seen`. */
  method ScanCompanyEntries(ghost seen: seq<Entry>, entries: seq<Entry>, needle: string,
                            year0: Option<int>, month0: Option<int>)
    returns (latestYear: Option<int>, latestMonth: Option<int>)
    requires Tracks(year0, month0, LatestCompanyPair(seen, needle))
    ensures Tracks(latestYear, latestMonth, LatestCompanyPair(seen + entries, needle))
  {
    latestYear, latestMonth := year0, month0;
    var j := 0;
    assert seen + entries[..j] == seen;
    while j < |entries|
      invariant 0 <= j <= |entries|
      invariant Tracks(latestYear, latestMonth, LatestCompanyPair(seen + entries[..j], needle))
    {
      var e := entries[j];
      LatestCompanyPairStep(seen, entries, j, needle);
      if CompanyKey(e) == needle {
        match CompanyPeriod(e) {
          case Some((y, m)) =>
            var lm := if latestMonth.Some? then latestMonth.value else 0;
            if latestYear.None? || !KeyLe((y, m), (latestYear.value, lm)) {
              latestYear, latestMonth := Some(y), Some(m);
            }
          case None =>
        }
      }
      j := j + 1;
    }
    assert entries[..j] == entries;
  }

  /** `_get_latest_period_for_company`: scan every entry of every industry,
      keeping the greatest pair of the company's entries in `latest_year`
      and `latest_month`; the year is rendered back as a string. */
  method GetLatestPeriodForCompany(doc: Document, company: string) returns (r: Option<Period>)
    ensures r == LatestForCompany(doc, company)
  {
    var needle := Lower(Strip(company));
    var latestYear: Option<int> := None;
    var latestMonth: Option<int> := None;
    ghost var seen: seq<Entry> := [];
    var i := 0;
    while i < |doc.scoresData|
      invariant 0 <= i <= |doc.scoresData|
      invariant seen == AllEntries(doc.scoresData[..i])
      invariant Tracks(latestYear, latestMonth, LatestCompanyPair(seen, needle))
    {
      latestYear, latestMonth := ScanCompanyEntries(seen, doc.scoresData[i].entries, needle, latestYear, latestMonth);
      AllEntriesSnoc(doc.scoresData, i);
      seen := seen + doc.scoresData[i].entries;
      i := i + 1;
    }
    assert doc.scoresData[..i] == doc.scoresData;
    if latestYear.None? || latestMonth.None? {
      return None;
    }
    r := Some(Period(IntToString(latestYear.value), latestMonth.value));
  }

  /** The defaulting every period-aware query does first: when neither a
      year nor a month is given and a latest period exists, filter on it. */
  function DefaultPeriod(year: Option<string>, month: Option<int>, latest: Option<Period>): (Option<string>, Option<int>) {
    if year.None? && month.None? && latest.Some? then (Some(latest.value.year), Some(latest.value.month))
    else (year, month)
  }
}
