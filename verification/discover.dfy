/**
 * `get_discover_schema`: the industries, one live example of each response
 * shape drawn from the document, and the available periods overall and per
 * industry.
 */
module Discover {
  import opened Optional
  import opened Dataset
  import opened Seqs
  import opened Entries
  import opened Periods
  import opened Overviews

  /** The payload's `industries` and `examples` members. */
  datatype Schema = Schema(
    industries: seq<string>,
    overview: Option<Overview>,
    companyRanking: Option<Entry>,
    topCompanies: seq<Entry>,
    periods: seq<Period>,
    periodsByIndustry: map<string, seq<Period>>)

  /** The industry the examples are drawn from: the first listed one. */
  function Representative(doc: Document): Option<string> {
    if doc.industries == [] then None else Some(doc.industries[0])
  }

  /** `ss[i]` is the first industry of `ss` with any entries. */
  predicate IsFirstNonEmpty(ss: seq<IndustryScores>, i: int) {
    0 <= i < |ss| && ss[i].entries != [] &&
    forall j :: 0 <= j < i ==> ss[j].entries == []
  }

  /** `company_ranking_example`: the first entry of the first industry that
      has any, in the external shape and tagged with the industry key. */
  function RankingExample(ss: seq<IndustryScores>): (r: Option<Entry>)
    ensures r.None? <==> forall i :: 0 <= i < |ss| ==> ss[i].entries == []
    ensures r.Some? ==> exists i :: IsFirstNonEmpty(ss, i) && r.value == Tagged(ss[i].entries[0], ss[i].key)
  {
    if ss == [] then None
    else if ss[0].entries != [] then
      assert IsFirstNonEmpty(ss, 0);
      Some(Tagged(ss[0].entries[0], ss[0].key))
    else
      var r := RankingExample(ss[1..]);
      if r.Some? then
        var i :| IsFirstNonEmpty(ss[1..], i) && r.value == Tagged(ss[1..][i].entries[0], ss[1..][i].key);
        assert ss[1..][i] == ss[i + 1];
        assert IsFirstNonEmpty(ss, i + 1) by {
          forall j | 0 <= j < i + 1 ensures ss[j].entries == [] {
            if j > 0 {
              assert ss[j] == ss[1..][j - 1];
            }
          }
        }
        r
      else
        assert forall i :: 0 <= i < |ss| ==> ss[i].entries == [] by {
          forall i | 0 <= i < |ss| ensures ss[i].entries == [] {
            if i > 0 {
              assert ss[i] == ss[1..][i - 1];
            }
          }
        }
        r
  }

  /** The overview example: the representative industry's overview, when
      there is a non-empty representative industry. */
  function OverviewExample(doc: Document): Option<Overview> {
    var rep := Representative(doc);
    if rep.Some? && rep.value != "" then IndustryOverview(doc.data, rep.value) else None
  }

  /** The top-companies example: the representative industry's list, and,
      when that is empty, the overview example's own list. */
  function TopCompaniesExample(doc: Document): (r: seq<Entry>)
    ensures r != [] ==> OverviewExample(doc).Some? && r == OverviewExample(doc).value.topCompanies
  {
    var rep := Representative(doc);
    var top := if rep.Some? && rep.value != "" then TopCompanies(doc, rep.value) else [];
    var overview := OverviewExample(doc);
    if top == [] && overview.Some? then overview.value.topCompanies else top
  }

  function PeriodsOf(doc: Document): string -> seq<Period> {
    k => AvailablePeriods(doc, Some(k))
  }

  /** `periods_by_industry`: each listed industry's available periods. */
  function PeriodsByIndustry(doc: Document): map<string, seq<Period>> {
    map k | k in doc.industries :: PeriodsOf(doc)(k)
  }

  /** `get_discover_schema`. */
  function DiscoverSchema(doc: Document): (r: Schema)
    ensures r.industries == doc.industries
    ensures r.overview.Some? ==>
      doc.industries != [] && r.overview.value in doc.data && NameMatches(r.overview.value, doc.industries[0])
    ensures r.companyRanking.Some? ==> "period" !in r.companyRanking.value
    ensures r.companyRanking.Some? ==> exists i :: (0 <= i < |doc.scoresData| && doc.scoresData[i].entries != [] &&
      "industry" in r.companyRanking.value && r.companyRanking.value["industry"] == VStr(doc.scoresData[i].key))
    ensures r.periods == AvailablePeriods(doc, None)
    ensures forall k :: k in r.periodsByIndustry ==> k in doc.industries
    ensures forall k :: k in doc.industries ==> k in r.periodsByIndustry
    ensures forall k :: k in r.periodsByIndustry ==> r.periodsByIndustry[k] == AvailablePeriods(doc, Some(k))
  {
    Schema(
      doc.industries,
      OverviewExample(doc),
      RankingExample(doc.scoresData),
      TopCompaniesExample(doc),
      AvailablePeriods(doc, None),
      PeriodsByIndustry(doc))
  }

  /** The fallback to the overview's own list never changes the example:
      when the representative industry's list is empty, so is the one the
      fallback reads. */
  lemma TopCompaniesFallbackRedundant(doc: Document)
    requires doc.industries != [] && doc.industries[0] != ""
    ensures TopCompaniesExample(doc) == TopCompanies(doc, doc.industries[0])
  {
    var overview := OverviewExample(doc);
    if overview.Some? {
      var i :| IsFirstMatch(doc.data, doc.industries[0], i) && doc.data[i] == overview.value;
    }
  }

  /** The first loop that finds the ranking example, with its `break`. */
  method FindRankingExample(ss: seq<IndustryScores>) returns (r: Option<Entry>)
    ensures r == RankingExample(ss)
  {
    r := None;
    var i := 0;
    while i < |ss|
      invariant 0 <= i <= |ss|
      invariant RankingExample(ss) == RankingExample(ss[i..])
    {
      assert ss[i..][1..] == ss[i + 1..];
      if ss[i].entries != [] {
        r := Some(Tagged(ss[i].entries[0], ss[i].key));
        return;
      }
      i := i + 1;
    }
  }

  /** `get_discover_schema` as the source computes it, step by step. */
  method GetDiscoverSchema(doc: Document) returns (r: Schema)
    ensures r == DiscoverSchema(doc)
  {
    var overview := OverviewExample(doc);
    var ranking := FindRankingExample(doc.scoresData);
    var periods := GetAvailablePeriods(doc, None);
    var top := TopCompaniesExample(doc);
    var byIndustry := Tabulate(doc.industries, PeriodsOf(doc));
    r := Schema(doc.industries, overview, ranking, top, periods, byIndustry);
  }

  /** Every period listed for one industry is among the periods listed for
      the whole document. */
  lemma IndustryPeriodsWithinAll(doc: Document, k: string, p: Period)
    requires k in doc.industries && p in PeriodsByIndustry(doc)[k]
    ensures p in DiscoverSchema(doc).periods
  {
    AvailablePeriodsExact(doc, Some(k), p);
    var e :| e in ScopeEntries(doc, Some(k)) && PeriodOf(e) == Some(p);
    InAllEntries(doc.scoresData, e);
    AvailablePeriodsExact(doc, None, p);
  }
}
