/**
 * The lookups that read the document directly: the configured industry
 * list, an industry's overview object, its `top_companies`, and its list
 * of ranking entries.
 */
module Overviews {
  import opened Optional
  import opened PyText
  import opened Dataset

  /** `get_industries`: the document's list of industries, as a copy. */
  function Industries(doc: Document): (r: seq<string>)
    ensures |r| == |doc.industries|
    ensures forall i :: 0 <= i < |r| ==> r[i] == doc.industries[i]
  {
    doc.industries
  }

  /** The comparison `str(item.get("name", "")).upper() == industry.upper()`. */
  predicate NameMatches(o: Overview, industry: string) {
    Upper(PyStr(GetOr(o.fields, "name", VStr("")))) == Upper(industry)
  }

  /** `data[i]` is the first item whose name matches. */
  predicate IsFirstMatch(data: seq<Overview>, industry: string, i: int) {
    0 <= i < |data| && NameMatches(data[i], industry) &&
    forall j :: 0 <= j < i ==> !NameMatches(data[j], industry)
  }

  /** `get_industry_overview`: the first item of `data` whose name matches
      the industry case-insensitively, `None` when none does. */
  function IndustryOverview(data: seq<Overview>, industry: string): (r: Option<Overview>)
    ensures r.None? <==> forall i :: 0 <= i < |data| ==> !NameMatches(data[i], industry)
    ensures r.Some? ==> exists i :: IsFirstMatch(data, industry, i) && data[i] == r.value
  {
    if data == [] then None
    else if NameMatches(data[0], industry) then
      Some(data[0])
    else
      var r := IndustryOverview(data[1..], industry);
      if r.Some? then
        var i :| IsFirstMatch(data[1..], industry, i) && data[1..][i] == r.value;
        assert data[i + 1] == r.value;
        assert forall j :: 0 <= j < i + 1 ==> !NameMatches(data[j], industry) by {
          forall j | 0 <= j < i + 1 ensures !NameMatches(data[j], industry) {
            if j > 0 {
              assert data[j] == data[1..][j - 1];
            }
          }
        }
        r
      else
        assert forall i :: 0 <= i < |data| ==> !NameMatches(data[i], industry) by {
          forall i | 0 <= i < |data| ensures !NameMatches(data[i], industry) {
            if i > 0 {
              assert data[i] == data[1..][i - 1];
            }
          }
        }
        r
  }

  /** The lookup ignores the case of the industry asked for. */
  lemma OverviewCaseInsensitive(data: seq<Overview>, industry: string)
    ensures IndustryOverview(data, Lower(industry)) == IndustryOverview(data, industry)
  {
    UpperOfLower(industry);
    assert forall o :: NameMatches(o, Lower(industry)) == NameMatches(o, industry);
    if data != [] {
      OverviewCaseInsensitive(data[1..], industry);
    }
  }

  /** `get_top_companies`: the overview's `top_companies` list, empty when
      there is no overview (an empty overview has none either). */
  function TopCompanies(doc: Document, industry: string): (r: seq<Entry>)
    ensures r != [] ==> exists i :: (0 <= i < |doc.data| && NameMatches(doc.data[i], industry) &&
      doc.data[i].topCompanies == r)
    ensures (forall i :: 0 <= i < |doc.data| ==> !NameMatches(doc.data[i], industry)) ==> r == []
    ensures forall i :: IsFirstMatch(doc.data, industry, i) ==> r == doc.data[i].topCompanies
  {
    match IndustryOverview(doc.data, industry)
    case None => []
    case Some(o) => o.topCompanies
  }

  /** `_get_scores_for_industry`: the entries stored under the upper-cased
      industry, empty when there is no such key. */
  function ScoresForIndustry(doc: Document, industry: string): (r: seq<Entry>)
    ensures r != [] ==> exists i :: (0 <= i < |doc.scoresData| &&
      doc.scoresData[i].key == Upper(industry) && doc.scoresData[i].entries == r)
    ensures (forall i :: 0 <= i < |doc.scoresData| ==> doc.scoresData[i].key != Upper(industry)) ==> r == []
    ensures forall i ::
      (0 <= i < |doc.scoresData| && doc.scoresData[i].key == Upper(industry) &&
       (forall j :: 0 <= j < i ==> doc.scoresData[j].key != Upper(industry))) ==> r == doc.scoresData[i].entries
  {
    ScoresFor(doc.scoresData, Upper(industry))
  }

  /** Industry names are looked up case-insensitively. */
  lemma ScoresCaseInsensitive(doc: Document, industry: string)
    ensures ScoresForIndustry(doc, Lower(industry)) == ScoresForIndustry(doc, industry)
  {
    UpperOfLower(industry);
  }
}
