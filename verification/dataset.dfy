/**
 * The cached upstream document and the Python coercions the query layer
 * applies to its values (`str(x)`, `int(x)`, truthiness, `dict.get`).
 */
module Dataset {
  import opened Optional
  import opened PyText

  /** A JSON scalar as it appears as the value of a ranking-entry field. */
  datatype Value = VNull | VBool(b: bool) | VInt(i: int) | VStr(s: string)

  /** A ranking entry (a JSON object): usually `company`, `ranking`, `year`
      and `period`, plus whatever else the upstream sends. */
  type Entry = map<string, Value>

  /** One element of the document's `data` list: its scalar fields (among
      them `name`) and its `top_companies` list, which is empty when the
      field is missing, null or empty. */
  datatype Overview = Overview(fields: map<string, Value>, topCompanies: seq<Entry>)

  /** One key of `scoresData` with its list of entries. */
  datatype IndustryScores = IndustryScores(key: string, entries: seq<Entry>)

  /** The upstream payload. `scoresData` keeps the dictionary's insertion
      order, which every scan over all industries follows. */
  datatype Document = Document(industries: seq<string>, data: seq<Overview>, scoresData: seq<IndustryScores>)

  /** A publication snapshot `{ year: str, month: int }`. */
  datatype Period = Period(year: string, month: int)

  /** `entry.get(k, d)`. */
  function GetOr(e: Entry, k: string, d: Value): Value {
    if k in e then e[k] else d
  }

  /** `entry.get(k)`: a missing key reads as `None`. */
  function Get(e: Entry, k: string): Value {
    GetOr(e, k, VNull)
  }

  /** `str(v)`. */
  function PyStr(v: Value): string {
    match v
    case VNull => "None"
    case VBool(b) => if b then "True" else "False"
    case VInt(i) => IntToString(i)
    case VStr(s) => s
  }

  /** `int(v)`; `None` where Python raises `TypeError` or `ValueError`.
      A boolean is an integer in Python, so `int(True) == 1`. */
  function PyInt(v: Value): Option<int> {
    match v
    case VNull => None
    case VBool(b) => Some(if b then 1 else 0)
    case VInt(i) => Some(i)
    case VStr(s) => ParseInt(s)
  }

  /** Python truthiness of a value. */
  predicate Truthy(v: Value) {
    match v
    case VNull => false
    case VBool(b) => b
    case VInt(i) => i != 0
    case VStr(s) => s != ""
  }

  /** How every company comparison normalises a name:
      `str(entry.get("company", "")).strip().lower()`. */
  function CompanyKey(e: Entry): string {
    Lower(Strip(PyStr(GetOr(e, "company", VStr("")))))
  }

  /** `scoresData.get(key, [])`: the list stored under the key (the first
      one, were the key repeated), and `[]` for a missing key. */
  function ScoresFor(ss: seq<IndustryScores>, key: string): (r: seq<Entry>)
    ensures r != [] ==> exists i :: 0 <= i < |ss| && ss[i].key == key && ss[i].entries == r
    ensures (forall i :: 0 <= i < |ss| ==> ss[i].key != key) ==> r == []
    ensures forall i :: 0 <= i < |ss| && ss[i].key == key && (forall j :: 0 <= j < i ==> ss[j].key != key) ==>
      r == ss[i].entries
  {
    if ss == [] then []
    else if ss[0].key == key then ss[0].entries
    else
      var r := ScoresFor(ss[1..], key);
      assert forall i :: 0 <= i < |ss| && ss[i].key == key && (forall j :: 0 <= j < i ==> ss[j].key != key) ==>
        r == ss[i].entries by {
        forall i | 0 <= i < |ss| && ss[i].key == key && (forall j :: 0 <= j < i ==> ss[j].key != key)
          ensures r == ss[i].entries
        {
          assert ss[1..][i - 1] == ss[i];
          forall j | 0 <= j < i - 1 ensures ss[1..][j].key != key {
            assert ss[1..][j] == ss[j + 1];
          }
        }
      }
      assert r != [] ==> exists i :: 0 <= i < |ss| && ss[i].key == key && ss[i].entries == r by {
        if r != [] {
          var i :| 0 <= i < |ss[1..]| && ss[1..][i].key == key && ss[1..][i].entries == r;
          assert ss[i + 1] == ss[1..][i];
        }
      }
      r
  }

  /** The entries of all industries, one industry after the other, in
      `scoresData` order. */
  function AllEntries(ss: seq<IndustryScores>): seq<Entry> {
    if ss == [] then [] else ss[0].entries + AllEntries(ss[1..])
  }

  lemma {:induction false} AllEntriesAppend(a: seq<IndustryScores>, b: seq<IndustryScores>)
    ensures AllEntries(a + b) == AllEntries(a) + AllEntries(b)
  {
    if a == [] {
      assert a + b == b;
    } else {
      assert (a + b)[1..] == a[1..] + b;
      AllEntriesAppend(a[1..], b);
    }
  }

  /** Concatenating one more industry's entries. */
  lemma AllEntriesSnoc(ss: seq<IndustryScores>, i: nat)
    requires i < |ss|
    ensures AllEntries(ss[..i + 1]) == AllEntries(ss[..i]) + ss[i].entries
  {
    assert ss[..i + 1] == ss[..i] + [ss[i]];
    AllEntriesAppend(ss[..i], [ss[i]]);
    assert AllEntries([ss[i]]) == ss[i].entries + AllEntries([]);
  }

  /** An entry is among all entries exactly when some industry holds it. */
  lemma {:induction false} InAllEntries(ss: seq<IndustryScores>, e: Entry)
    ensures e in AllEntries(ss) <==> exists i :: 0 <= i < |ss| && e in ss[i].entries
  {
    if ss != [] {
      InAllEntries(ss[1..], e);
      if exists i :: 0 <= i < |ss| && e in ss[i].entries {
        var i :| 0 <= i < |ss| && e in ss[i].entries;
        if i > 0 {
          assert ss[1..][i - 1] == ss[i];
        }
      }
      if e in AllEntries(ss[1..]) {
        var i :| 0 <= i < |ss[1..]| && e in ss[1..][i].entries;
        assert ss[i + 1] == ss[1..][i];
      }
    }
  }
}
