/**
 * ASCII models of the Python string builtins the query layer relies on:
 * `str.strip()`, `str.lower()`, `str.upper()`, `str.isdigit()`, `int(s)` for
 * a string `s`, `str(n)` for an integer `n`, and the substring test `a in b`.
 * The functions carry no postconditions; what they guarantee is stated by
 * the lemmas beside them, so that callers pay for those facts only where
 * they use them.
 */
module PyText {
  import opened Optional

  /** `c.isspace()` for ASCII: tab, line feed, vertical tab, form feed,
      carriage return, the separators 0x1C-0x1F and the space. */
  predicate IsSpace(c: char) {
    var n := c as int;
    (9 <= n <= 13) || (28 <= n <= 32)
  }

  /** Drops the leading whitespace of `s`. */
  function TrimStart(s: string): string {
    if s != [] && IsSpace(s[0]) then TrimStart(s[1..]) else s
  }

  /** Drops the trailing whitespace of `s`. */
  function TrimEnd(s: string): string {
    if s != [] && IsSpace(s[|s| - 1]) then TrimEnd(s[..|s| - 1]) else s
  }

  /** `s.strip()`. */
  function Strip(s: string): string {
    TrimEnd(TrimStart(s))
  }

  /** `TrimStart` removes a prefix made of whitespace and stops at the first
      other character. */
  lemma {:induction false} TrimStartSpec(s: string)
    ensures |TrimStart(s)| <= |s| && TrimStart(s) == s[|s| - |TrimStart(s)|..]
    ensures forall i :: 0 <= i < |s| - |TrimStart(s)| ==> IsSpace(s[i])
    ensures TrimStart(s) == [] || !IsSpace(TrimStart(s)[0])
  {
    if s != [] && IsSpace(s[0]) {
      var u := s[1..];
      var t := TrimStart(u);
      assert TrimStart(s) == t;
      TrimStartSpec(u);
      var k := |u| - |t|;
      assert t == u[k..];
      assert u[k..] == s[k + 1..];
      forall i | 0 <= i < k + 1 ensures IsSpace(s[i]) {
        if i > 0 {
          assert s[i] == u[i - 1];
        }
      }
    }
  }

  /** `TrimEnd` removes a suffix made of whitespace and stops at the last
      other character. */
  lemma {:induction false} TrimEndSpec(s: string)
    ensures |TrimEnd(s)| <= |s| && TrimEnd(s) == s[..|TrimEnd(s)|]
    ensures forall i :: |TrimEnd(s)| <= i < |s| ==> IsSpace(s[i])
    ensures TrimEnd(s) == [] || !IsSpace(TrimEnd(s)[|TrimEnd(s)| - 1])
  {
    if s != [] && IsSpace(s[|s| - 1]) {
      TrimEndSpec(s[..|s| - 1]);
    }
  }

  /** `s.strip()` is the slice of `s` left once the whitespace around it is
      removed: it neither starts nor ends with whitespace, and it is empty
      exactly when `s` is all whitespace. */
  lemma StripSpec(s: string)
    ensures |Strip(s)| <= |s|
    ensures Strip(s) == [] || (!IsSpace(Strip(s)[0]) && !IsSpace(Strip(s)[|Strip(s)| - 1]))
    ensures Strip(s) == [] <==> forall i :: 0 <= i < |s| ==> IsSpace(s[i])
    ensures exists a, b :: (0 <= a <= b <= |s| && Strip(s) == s[a..b] &&
      (forall i :: 0 <= i < a ==> IsSpace(s[i])) && (forall i :: b <= i < |s| ==> IsSpace(s[i])))
  {
    var t := TrimStart(s);
    TrimStartSpec(s);
    TrimEndSpec(t);
    assert Strip(s) != [] ==> Strip(s)[0] == t[0];
    assert Strip(s) == [] ==> t == [];
    var a := |s| - |t|;
    var b := a + |Strip(s)|;
    assert Strip(s) == s[a..b];
    assert forall i :: b <= i < |s| ==> IsSpace(s[i]) by {
      forall i | b <= i < |s| ensures IsSpace(s[i]) {
        assert s[i] == t[i - a];
      }
    }
  }

  /** A string without whitespace at either end is its own `strip()`. */
  lemma StripUnpadded(s: string)
    requires s == [] || (!IsSpace(s[0]) && !IsSpace(s[|s| - 1]))
    ensures Strip(s) == s
  {
  }

  function LowerChar(c: char): char {
    if 'A' <= c <= 'Z' then (c as int + 32) as char else c
  }

  function UpperChar(c: char): char {
    if 'a' <= c <= 'z' then (c as int - 32) as char else c
  }

  /** `s.lower()` on ASCII letters; other characters are kept. */
  function Lower(s: string): string {
    if s == [] then [] else [LowerChar(s[0])] + Lower(s[1..])
  }

  /** `s.upper()` on ASCII letters; other characters are kept. */
  function Upper(s: string): string {
    if s == [] then [] else [UpperChar(s[0])] + Upper(s[1..])
  }

  /** `lower()` maps every character on its own and keeps the length. */
  lemma {:induction false} LowerSpec(s: string)
    ensures |Lower(s)| == |s|
    ensures forall i :: 0 <= i < |s| ==> Lower(s)[i] == LowerChar(s[i])
  {
    if s != [] {
      LowerSpec(s[1..]);
    }
  }

  /** `upper()` maps every character on its own and keeps the length. */
  lemma {:induction false} UpperSpec(s: string)
    ensures |Upper(s)| == |s|
    ensures forall i :: 0 <= i < |s| ==> Upper(s)[i] == UpperChar(s[i])
  {
    if s != [] {
      UpperSpec(s[1..]);
    }
  }

  /** Upper-casing forgets the case of the input: `s.lower().upper() == s.upper()`,
      so two spellings of an industry code that differ only in case select
      the same industry. */
  lemma UpperOfLower(s: string)
    ensures Upper(Lower(s)) == Upper(s)
  {
    LowerSpec(s);
    UpperSpec(Lower(s));
    UpperSpec(s);
    assert forall i :: 0 <= i < |s| ==> UpperChar(LowerChar(s[i])) == UpperChar(s[i]);
  }

  /** `needle in hay` for two strings. */
  predicate Contains(hay: string, needle: string) {
    needle <= hay || (hay != [] && Contains(hay[1..], needle))
  }

  /** `needle in hay` holds exactly when `needle` occurs at some offset of `hay`. */
  lemma {:induction false} ContainsAt(hay: string, needle: string)
    ensures Contains(hay, needle) <==> exists i :: 0 <= i <= |hay| && needle <= hay[i..]
  {
    if Contains(hay, needle) {
      if needle <= hay {
        assert needle <= hay[0..];
      } else {
        ContainsAt(hay[1..], needle);
        var i :| 0 <= i <= |hay[1..]| && needle <= hay[1..][i..];
        assert hay[1..][i..] == hay[i + 1..];
      }
    }
    if exists i :: 0 <= i <= |hay| && needle <= hay[i..] {
      var i :| 0 <= i <= |hay| && needle <= hay[i..];
      if i > 0 {
        assert hay[1..][i - 1..] == hay[i..];
        ContainsAt(hay[1..], needle);
      }
    }
  }

  predicate IsDigit(c: char) {
    '0' <= c <= '9'
  }

  predicate AllDigits(s: string) {
    forall i :: 0 <= i < |s| ==> IsDigit(s[i])
  }

  /** `s.isdigit()` on ASCII: non-empty and made of decimal digits only. */
  predicate IsDigits(s: string) {
    |s| > 0 && AllDigits(s)
  }

  /** The number a string of decimal digits denotes. */
  function DigitsValue(s: string): nat
    requires AllDigits(s)
  {
    if s == [] then 0 else DigitsValue(s[..|s| - 1]) * 10 + (s[|s| - 1] as int - '0' as int)
  }

  /** A digit or a grouping underscore. */
  predicate IsDigitOrUnderscore(c: char) {
    IsDigit(c) || c == '_'
  }

  /** The digits of a decimal literal as `int()` accepts them: one or more
      digits, where a single underscore may separate two digits
      (`"1_000"`), but none may lead, trail or follow another. */
  predicate IsGrouped(t: string) {
    |t| > 0 && IsDigit(t[0]) && IsDigit(t[|t| - 1]) &&
    (forall i :: 0 <= i < |t| ==> IsDigitOrUnderscore(t[i])) &&
    (forall i :: 0 <= i < |t| - 1 && t[i] == '_' ==> IsDigit(t[i + 1]))
  }

  /** The number a string of digits and underscores denotes, the
      underscores left out. */
  function GroupedValue(t: string): nat
    requires forall i :: 0 <= i < |t| ==> IsDigitOrUnderscore(t[i])
  {
    if t == [] then 0
    else if t[|t| - 1] == '_' then GroupedValue(t[..|t| - 1])
    else
      assert IsDigitOrUnderscore(t[|t| - 1]);
      GroupedValue(t[..|t| - 1]) * 10 + (t[|t| - 1] as int - '0' as int)
  }

  /** Without underscores, the grouped reading is the plain one. */
  lemma {:induction false} GroupedDigits(s: string)
    requires AllDigits(s)
    ensures IsDigits(s) ==> IsGrouped(s)
    ensures GroupedValue(s) == DigitsValue(s)
  {
    if s != [] {
      GroupedDigits(s[..|s| - 1]);
    }
  }

  /** `int(s)` for a string `s`: whitespace around the number is ignored, one
      optional sign, then the digits, possibly grouped by underscores; `None`
      where Python raises `ValueError`. */
  function ParseInt(s: string): Option<int> {
    ParseSigned(Strip(s))
  }

  /** The part of `int(s)` after the whitespace is gone: a sign, then digits. */
  function ParseSigned(t: string): Option<int> {
    if |t| > 0 && (t[0] == '+' || t[0] == '-') then
      if IsGrouped(t[1..]) then
        var v: int := GroupedValue(t[1..]);
        Some(if t[0] == '-' then -v else v)
      else None
    else if IsGrouped(t) then Some(GroupedValue(t))
    else None
  }

  /** A digit string is read by `int()` as the number it denotes, so
      `int(y) if y.isdigit() else 0` never raises. */
  lemma ParseDigits(s: string)
    requires IsDigits(s)
    ensures ParseInt(s) == Some(DigitsValue(s))
  {
    assert IsDigit(s[0]) && IsDigit(s[|s| - 1]);
    StripUnpadded(s);
    GroupedDigits(s);
  }

  /** `int()` accepts underscores between digits: `int("1_000") == 1000`. */
  lemma ParseGroupedExample()
    ensures ParseInt("1_000") == Some(1000)
    ensures ParseInt("1__000") == None && ParseInt("_1") == None && ParseInt("1_") == None
  {
    StripUnpadded("1_000");
    assert GroupedValue("1_0") == 10 by {
      assert "1_0"[..2] == "1_" && "1_"[..1] == "1" && "1"[..0] == "";
    }
    assert "1_00"[..3] == "1_0";
    assert "1_000"[..4] == "1_00";
    StripUnpadded("1__000");
    assert "1__000"[1] == '_' && "1__000"[2] == '_';
    StripUnpadded("_1");
    StripUnpadded("1_");
  }

  function DigitChar(d: nat): char
    requires d < 10
  {
    ('0' as int + d) as char
  }

  /** `str(n)` for a natural number. */
  function NatToString(n: nat): string {
    if n < 10 then [DigitChar(n)] else NatToString(n / 10) + [DigitChar(n % 10)]
  }

  /** `str(n)` is decimal digits without a leading zero denoting `n`. */
  lemma {:induction false} NatToStringSpec(n: nat)
    ensures IsDigits(NatToString(n)) && DigitsValue(NatToString(n)) == n
    ensures NatToString(n)[0] == '0' ==> NatToString(n) == "0"
  {
    if n >= 10 {
      NatToStringSpec(n / 10);
      var r := NatToString(n);
      assert r[..|r| - 1] == NatToString(n / 10);
    }
  }

  /** `str(n)` for an integer. */
  function IntToString(n: int): string {
    if n < 0 then "-" + NatToString(-n) else NatToString(n)
  }

  /** `int(str(n)) == n`. */
  lemma IntToStringRoundTrip(n: int)
    ensures ParseInt(IntToString(n)) == Some(n)
  {
    if n < 0 {
      var d := NatToString(-n);
      NatToStringSpec(-n);
      var r := "-" + d;
      assert r[1..] == d;
      assert r[|r| - 1] == d[|d| - 1] && IsDigit(d[|d| - 1]);
      StripUnpadded(r);
      GroupedDigits(d);
      assert IsGrouped(d) && GroupedValue(d) == -n;
      assert r[0] == '-';
      assert ParseSigned(r) == Some(n);
    } else {
      NatToStringSpec(n);
      ParseDigits(NatToString(n));
    }
  }
}
