/** The string operations the application relies on: Python's `str.strip()`,
    the substring test `sub in s`, `str(n)` and `int(s)` on integers, and the
    code-point order the database sorts names by. */
module Text {
  import opened Wrappers

  /** Python's `str.isspace()`, the set `str.strip()` removes: the ASCII
      controls \t \n \v \f \r and the separators U+001C to U+001F, the
      space, NEL, NO-BREAK SPACE, OGHAM SPACE MARK, the spaces U+2000 to
      U+200A, LINE and PARAGRAPH SEPARATOR, NARROW NO-BREAK SPACE, MEDIUM
      MATHEMATICAL SPACE and IDEOGRAPHIC SPACE. */
  predicate IsSpace(c: char) {
    || '\U{0009}' <= c <= '\U{000D}'
    || '\U{001C}' <= c <= '\U{0020}'
    || c == '\U{0085}' || c == '\U{00A0}' || c == '\U{1680}'
    || '\U{2000}' <= c <= '\U{200A}'
    || c == '\U{2028}' || c == '\U{2029}' || c == '\U{202F}' || c == '\U{205F}' || c == '\U{3000}'
  }

  predicate AllSpace(s: string) {
    forall i | 0 <= i < |s| :: IsSpace(s[i])
  }

  /** Leading whitespace removed: a suffix of `s` preceded only by whitespace. */
  function StripLeft(s: string): (r: string)
    ensures |r| <= |s| && r == s[|s| - |r|..]
    ensures forall i | 0 <= i < |s| - |r| :: IsSpace(s[i])
    ensures r == [] || !IsSpace(r[0])
    decreases |s|
  {
    if s != [] && IsSpace(s[0]) then StripLeft(s[1..]) else s
  }

  /** Trailing whitespace removed: a prefix of `s` followed only by whitespace. */
  function StripRight(s: string): (r: string)
    ensures |r| <= |s| && r == s[..|r|]
    ensures forall i | |r| <= i < |s| :: IsSpace(s[i])
    ensures r == [] || !IsSpace(r[|r| - 1])
    decreases |s|
  {
    if s != [] && IsSpace(s[|s| - 1]) then StripRight(s[..|s| - 1]) else s
  }

  /** A non-empty string that neither starts nor ends with whitespace. */
  predicate NoSpaceAtEnds(s: string) {
    s != [] && !IsSpace(s[0]) && !IsSpace(s[|s| - 1])
  }

  /** `sub` occurs in `s` starting at offset `i`. */
  predicate OccursAt(s: string, sub: string, i: int) {
    0 <= i <= |s| - |sub| && s[i..i + |sub|] == sub
  }

  /** Python's `s.strip()`. The result is a slice of `s` with no whitespace at
      either end, it is empty exactly when `s` is all whitespace, and text
      that already has no whitespace at its ends is returned unchanged. */
  function Strip(s: string): (r: string)
    ensures exists i :: OccursAt(s, r, i)
    ensures r == [] || NoSpaceAtEnds(r)
    ensures r == [] <==> AllSpace(s)
    ensures s == [] || NoSpaceAtEnds(s) ==> r == s
  {
    StripSlice(s);
    StripEnds(s);
    StripRight(StripLeft(s))
  }

  lemma StripSlice(s: string)
    ensures OccursAt(s, StripRight(StripLeft(s)), |s| - |StripLeft(s)|)
    ensures StripRight(StripLeft(s)) == [] <==> AllSpace(s)
    ensures s == [] || NoSpaceAtEnds(s) ==> StripRight(StripLeft(s)) == s
  {
    var l := StripLeft(s);
    var r := StripRight(l);
    var off := |s| - |l|;
    StripOffsets(s, l, r, off);
    if r == [] {
      StripEmptyAllSpace(s, l, off);
    }
    if s != [] && !IsSpace(s[0]) && !IsSpace(s[|s| - 1]) {
      StripUnchanged(s);
    }
  }

  lemma StripEnds(s: string)
    ensures StripRight(StripLeft(s)) == [] || NoSpaceAtEnds(StripRight(StripLeft(s)))
  {
    var l := StripLeft(s);
    var r := StripRight(l);
    if r != [] {
      assert r[0] == l[0];
    }
  }

  lemma StripUnchanged(s: string)
    requires s != [] && !IsSpace(s[0]) && !IsSpace(s[|s| - 1])
    ensures StripRight(StripLeft(s)) == s
  {
    assert StripLeft(s) == s;
    assert StripRight(s) == s;
  }

  lemma StripOffsets(s: string, l: string, r: string, off: int)
    requires 0 <= off <= |s| && l == s[off..] && |r| <= |l| && r == l[..|r|]
    ensures OccursAt(s, r, off)
  {
  }

  lemma StripEmptyAllSpace(s: string, l: string, off: int)
    requires 0 <= off <= |s| && l == s[off..]
    requires forall i | 0 <= i < off :: IsSpace(s[i])
    requires forall i | 0 <= i < |l| :: IsSpace(l[i])
    ensures AllSpace(s)
  {
    forall i | 0 <= i < |s| ensures IsSpace(s[i]) {
      if i >= off {
        assert s[i] == l[i - off];
      }
    }
  }

  lemma {:induction false} StripIdempotent(s: string)
    ensures Strip(Strip(s)) == Strip(s)
  {
  }

  /** Stripping removes whitespace only: every other character of `s`
      survives, at its offset within the stripped text. */
  lemma StripKeepsNonSpace(s: string, i: nat)
    requires i < |s| && !IsSpace(s[i])
    ensures s[i] in Strip(s)
  {
    var l := StripLeft(s);
    var off := |s| - |l|;
    assert off <= i;
    assert l[i - off] == s[i];
    var r := StripRight(l);
    assert i - off < |r|;
    assert r[i - off] == s[i];
  }

  /** The whitespace `int()` skips around a number. CPython turns non-ASCII
      whitespace into a space and then skips ASCII whitespace only, so this
      is `str.isspace()` without the separators U+001C to U+001F. */
  predicate IsIntSpace(c: char) {
    IsSpace(c) && !('\U{001C}' <= c <= '\U{001F}')
  }

  function IntTrimLeft(s: string): (r: string)
    ensures |r| <= |s| && r == s[|s| - |r|..]
    ensures forall i | 0 <= i < |s| - |r| :: IsIntSpace(s[i])
    ensures r == [] || !IsIntSpace(r[0])
    decreases |s|
  {
    if s != [] && IsIntSpace(s[0]) then IntTrimLeft(s[1..]) else s
  }

  function IntTrimRight(s: string): (r: string)
    ensures |r| <= |s| && r == s[..|r|]
    ensures forall i | |r| <= i < |s| :: IsIntSpace(s[i])
    ensures r == [] || !IsIntSpace(r[|r| - 1])
    decreases |s|
  {
    if s != [] && IsIntSpace(s[|s| - 1]) then IntTrimRight(s[..|s| - 1]) else s
  }

  /** A non-empty string that neither starts nor ends with whitespace `int()` skips. */
  predicate NoIntSpaceAtEnds(s: string) {
    s != [] && !IsIntSpace(s[0]) && !IsIntSpace(s[|s| - 1])
  }

  /** `r` occurs in `s` at offset `i`, and everything of `s` before and
      after it is whitespace `int()` skips. */
  predicate IntTrimmedAt(s: string, r: string, i: int) {
    && OccursAt(s, r, i)
    && (forall j | 0 <= j < i :: IsIntSpace(s[j]))
    && (forall j | i + |r| <= j < |s| :: IsIntSpace(s[j]))
  }

  /** The text `int()` reads: `s` without the whitespace it skips at either
      end. It is a slice of `s` from which only such whitespace was removed,
      with none left at its ends, and text that has none at its ends is read
      whole. `IntTrimUnique` shows these facts determine the result. */
  function IntTrim(s: string): (r: string)
    ensures exists i :: IntTrimmedAt(s, r, i)
    ensures r == [] || NoIntSpaceAtEnds(r)
    ensures NoIntSpaceAtEnds(s) ==> r == s
  {
    IntTrimFacts(s);
    IntTrimRight(IntTrimLeft(s))
  }

  lemma IntTrimFacts(s: string)
    ensures IntTrimmedAt(s, IntTrimRight(IntTrimLeft(s)), |s| - |IntTrimLeft(s)|)
    ensures var r := IntTrimRight(IntTrimLeft(s)); r == [] || NoIntSpaceAtEnds(r)
    ensures NoIntSpaceAtEnds(s) ==> IntTrimRight(IntTrimLeft(s)) == s
  {
    var l := IntTrimLeft(s);
    var r := IntTrimRight(l);
    var off := |s| - |l|;
    StripOffsets(s, l, r, off);
    TrailingIntSpace(s, l, |r|, off);
    if r != [] {
      assert r[0] == l[0];
    }
    if NoIntSpaceAtEnds(s) {
      assert l == s;
      assert r == s;
    }
  }

  lemma TrailingIntSpace(s: string, l: string, n: nat, off: int)
    requires 0 <= off <= |s| && l == s[off..] && n <= |l|
    requires forall i | n <= i < |l| :: IsIntSpace(l[i])
    ensures forall j | off + n <= j < |s| :: IsIntSpace(s[j])
  {
    forall j | off + n <= j < |s|
      ensures IsIntSpace(s[j])
    {
      assert s[j] == l[j - off];
    }
  }

  /** Any slice of `s` left after removing only whitespace `int()` skips,
      with none of it left at its ends, is `IntTrim(s)`. */
  lemma IntTrimUnique(s: string, r: string, i: int)
    requires IntTrimmedAt(s, r, i) && (r == [] || NoIntSpaceAtEnds(r))
    ensures r == IntTrim(s)
  {
    var t := IntTrim(s);
    var k :| IntTrimmedAt(s, t, k);
    TrimmedEmptyIff(s, r, i);
    TrimmedEmptyIff(s, t, k);
    if r != [] {
      SameTrimmedSlice(s, r, i, t, k);
    }
  }

  /** Two non-empty trimmed slices of `s` start and end at the same place. */
  lemma SameTrimmedSlice(s: string, r: string, i: int, t: string, k: int)
    requires IntTrimmedAt(s, r, i) && NoIntSpaceAtEnds(r)
    requires IntTrimmedAt(s, t, k) && NoIntSpaceAtEnds(t)
    ensures r == t
  {
    assert r[0] == s[i] && t[0] == s[k];
    assert i == k;
    assert r[|r| - 1] == s[i + |r| - 1] && t[|t| - 1] == s[k + |t| - 1];
    assert |r| == |t|;
  }

  /** A trimmed slice is empty exactly when all of `s` is whitespace `int()` skips. */
  lemma TrimmedEmptyIff(s: string, r: string, i: int)
    requires IntTrimmedAt(s, r, i) && (r == [] || NoIntSpaceAtEnds(r))
    ensures r == [] <==> forall j | 0 <= j < |s| :: IsIntSpace(s[j])
  {
    if r != [] {
      assert r[0] == s[i];
    }
  }

  /** Python's `sub in s` on strings: `sub` occurs at some offset of `s`. */
  function Contains(s: string, sub: string): (r: bool)
    ensures r <==> exists i :: OccursAt(s, sub, i)
    decreases |s|
  {
    if |sub| > |s| then false
    else if s[..|sub|] == sub then assert OccursAt(s, sub, 0); true
    else
      var rest := Contains(s[1..], sub);
      ContainsStep(s, sub);
      rest
  }

  lemma ContainsStep(s: string, sub: string)
    requires |sub| <= |s| && s[..|sub|] != sub
    ensures (exists i :: OccursAt(s[1..], sub, i)) <==> (exists i :: OccursAt(s, sub, i))
  {
    if exists j :: OccursAt(s[1..], sub, j) {
      var j :| OccursAt(s[1..], sub, j);
      assert s[1..][j..j + |sub|] == s[j + 1..j + 1 + |sub|];
      assert OccursAt(s, sub, j + 1);
    }
    if exists i :: OccursAt(s, sub, i) {
      var i :| OccursAt(s, sub, i);
      assert i != 0;
      assert s[1..][i - 1..i - 1 + |sub|] == s[i..i + |sub|];
      assert OccursAt(s[1..], sub, i - 1);
    }
  }

  predicate IsDigit(c: char) {
    '0' <= c <= '9'
  }

  predicate AllDigits(s: string) {
    forall i | 0 <= i < |s| :: IsDigit(s[i])
  }

  function DigitChar(d: nat): (c: char)
    requires d < 10
    ensures IsDigit(c) && c as int - '0' as int == d
  {
    ('0' as int + d) as char
  }

  /** Decimal digits of `n`, most significant first, without leading zeros. */
  function NatToString(n: nat): (r: string)
    ensures r != [] && AllDigits(r)
    ensures |r| > 1 ==> r[0] != '0'
    decreases n
  {
    if n < 10 then [DigitChar(n)] else NatToString(n / 10) + [DigitChar(n % 10)]
  }

  /** Python's `str(n)` for an integer: a minus sign for negative numbers,
      then the digits of the magnitude without leading zeros, underscores or
      a plus sign. */
  function IntToString(n: int): (r: string)
    ensures DecimalOf(r, n)
    ensures n >= 0 ==> AllDigits(r)
    ensures n < 0 ==> r[0] == '-' && AllDigits(r[1..])
    ensures var d := if n < 0 then r[1..] else r; d != [] && (|d| > 1 ==> d[0] != '0')
  {
    var m: nat := if n < 0 then -n else n;
    NatToStringValue(m);
    if n < 0 then
      var r := "-" + NatToString(m);
      assert r[1..] == NatToString(m);
      r
    else NatToString(m)
  }

  /** A run of ASCII digits in which, as in Python's integer literals, single
      underscores may separate two digits. */
  predicate DigitGroups(t: string) {
    && t != [] && IsDigit(t[0]) && IsDigit(t[|t| - 1])
    && (forall i | 0 <= i < |t| :: IsDigit(t[i]) || t[i] == '_')
    && (forall i, j {:trigger t[i], t[j]} | 0 <= i < |t| && 0 <= j < |t| && j == i + 1 :: !(t[i] == '_' && t[j] == '_'))
  }

  /** The value of the digits of `s`, underscores skipped (leading zeros
      allowed, as Python's int() allows them). */
  function DigitsValue(s: string): nat
    requires forall i | 0 <= i < |s| :: IsDigit(s[i]) || s[i] == '_'
    decreases |s|
  {
    if s == [] then 0
    else
      var c := s[|s| - 1];
      assert IsDigit(c) || c == '_';
      if c == '_' then DigitsValue(s[..|s| - 1])
      else DigitsValue(s[..|s| - 1]) * 10 + (c as int - '0' as int)
  }

  /** A decimal text: digit groups with an optional sign. */
  predicate IsDecimal(t: string) {
    || DigitGroups(t)
    || (|t| > 1 && (t[0] == '+' || t[0] == '-') && DigitGroups(t[1..]))
  }

  /** `t` is a decimal text of `n`. */
  predicate DecimalOf(t: string, n: int) {
    || (DigitGroups(t) && n == DigitsValue(t))
    || (|t| > 1 && t[0] == '+' && DigitGroups(t[1..]) && n == DigitsValue(t[1..]))
    || (|t| > 1 && t[0] == '-' && DigitGroups(t[1..]) && n == -(DigitsValue(t[1..]) as int))
  }

  /** Python's `int(s)` on text: after the whitespace it skips at either
      end, an optional sign and ASCII digit groups. It succeeds exactly when
      the trimmed text is a decimal text of some integer, and then gives
      that integer. */
  function ParseInt(s: string): (r: Option<int>)
    ensures r.Some? <==> IsDecimal(IntTrim(s))
    ensures r.Some? ==> IntTrim(s) != [] && DecimalOf(IntTrim(s), r.value)
  {
    ParseSigned(IntTrim(s))
  }

  /** `int()` after the whitespace is stripped: an optional sign, then digit groups. */
  function ParseSigned(t: string): (r: Option<int>)
    ensures r.Some? <==> IsDecimal(t)
    ensures r.Some? ==> DecimalOf(t, r.value)
  {
    if t != [] && (t[0] == '-' || t[0] == '+') then
      var digits := t[1..];
      if DigitGroups(digits) then
        var v: int := DigitsValue(digits);
        Some(if t[0] == '-' then -v else v)
      else None
    else if DigitGroups(t) then Some(DigitsValue(t))
    else None
  }

  lemma {:induction false} NatToStringValue(n: nat)
    ensures DigitsValue(NatToString(n)) == n
    decreases n
  {
    if n >= 10 {
      NatToStringValue(n / 10);
      var s := NatToString(n);
      assert s[..|s| - 1] == NatToString(n / 10);
    }
  }

  /** `int()` accepts single underscores between digits. */
  lemma ParseIntUnderscores()
    ensures ParseInt("1_000") == Some(1000)
    ensures ParseInt("-2_5") == Some(-25)
  {
    ParseThousand();
    ParseNegativeGrouped();
  }

  lemma ParseThousand()
    ensures ParseInt("1_000") == Some(1000)
  {
    assert DigitGroups("1_000");
    ParseDigits("1_000");
    ThousandValue();
  }

  lemma ThousandValue()
    ensures DigitsValue("1_000") == 1000
  {
    assert DigitsValue("1_") == DigitsValue("1") == 1 by { assert "1_"[..1] == "1"; }
    assert DigitsValue("1_0") == 10 by { assert "1_0"[..2] == "1_"; }
    assert DigitsValue("1_00") == 100 by { assert "1_00"[..3] == "1_0"; }
    assert "1_000"[..4] == "1_00";
  }

  lemma ParseNegativeGrouped()
    ensures ParseInt("-2_5") == Some(-25)
  {
    var t := "-2_5";
    assert t[1..] == "2_5";
    assert DigitGroups("2_5");
    ParseNegative(t);
    TwentyFiveValue();
  }

  lemma TwentyFiveValue()
    ensures DigitsValue("2_5") == 25
  {
    assert DigitsValue("2_") == DigitsValue("2") == 2 by { assert "2_"[..1] == "2"; }
    assert "2_5"[..2] == "2_";
  }

  /** `int()` rejects an underscore at either end or next to another one. */
  lemma ParseIntMisplacedUnderscores()
    ensures ParseInt("1__0") == None
    ensures ParseInt("_1") == None
    ensures ParseInt("1_") == None
  {
    DoubleUnderscoreRejected();
    LeadingUnderscoreRejected();
    TrailingUnderscoreRejected();
  }

  lemma DoubleUnderscoreRejected()
    ensures ParseInt("1__0") == None
  {
    var a := "1__0";
    assert NoSpaceAtEnds(a);
    assert !DigitGroups(a) by { assert a[1] == '_' && a[2] == '_'; }
    ParseUntrimmedNone(a);
  }

  lemma LeadingUnderscoreRejected()
    ensures ParseInt("_1") == None
  {
    var a := "_1";
    assert NoSpaceAtEnds(a);
    assert !DigitGroups(a) by { assert a[0] == '_'; }
    ParseUntrimmedNone(a);
  }

  lemma TrailingUnderscoreRejected()
    ensures ParseInt("1_") == None
  {
    var a := "1_";
    assert NoSpaceAtEnds(a);
    assert !DigitGroups(a) by { assert a[1] == '_'; }
    ParseUntrimmedNone(a);
  }

  /** `strip()` and `int()` both remove the Unicode spaces, such as NO-BREAK
      SPACE and IDEOGRAPHIC SPACE, so `int()` reads a digit wrapped in them. */
  lemma ParseIntUnicodeSpace(a: char, d: char, b: char)
    requires IsIntSpace(a) && IsIntSpace(b) && IsDigit(d)
    ensures Strip([a, d, b]) == [d]
    ensures ParseInt([a, d, b]) == Some(d as int - '0' as int)
  {
    var s := [a, d, b];
    StripPadded(s);
    ParseIntPaddedDigit(s, d);
  }

  lemma ParseIntPaddedDigit(s: string, d: char)
    requires |s| == 3 && s[1] == d && IsIntSpace(s[0]) && IsIntSpace(s[2]) && IsDigit(d)
    ensures ParseInt(s) == Some(d as int - '0' as int)
  {
    IntTrimPadded(s);
    ParseTrimmedDigit(s, d);
  }

  lemma ParseTrimmedDigit(s: string, d: char)
    requires IntTrim(s) == [d] && IsDigit(d)
    ensures ParseInt(s) == Some(d as int - '0' as int)
  {
    ParseSignedDigits([d]);
    DigitValue(d);
  }

  lemma DigitValue(d: char)
    requires IsDigit(d)
    ensures DigitsValue([d]) == d as int - '0' as int
  {
    assert [d][..0] == [];
    assert DigitsValue([]) == 0;
  }

  lemma UnicodeSpacesSkipped()
    ensures IsIntSpace('\U{00A0}') && IsIntSpace('\U{3000}') && IsIntSpace('\U{2028}')
  {
  }

  /** One character padded on both sides with whitespace. */
  lemma StripPadded(s: string)
    requires |s| == 3 && IsSpace(s[0]) && IsSpace(s[2]) && !IsSpace(s[1])
    ensures Strip(s) == s[1..2]
  {
    var m := s[1..];
    assert StripLeft(s) == StripLeft(m);
    assert m[0] == s[1];
    assert StripLeft(m) == m;
    assert m[..1] == s[1..2] && m[1] == s[2];
    assert StripRight(m) == StripRight(s[1..2]);
    assert StripRight(s[1..2]) == s[1..2];
  }

  /** One character padded on both sides with whitespace `int()` skips. */
  lemma IntTrimPadded(s: string)
    requires |s| == 3 && IsIntSpace(s[0]) && IsIntSpace(s[2]) && !IsIntSpace(s[1])
    ensures IntTrim(s) == [s[1]]
  {
    var r := [s[1]];
    assert s[1..2] == r;
    assert IntTrimmedAt(s, r, 1);
    IntTrimUnique(s, r, 1);
  }


  /** `strip()` removes an information separator U+001C to U+001F in front
      of a digit, but `int()` does not skip it and rejects the text. */
  lemma ParseIntSeparatorRejected(c: char, d: char)
    requires '\U{001C}' <= c <= '\U{001F}' && IsDigit(d)
    ensures Strip([c, d]) == [d]
    ensures ParseInt([c, d]) == None
  {
    StripSeparatorDigit(c, d);
    SeparatorFirstRejected([c, d]);
  }

  lemma StripSeparatorDigit(c: char, d: char)
    requires '\U{001C}' <= c <= '\U{001F}' && IsDigit(d)
    ensures Strip([c, d]) == [d]
  {
    var s := [c, d];
    var m := s[1..];
    assert IsSpace(s[0]);
    assert StripLeft(s) == StripLeft(m);
    assert m == [d] && !IsSpace(m[0]);
    assert StripLeft(m) == m;
  }

  /** The trim before `int()` keeps such a separator in front of a digit,
      where `strip()` removes it. */
  lemma IntTrimKeepsSeparator(c: char, d: char)
    requires '\U{001C}' <= c <= '\U{001F}' && IsDigit(d)
    ensures IntTrim([c, d]) == [c, d]
  {
    assert NoIntSpaceAtEnds([c, d]);
  }

  lemma SeparatorExample()
    ensures ParseInt("\U{001C}5") == None
  {
    SeparatorFirstRejected("\U{001C}5");
  }

  /** Text that `int()` reads whole, without a sign and not a run of digit
      groups, is rejected. */
  lemma ParseUntrimmedNone(t: string)
    requires NoSpaceAtEnds(t) && t[0] != '-' && t[0] != '+' && !DigitGroups(t)
    ensures ParseInt(t) == None
  {
    assert IntTrim(t) == t;
    assert !IsDecimal(t);
  }

  /** Text that starts with one of the separators U+001C to U+001F is
      rejected by `int()`, although `strip()` would remove them. */
  lemma SeparatorFirstRejected(s: string)
    requires s != [] && '\U{001C}' <= s[0] <= '\U{001F}'
    ensures ParseInt(s) == None
  {
    IntTrimStart(s);
    var t := IntTrim(s);
    if t != [] {
      assert !IsDigit(t[0]) && t[0] != '-' && t[0] != '+';
      assert !IsDecimal(t);
    }
  }

  /** Text whose first character `int()` does not skip is read from that
      character on. */
  lemma IntTrimStart(s: string)
    requires s != [] && !IsIntSpace(s[0])
    ensures IntTrim(s) == [] || IntTrim(s)[0] == s[0]
  {
    assert IntTrimLeft(s) == s;
    var r := IntTrimRight(s);
    if r != [] {
      assert r[0] == s[0];
    }
  }

  lemma ParseSignedDigits(t: string)
    requires DigitGroups(t)
    ensures ParseSigned(t) == Some(DigitsValue(t))
  {
    assert t[0] != '-' && t[0] != '+';
  }

  /** `int(str(n)) == n`: the decimal text of an integer reads back as that integer. */
  lemma ParseIntOfIntToString(n: int)
    ensures ParseInt(IntToString(n)) == Some(n)
  {
    var r := IntToString(n);
    assert NoSpaceAtEnds(r) by {
      if n < 0 {
        assert r[|r| - 1] == r[1..][|r| - 2];
      }
    }
    DecimalOfUnique(r, n, ParseInt(r).value);
  }

  /** A decimal text denotes one integer. */
  lemma DecimalOfUnique(t: string, a: int, b: int)
    requires DecimalOf(t, a) && DecimalOf(t, b)
    ensures a == b
  {
    if t[0] == '-' || t[0] == '+' {
      assert !DigitGroups(t);
    }
  }

  lemma ParseDigits(t: string)
    requires DigitGroups(t)
    ensures ParseInt(t) == Some(DigitsValue(t))
  {
    assert NoSpaceAtEnds(t);
    assert IntTrim(t) == t;
    assert t[0] != '-' && t[0] != '+';
  }

  lemma ParseNegative(t: string)
    requires |t| > 1 && t[0] == '-' && DigitGroups(t[1..])
    ensures ParseInt(t) == Some(0 - DigitsValue(t[1..]) as int)
  {
    assert t[|t| - 1] == t[1..][|t| - 2];
    assert NoSpaceAtEnds(t);
  }

  /** Distinct integers have distinct decimal texts, so `str(number)` names one article number. */
  lemma IntToStringInjective(a: int, b: int)
    ensures IntToString(a) == IntToString(b) ==> a == b
  {
    ParseIntOfIntToString(a);
    ParseIntOfIntToString(b);
  }

  /** Code-point order on strings, the order of the database's binary collation. */
  predicate LessEq(a: string, b: string)
    decreases |a|
  {
    a == [] || (b != [] && (a[0] < b[0] || (a[0] == b[0] && LessEq(a[1..], b[1..]))))
  }

  lemma {:induction false} LessEqTotal(a: string, b: string)
    ensures LessEq(a, b) || LessEq(b, a)
    decreases |a|
  {
    if a != [] && b != [] && a[0] == b[0] {
      LessEqTotal(a[1..], b[1..]);
    }
  }

  lemma {:induction false} LessEqTransitive(a: string, b: string, c: string)
    requires LessEq(a, b) && LessEq(b, c)
    ensures LessEq(a, c)
    decreases |a|
  {
    if a != [] && a[0] == b[0] && b[0] == c[0] {
      LessEqTransitive(a[1..], b[1..], c[1..]);
    }
  }
}
