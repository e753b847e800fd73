/**
 The string operations of Python's `str` that the consultation logic relies on:
 `strip()`, `isdigit()`, `lower()`, `upper()` and the substring test `needle in hay`.
 */
module Text {

  /** The characters Python's `str.isspace()` accepts, which are the ones a bare
      `str.strip()` removes. */
  predicate IsSpace(c: char) {
    || ('\t' <= c <= '\r')                // tab, line feed, vertical tab, form feed, carriage return
    || ('\U{1C}' <= c <= '\U{1F}')        // file, group, record and unit separators
    || c == ' '
    || c == '\U{85}'                      // next line
    || c == '\U{A0}'                      // no-break space
    || c == '\U{1680}'
    || ('\U{2000}' <= c <= '\U{200A}')
    || c == '\U{2028}' || c == '\U{2029}'
    || c == '\U{202F}' || c == '\U{205F}' || c == '\U{3000}'
  }

  ghost predicate AllSpace(s: string) {
    forall i :: 0 <= i < |s| ==> IsSpace(s[i])
  }

  /** `r` is `s` with all of its surrounding whitespace removed: a piece of `s`
      that neither starts nor ends with whitespace, with only whitespace around it. */
  ghost predicate IsStripOf(r: string, s: string) {
    && (r == [] || (!IsSpace(r[0]) && !IsSpace(r[|r| - 1])))
    && exists lo :: StrippedAt(r, s, lo)
  }

  /** `r` sits in `s` at index `lo`, and everything of `s` before and after it is whitespace. */
  ghost predicate StrippedAt(r: string, s: string, lo: int) {
    && 0 <= lo && lo + |r| <= |s|
    && r == s[lo..lo + |r|]
    && (forall i :: 0 <= i < lo ==> IsSpace(s[i]))
    && (forall i :: lo + |r| <= i < |s| ==> IsSpace(s[i]))
  }

  /** Python's `s.strip()`: drops whitespace from the front, then from the back. */
  function Strip(s: string): (r: string)
    ensures IsStripOf(r, s)
    decreases |s|
  {
    if |s| > 0 && IsSpace(s[0]) then
      var r := Strip(s[1..]);
      StripBehindSpace(r, s);
      r
    else if |s| > 0 && IsSpace(s[|s| - 1]) then
      var r := Strip(s[..|s| - 1]);
      StripBeforeSpace(r, s);
      r
    else
      assert StrippedAt(s, s, 0);
      s
  }

  /** A leading space does not change what a string strips to. */
  lemma StripBehindSpace(r: string, s: string)
    requires |s| > 0 && IsSpace(s[0]) && IsStripOf(r, s[1..])
    ensures IsStripOf(r, s)
  {
    var lo :| StrippedAt(r, s[1..], lo);
    assert s[1..][lo..lo + |r|] == s[lo + 1..lo + 1 + |r|];
    assert StrippedAt(r, s, lo + 1);
  }

  /** A trailing space does not change what a string strips to. */
  lemma StripBeforeSpace(r: string, s: string)
    requires |s| > 0 && IsSpace(s[|s| - 1]) && IsStripOf(r, s[..|s| - 1])
    ensures IsStripOf(r, s)
  {
    var lo :| StrippedAt(r, s[..|s| - 1], lo);
    assert s[..|s| - 1][lo..lo + |r|] == s[lo..lo + |r|];
    assert StrippedAt(r, s, lo);
  }

  /** The stripped form of a string is unique: any piece of `s` that meets the
      description of `IsStripOf` is exactly what `Strip` returns. */
  lemma StripUnique(r: string, s: string)
    requires IsStripOf(r, s)
    ensures r == Strip(s)
  {
    var r' := Strip(s);
    var lo :| StrippedAt(r, s, lo);
    var lo' :| StrippedAt(r', s, lo');
    // A non-space character of `s` lies inside both pieces, and each piece that is
    // not empty begins and ends with one.
    assert forall i :: 0 <= i < |s| && !IsSpace(s[i]) ==> lo <= i < lo + |r| && lo' <= i < lo' + |r'|;
    assert r != [] ==> r[0] == s[lo] && r[|r| - 1] == s[lo + |r| - 1];
    assert r' != [] ==> r'[0] == s[lo'] && r'[|r'| - 1] == s[lo' + |r'| - 1];
    assert |r| == |r'|;
    assert r != [] ==> lo == lo';
  }

  /** Surrounding whitespace, added or already there, does not change the stripped form. */
  lemma StripPadding(p: string, s: string, q: string)
    requires AllSpace(p) && AllSpace(q)
    ensures Strip(p + s + q) == Strip(s)
  {
    var r := Strip(s);
    var t := p + s + q;
    var lo :| StrippedAt(r, s, lo);
    assert forall i :: |p| <= i < |p| + |s| ==> t[i] == s[i - |p|];
    assert forall k :: 0 <= k < |r| ==> r[k] == s[lo + k] == t[|p| + lo + k];
    assert r == t[|p| + lo..|p| + lo + |r|];
    assert StrippedAt(r, t, |p| + lo);
    StripUnique(r, t);
  }

  /** A string that neither starts nor ends with whitespace is its own stripped form. */
  lemma StripUnpadded(s: string)
    requires s == [] || (!IsSpace(s[0]) && !IsSpace(s[|s| - 1]))
    ensures Strip(s) == s
  {
    assert StrippedAt(s, s, 0);
    StripUnique(s, s);
  }

  /** Stripping twice is stripping once. */
  lemma StripIdempotent(s: string)
    ensures Strip(Strip(s)) == Strip(s)
  {
    StripPadding([], Strip(s), []);
    assert [] + Strip(s) + [] == Strip(s);
  }

  /** An ASCII decimal digit. */
  predicate IsDigit(c: char) {
    '0' <= c <= '9'
  }

  /** Python's `s.isdigit()`: non-empty and every character a digit. */
  predicate IsDigits(s: string) {
    |s| > 0 && forall i :: 0 <= i < |s| ==> IsDigit(s[i])
  }

  function LowerChar(c: char): char {
    if 'A' <= c <= 'Z' then (c as int + 32) as char else c
  }

  function UpperChar(c: char): char {
    if 'a' <= c <= 'z' then (c as int - 32) as char else c
  }

  /** Python's `s.lower()`, restricted to the ASCII letters. */
  function Lower(s: string): (r: string)
    ensures |r| == |s|
    ensures forall i :: 0 <= i < |s| ==> r[i] == LowerChar(s[i])
  {
    seq(|s|, i requires 0 <= i < |s| => LowerChar(s[i]))
  }

  /** Python's `s.upper()`, restricted to the ASCII letters. */
  function Upper(s: string): (r: string)
    ensures |r| == |s|
    ensures forall i :: 0 <= i < |s| ==> r[i] == UpperChar(s[i])
  {
    seq(|s|, i requires 0 <= i < |s| => UpperChar(s[i]))
  }

  /** `needle` occurs in `hay` starting at index `i`. */
  ghost predicate OccursAt(hay: string, needle: string, i: int) {
    && 0 <= i && i + |needle| <= |hay|
    && forall k :: 0 <= k < |needle| ==> hay[i + k] == needle[k]
  }

  ghost predicate Occurs(hay: string, needle: string) {
    exists i :: OccursAt(hay, needle, i)
  }

  predicate StartsWith(s: string, prefix: string) {
    |prefix| <= |s| && s[..|prefix|] == prefix
  }

  /** Python's `needle in hay` on two strings: a left-to-right search. */
  function Contains(hay: string, needle: string): bool
    decreases |hay|
  {
    StartsWith(hay, needle) || (|hay| > 0 && Contains(hay[1..], needle))
  }

  /** The search finds the needle exactly when it occurs somewhere in the hay. */
  lemma {:induction false} ContainsIff(hay: string, needle: string)
    ensures Contains(hay, needle) <==> Occurs(hay, needle)
    decreases |hay|
  {
    if StartsWith(hay, needle) {
      assert OccursAt(hay, needle, 0);
    } else {
      if |hay| > 0 {
        ContainsIff(hay[1..], needle);
        if Contains(hay[1..], needle) {
          var i :| OccursAt(hay[1..], needle, i);
          assert OccursAt(hay, needle, i + 1);
        }
        if Occurs(hay, needle) {
          var i :| OccursAt(hay, needle, i);
          assert OccursAt(hay[1..], needle, i - 1);
        }
      } else {
        assert forall i :: !OccursAt(hay, needle, i);
      }
    }
  }

  /** A needle cannot occur where two of its adjacent characters never appear side by side. */
  lemma PairAbsent(hay: string, needle: string, j: nat)
    requires j + 1 < |needle|
    requires forall i :: 0 <= i < |hay| - 1 ==> hay[i] != needle[j] || hay[i + 1] != needle[j + 1]
    ensures !Occurs(hay, needle)
  {
    forall i | 0 <= i && i + |needle| <= |hay|
      ensures !OccursAt(hay, needle, i)
    {
      assert hay[i + j] != needle[j] || hay[i + j + 1] != needle[j + 1];
    }
  }

  /** An occurrence of an occurrence is an occurrence. */
  lemma OccursTransitive(hay: string, mid: string, needle: string)
    requires Occurs(hay, mid) && Occurs(mid, needle)
    ensures Occurs(hay, needle)
  {
    var i :| OccursAt(hay, mid, i);
    var j :| OccursAt(mid, needle, j);
    assert OccursAt(hay, needle, i + j);
  }
}
