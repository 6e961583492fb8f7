/**
 * The JavaScript string operations the app relies on: the whitespace class that
 * both `\s` and String.prototype.trim use, trim itself, the
 * `charAt(0).toUpperCase() + slice(1)` idiom and `replace` with a one-character
 * string pattern (which replaces only the first occurrence).
 */
module JsString {

  /** JavaScript's WhiteSpace and LineTerminator characters. */
  predicate IsWhitespace(c: char) {
    || c == ' ' || c == '\t' || c == '\n' || c == '\r' || c == '\U{000B}' || c == '\U{000C}'
    || c == '\U{00A0}' || c == '\U{1680}' || ('\U{2000}' <= c <= '\U{200A}')
    || c == '\U{2028}' || c == '\U{2029}' || c == '\U{202F}' || c == '\U{205F}'
    || c == '\U{3000}' || c == '\U{FEFF}'
  }

  predicate AllWhitespace(s: string) {
    forall i :: 0 <= i < |s| ==> IsWhitespace(s[i])
  }

  /** s without its leading whitespace. */
  function TrimStart(s: string): (r: string)
    ensures |r| <= |s| && r == s[|s| - |r|..]
    ensures AllWhitespace(s[..|s| - |r|])
    ensures |r| > 0 ==> !IsWhitespace(r[0])
  {
    if |s| > 0 && IsWhitespace(s[0]) then TrimStart(s[1..]) else s
  }

  /** s without its trailing whitespace. */
  function TrimEnd(s: string): (r: string)
    ensures |r| <= |s| && r == s[..|r|]
    ensures AllWhitespace(s[|r|..])
    ensures |r| > 0 ==> !IsWhitespace(r[|r| - 1])
  {
    if |s| > 0 && IsWhitespace(s[|s| - 1]) then TrimEnd(s[..|s| - 1]) else s
  }

  /** String.prototype.trim. */
  function Trim(s: string): string {
    TrimEnd(TrimStart(s))
  }

  /** s has non-whitespace characters at two different positions. */
  predicate HasTwoVisible(s: string) {
    exists i, j :: 0 <= i < j < |s| && !IsWhitespace(s[i]) && !IsWhitespace(s[j])
  }

  /** The trimmed text has two or more characters exactly when s has two visible characters. */
  lemma TrimLengthTwo(s: string)
    ensures |Trim(s)| >= 2 <==> HasTwoVisible(s)
  {
    if |Trim(s)| >= 2 {
      TrimKeepsTwoVisible(s);
    }
    if HasTwoVisible(s) {
      var i, j :| 0 <= i < j < |s| && !IsWhitespace(s[i]) && !IsWhitespace(s[j]);
      VisibleInsideTrim(s, i);
      VisibleInsideTrim(s, j);
    }
  }

  /** The two ends of a trimmed text of length two or more are visible characters of s. */
  lemma TrimKeepsTwoVisible(s: string)
    requires |Trim(s)| >= 2
    ensures HasTwoVisible(s)
  {
    var t := TrimStart(s);
    var k := |s| - |t|;
    var u := TrimEnd(t);
    var m := |u|;
    assert u[0] == t[0] == s[k];
    assert u[m - 1] == t[m - 1] == s[k + m - 1];
  }

  /** A visible character of s lies inside the part trim keeps. */
  lemma VisibleInsideTrim(s: string, i: nat)
    requires i < |s| && !IsWhitespace(s[i])
    ensures var k := |s| - |TrimStart(s)|; k <= i < k + |Trim(s)|
  {
    var t := TrimStart(s);
    var k := |s| - |t|;
    VisibleAfterTrimStart(s, i);
    assert t == s[k..];
    assert t[i - k] == s[i];
    VisibleBeforeTrimEnd(t, i - k);
    assert Trim(s) == TrimEnd(t);
  }

  /** TrimStart removes no visible character. */
  lemma VisibleAfterTrimStart(s: string, i: nat)
    requires i < |s| && !IsWhitespace(s[i])
    ensures |s| - |TrimStart(s)| <= i
  {
    var k := |s| - |TrimStart(s)|;
    forall idx | 0 <= idx < k
      ensures IsWhitespace(s[idx])
    {
      assert s[..k][idx] == s[idx];
    }
  }

  /** TrimEnd removes no visible character. */
  lemma VisibleBeforeTrimEnd(t: string, i: nat)
    requires i < |t| && !IsWhitespace(t[i])
    ensures i < |TrimEnd(t)|
  {
    var m := |TrimEnd(t)|;
    forall idx | m <= idx < |t|
      ensures IsWhitespace(t[idx])
    {
      assert t[m..][idx - m] == t[idx];
    }
  }

  /** Leading and trailing whitespace do not change which characters are visible. */
  lemma PaddingKeepsVisible(pre: string, s: string, post: string)
    requires AllWhitespace(pre) && AllWhitespace(post)
    ensures HasTwoVisible(pre + s + post) <==> HasTwoVisible(s)
  {
    var p := pre + s + post;
    if HasTwoVisible(p) {
      var i, j :| 0 <= i < j < |p| && !IsWhitespace(p[i]) && !IsWhitespace(p[j]);
      assert |pre| <= i && j < |pre| + |s|;
      assert s[i - |pre|] == p[i] && s[j - |pre|] == p[j];
    }
    if HasTwoVisible(s) {
      var i, j :| 0 <= i < j < |s| && !IsWhitespace(s[i]) && !IsWhitespace(s[j]);
      assert p[i + |pre|] == s[i] && p[j + |pre|] == s[j];
    }
  }

  /** toUpperCase on one character; the app only applies it to ASCII letters. */
  function ToUpperAscii(c: char): (u: char)
    ensures 'a' <= c <= 'z' ==> 'A' <= u <= 'Z' && u as int == c as int - 32
    ensures !('a' <= c <= 'z') ==> u == c
  {
    if 'a' <= c <= 'z' then (c as int - 32) as char else c
  }

  /** toLowerCase on one ASCII character, the inverse of ToUpperAscii on lower-case letters. */
  function ToLowerAscii(c: char): (l: char)
    ensures 'A' <= c <= 'Z' ==> 'a' <= l <= 'z' && l as int == c as int + 32
    ensures !('A' <= c <= 'Z') ==> l == c
  {
    if 'A' <= c <= 'Z' then (c as int + 32) as char else c
  }

  /** Lower-casing undoes upper-casing on every character that is not an upper-case letter. */
  lemma LowerUndoesUpper(c: char)
    requires !('A' <= c <= 'Z')
    ensures ToLowerAscii(ToUpperAscii(c)) == c
  {
  }

  /** `s.charAt(0).toUpperCase() + s.slice(1)`. */
  function Capitalize(s: string): (r: string)
    ensures |r| == |s|
    ensures |s| > 0 ==> r[0] == ToUpperAscii(s[0]) && r[1..] == s[1..]
  {
    if |s| == 0 then "" else [ToUpperAscii(s[0])] + s[1..]
  }

  /** The index of the first occurrence of c in s, or |s| when there is none. */
  function IndexOf(s: string, c: char): (k: nat)
    ensures k <= |s|
    ensures k < |s| ==> s[k] == c
    ensures forall i :: 0 <= i < k ==> s[i] != c
  {
    IndexFrom(s, c, 0)
  }

  /** The first occurrence of c at or after position from. */
  function IndexFrom(s: string, c: char, from: nat): (k: nat)
    requires from <= |s|
    requires forall i :: 0 <= i < from ==> s[i] != c
    ensures from <= k <= |s|
    ensures k < |s| ==> s[k] == c
    ensures forall i :: 0 <= i < k ==> s[i] != c
    decreases |s| - from
  {
    if from == |s| || s[from] == c then from else IndexFrom(s, c, from + 1)
  }

  /** `s.replace(x, y)` for one-character strings x and y: only the first x is replaced. */
  function ReplaceFirst(s: string, x: char, y: char): (r: string)
    ensures IndexOf(s, x) < |s| ==> r == s[..IndexOf(s, x)] + [y] + s[IndexOf(s, x) + 1..]
    ensures IndexOf(s, x) == |s| ==> r == s
  {
    var k := IndexOf(s, x);
    if k == |s| then s else s[k := y]
  }

  /** When the first x is at k, replace swaps exactly that character for y. */
  lemma ReplaceFirstAt(s: string, x: char, y: char, k: nat)
    requires k < |s| && s[k] == x
    requires forall i :: 0 <= i < k ==> s[i] != x
    ensures ReplaceFirst(s, x, y) == s[..k] + [y] + s[k + 1..]
  {
    assert IndexOf(s, x) == k;
  }

  /** How many times c occurs in s. */
  function Count(s: string, c: char): nat {
    if |s| == 0 then 0 else (if s[0] == c then 1 else 0) + Count(s[1..], c)
  }

  lemma {:induction false} CountConcat(a: string, b: string, c: char)
    ensures Count(a + b, c) == Count(a, c) + Count(b, c)
  {
    if |a| == 0 {
      assert a + b == b;
    } else {
      assert (a + b)[1..] == a[1..] + b;
      CountConcat(a[1..], b, c);
    }
  }

  /** A character that does not occur is counted zero times, and conversely. */
  lemma {:induction false} CountZero(s: string, c: char)
    ensures Count(s, c) == 0 <==> forall i :: 0 <= i < |s| ==> s[i] != c
  {
    if |s| > 0 {
      CountZero(s[1..], c);
      assert forall i :: 1 <= i < |s| ==> s[i] == s[1..][i - 1];
    }
  }

  /** Splitting s around position k: the count is the count before, at and after k. */
  lemma CountSplit(s: string, k: nat, c: char)
    requires k < |s|
    ensures Count(s, c) == Count(s[..k], c) + (if s[k] == c then 1 else 0) + Count(s[k + 1..], c)
  {
    assert s == s[..k] + ([s[k]] + s[k + 1..]);
    CountConcat(s[..k], [s[k]] + s[k + 1..], c);
    CountConcat([s[k]], s[k + 1..], c);
  }

  // ---------------------------------------------------------------------------
  // Length in UTF-16 code units

  /** The UTF-16 code units one character takes: two outside the Basic Multilingual Plane. */
  function Utf16Units(c: char): nat {
    if c as int >= 0x1_0000 then 2 else 1
  }

  /** `s.length`: the number of UTF-16 code units of s. */
  function Utf16Length(s: string): (n: nat)
    ensures |s| <= n <= 2 * |s|
  {
    if |s| == 0 then 0 else Utf16Units(s[0]) + Utf16Length(s[1..])
  }

  /** Every character of s lies in the Basic Multilingual Plane. */
  predicate InBmp(s: string) {
    forall i :: 0 <= i < |s| ==> s[i] as int < 0x1_0000
  }

  /** A character outside the Basic Multilingual Plane adds at least one code unit to the length. */
  lemma {:induction false} Utf16LengthWithAstral(s: string, i: nat)
    requires i < |s| && s[i] as int >= 0x1_0000
    ensures Utf16Length(s) >= |s| + 1
  {
    if i > 0 {
      assert s[1..][i - 1] == s[i];
      Utf16LengthWithAstral(s[1..], i - 1);
    }
  }

  /** s has a visible character outside the Basic Multilingual Plane. */
  predicate HasVisibleAstral(s: string) {
    exists i :: 0 <= i < |s| && !IsWhitespace(s[i]) && s[i] as int >= 0x1_0000
  }

  /**
   * `s.trim().length >= 2`: the trimmed text is two or more code units long exactly
   * when s has two visible characters or one visible character outside the
   * Basic Multilingual Plane.
   */
  lemma TrimUtf16LengthTwo(s: string)
    ensures Utf16Length(Trim(s)) >= 2 <==> HasTwoVisible(s) || HasVisibleAstral(s)
  {
    TrimLengthTwo(s);
    if HasVisibleAstral(s) {
      var i :| 0 <= i < |s| && !IsWhitespace(s[i]) && s[i] as int >= 0x1_0000;
      AstralInsideTrim(s, i);
    }
    if Utf16Length(Trim(s)) >= 2 && |Trim(s)| < 2 {
      SingleTrimmedUnitPair(s);
    }
  }

  /** A visible astral character of s makes the trimmed text at least two code units long. */
  lemma AstralInsideTrim(s: string, i: nat)
    requires i < |s| && !IsWhitespace(s[i]) && s[i] as int >= 0x1_0000
    ensures Utf16Length(Trim(s)) >= 2
  {
    var t := TrimStart(s);
    var k := |s| - |t|;
    var u := Trim(s);
    VisibleInsideTrim(s, i);
    assert t == s[k..];
    assert u == TrimEnd(t) == t[..|u|];
    assert u[i - k] == t[i - k] == s[i];
    Utf16LengthWithAstral(u, i - k);
  }

  /** A trimmed text of one character but two code units is a visible astral character of s. */
  lemma SingleTrimmedUnitPair(s: string)
    requires |Trim(s)| < 2 && Utf16Length(Trim(s)) >= 2
    ensures HasVisibleAstral(s)
  {
    var t := TrimStart(s);
    var k := |s| - |t|;
    var u := TrimEnd(t);
    assert |u| == 1;
    assert u[1..] == [];
    assert u[0] == t[0] == s[k];
    assert !IsWhitespace(s[k]) && s[k] as int >= 0x1_0000;
  }

  /** Leading and trailing whitespace do not change whether a visible astral character is present. */
  lemma PaddingKeepsVisibleAstral(pre: string, s: string, post: string)
    requires AllWhitespace(pre) && AllWhitespace(post)
    ensures HasVisibleAstral(pre + s + post) <==> HasVisibleAstral(s)
  {
    var p := pre + s + post;
    if HasVisibleAstral(p) {
      var i :| 0 <= i < |p| && !IsWhitespace(p[i]) && p[i] as int >= 0x1_0000;
      assert |pre| <= i < |pre| + |s|;
      assert s[i - |pre|] == p[i];
    }
    if HasVisibleAstral(s) {
      var i :| 0 <= i < |s| && !IsWhitespace(s[i]) && s[i] as int >= 0x1_0000;
      assert p[i + |pre|] == s[i];
    }
  }

  /** `s.length` counts characters exactly when no character lies outside the Basic Multilingual Plane. */
  lemma {:induction false} Utf16LengthIsLengthIffBmp(s: string)
    ensures Utf16Length(s) == |s| <==> InBmp(s)
  {
    if |s| > 0 {
      Utf16LengthIsLengthIffBmp(s[1..]);
      assert forall i :: 1 <= i < |s| ==> s[i] == s[1..][i - 1];
      if InBmp(s[1..]) && s[0] as int < 0x1_0000 {
        forall i | 0 <= i < |s|
          ensures s[i] as int < 0x1_0000
        {
          if i > 0 {
            assert s[i] == s[1..][i - 1];
          }
        }
      }
    }
  }
}
