/**
 * Input validators of the sign-up and profile forms: the e-mail pattern, the
 * password and name length rules, and the inclusive ranges for age, weight
 * and height. The numeric checks receive parsed text, so they also see NaN.
 */
module Validation {
  import opened JsNumber
  import opened JsString

  // ---------------------------------------------------------------------------
  // E-mail

  /** `[^\s@]+`: a non-empty run of characters that are neither whitespace nor '@'. */
  predicate IsAddressPart(s: string) {
    |s| > 0 && forall i :: 0 <= i < |s| ==> !IsWhitespace(s[i]) && s[i] != '@'
  }

  /**
   * The text matches `^[^\s@]+@[^\s@]+\.[^\s@]+$`, that is, an
   * '@' at position `at` and a '.' at a later position `dot` cut it into three
   * address parts.
   */
  predicate MatchesEmailPattern(email: string) {
    exists at, dot | 0 < at && at + 1 < dot < |email| - 1 ::
      && email[at] == '@' && email[dot] == '.'
      && IsAddressPart(email[..at])
      && IsAddressPart(email[at + 1..dot])
      && IsAddressPart(email[dot + 1..])
  }

  /** d has a '.' that is neither its first nor its last character. */
  predicate HasInnerDot(d: string) {
    exists k :: 0 < k < |d| - 1 && d[k] == '.'
  }

  predicate NoWhitespace(s: string) {
    forall i :: 0 <= i < |s| ==> !IsWhitespace(s[i])
  }

  /**
   * The shape of an address, stated without the pattern: no whitespace,
   * exactly one '@', something before it, and after it a '.' that is neither
   * first nor last.
   */
  predicate EmailShape(e: string) {
    && NoWhitespace(e)
    && Count(e, '@') == 1
    && 0 < IndexOf(e, '@') < |e|
    && HasInnerDot(e[IndexOf(e, '@') + 1..])
  }

  /** An accepted address has the shape. */
  lemma AcceptedEmailHasShape(e: string)
    requires MatchesEmailPattern(e)
    ensures EmailShape(e)
  {
    var at, dot :| 0 < at && at + 1 < dot < |e| - 1
      && e[at] == '@' && e[dot] == '.'
      && IsAddressPart(e[..at]) && IsAddressPart(e[at + 1..dot]) && IsAddressPart(e[dot + 1..]);
    PartsHaveNoSeparators(e, at, dot);
    OnlyAt(e, at);
    var d := e[at + 1..];
    assert d[dot - at - 1] == '.';
  }

  /** Inside the three parts there is no whitespace and no '@'. */
  lemma PartsHaveNoSeparators(e: string, at: nat, dot: nat)
    requires at < dot < |e| && e[at] == '@' && e[dot] == '.'
    requires IsAddressPart(e[..at]) && IsAddressPart(e[at + 1..dot]) && IsAddressPart(e[dot + 1..])
    ensures forall i :: 0 <= i < |e| ==> !IsWhitespace(e[i]) && (i != at ==> e[i] != '@')
  {
    forall i | 0 <= i < |e|
      ensures !IsWhitespace(e[i]) && (i != at ==> e[i] != '@')
    {
      if i < at {
        assert e[i] == e[..at][i];
      } else if at < i < dot {
        assert e[i] == e[at + 1..dot][i - at - 1];
      } else if dot < i {
        assert e[i] == e[dot + 1..][i - dot - 1];
      }
    }
  }

  /** A text whose only '@' is at position `at` counts one '@', found at `at`. */
  lemma OnlyAt(e: string, at: nat)
    requires at < |e| && e[at] == '@'
    requires forall i :: 0 <= i < |e| && i != at ==> e[i] != '@'
    ensures IndexOf(e, '@') == at && Count(e, '@') == 1
  {
    CountSplit(e, at, '@');
    CountZero(e[..at], '@');
    CountZero(e[at + 1..], '@');
  }

  /** A text with the shape is accepted. */
  lemma ShapedEmailAccepted(e: string)
    requires EmailShape(e)
    ensures MatchesEmailPattern(e)
  {
    var p := IndexOf(e, '@');
    var d := e[p + 1..];
    var k :| 0 < k < |d| - 1 && d[k] == '.';
    var dot := p + 1 + k;
    CountSplit(e, p, '@');
    CountZero(e[p + 1..], '@');
    forall i | p < i < |e|
      ensures e[i] != '@'
    {
      assert e[i] == e[p + 1..][i - p - 1];
    }
    assert e[dot] == '.';
    assert IsAddressPart(e[..p]);
    assert IsAddressPart(e[p + 1..dot]);
    assert IsAddressPart(e[dot + 1..]);
  }

  /** The pattern accepts exactly the texts of that shape. */
  lemma EmailAcceptedIffShape(e: string)
    ensures MatchesEmailPattern(e) <==> EmailShape(e)
  {
    if MatchesEmailPattern(e) {
      AcceptedEmailHasShape(e);
    }
    if EmailShape(e) {
      ShapedEmailAccepted(e);
    }
  }

  /** validateEmail: the pattern test, which accepts exactly the texts of that shape. */
  function ValidateEmail(email: string): (ok: bool)
    ensures ok <==> EmailShape(email)
  {
    EmailAcceptedIffShape(email);
    MatchesEmailPattern(email)
  }

  /** Every `a@b.c` with three address parts is accepted. */
  lemma EmailFromParts(a: string, b: string, c: string)
    requires IsAddressPart(a) && IsAddressPart(b) && IsAddressPart(c)
    ensures ValidateEmail(a + "@" + b + "." + c)
  {
    var e := a + "@" + b + "." + c;
    var at := |a|;
    var dot := |a| + 1 + |b|;
    assert e[..at] == a;
    assert e[at + 1..dot] == b;
    assert e[dot + 1..] == c;
    assert e[at] == '@' && e[dot] == '.';
  }

  // ---------------------------------------------------------------------------
  // Password and name

  /**
   * validatePassword: `password.length >= 6`, where the length counts UTF-16
   * code units, so a character outside the Basic Multilingual Plane counts twice.
   */
  function ValidatePassword(password: string): (ok: bool)
    ensures ok <==> Utf16Length(password) >= 6
    ensures |password| >= 6 ==> ok
    ensures |password| < 3 ==> !ok
  {
    Utf16Length(password) >= 6
  }

  /** Without characters beyond the Basic Multilingual Plane, a password needs six characters. */
  lemma ValidatePasswordInBmp(password: string)
    requires InBmp(password)
    ensures ValidatePassword(password) <==> |password| >= 6
  {
    Utf16LengthIsLengthIffBmp(password);
  }

  /** Three emoji make a long enough password: each is two code units. */
  lemma ThreeEmojiPasswordAccepted()
    ensures ValidatePassword("\U{1F600}\U{1F600}\U{1F600}")
  {
    var p := "\U{1F600}\U{1F600}\U{1F600}";
    assert p[1..] == "\U{1F600}\U{1F600}" && p[1..][1..] == "\U{1F600}";
    assert p[1..][1..][1..] == "";
  }

  /**
   * validateName: at least two UTF-16 code units once surrounding whitespace is
   * trimmed, that is, two visible characters or one visible character outside
   * the Basic Multilingual Plane.
   */
  function ValidateName(name: string): (ok: bool)
    ensures ok <==> HasTwoVisible(name) || HasVisibleAstral(name)
  {
    TrimUtf16LengthTwo(name);
    Utf16Length(Trim(name)) >= 2
  }

  /** Without characters beyond the Basic Multilingual Plane, a name needs two visible characters. */
  lemma ValidateNameInBmp(name: string)
    requires InBmp(name)
    ensures ValidateName(name) <==> HasTwoVisible(name)
  {
  }

  /** A single emoji is a long enough name: it is two code units. */
  lemma SingleEmojiNameAccepted()
    ensures ValidateName("\U{1F600}")
  {
    var n := "\U{1F600}";
    assert !IsWhitespace(n[0]) && n[0] as int >= 0x1_0000;
  }

  /** Leading or trailing whitespace never changes the verdict on a name. */
  lemma ValidateNameIgnoresPadding(pre: string, name: string, post: string)
    requires AllWhitespace(pre) && AllWhitespace(post)
    ensures ValidateName(pre + name + post) <==> ValidateName(name)
  {
    PaddingKeepsVisible(pre, name, post);
    PaddingKeepsVisibleAstral(pre, name, post);
  }

  // ---------------------------------------------------------------------------
  // Numeric ranges (inclusive at both ends)

  /** validateAge: `age >= 13 && age <= 120`. */
  function ValidateAge(age: Num): (ok: bool)
    ensures ok <==> age.Fin? && 13.0 <= age.v <= 120.0
  {
    AtLeast(age, 13.0) && AtMost(age, 120.0)
  }

  /** validateWeight: `weight >= 30 && weight <= 300` (kg). */
  function ValidateWeight(weight: Num): (ok: bool)
    ensures ok <==> weight.Fin? && 30.0 <= weight.v <= 300.0
  {
    AtLeast(weight, 30.0) && AtMost(weight, 300.0)
  }

  /** validateHeight: `height >= 100 && height <= 250` (cm). */
  function ValidateHeight(height: Num): (ok: bool)
    ensures ok <==> height.Fin? && 100.0 <= height.v <= 250.0
  {
    AtLeast(height, 100.0) && AtMost(height, 250.0)
  }
}
