/** The Kotlin string operations the app relies on (`lowercase`, `uppercase`,
    `trim`, `isBlank`, `startsWith`, `contains`, `split(" ").last()`, string
    templates of integers), restricted to ASCII case mapping. */
module Text {

  /** ASCII lower-casing of one character. */
  function LowerChar(c: char): char {
    if 'A' <= c <= 'Z' then (c as int + 32) as char else c
  }

  /** ASCII upper-casing of one character. */
  function UpperChar(c: char): char {
    if 'a' <= c <= 'z' then (c as int - 32) as char else c
  }

  function ToLower(s: string): (r: string)
    ensures |r| == |s|
    ensures forall i :: 0 <= i < |s| ==> r[i] == LowerChar(s[i])
  {
    seq(|s|, i requires 0 <= i < |s| => LowerChar(s[i]))
  }

  function ToUpper(s: string): (r: string)
    ensures |r| == |s|
    ensures forall i :: 0 <= i < |s| ==> r[i] == UpperChar(s[i])
  {
    seq(|s|, i requires 0 <= i < |s| => UpperChar(s[i]))
  }

  /** Kotlin `Char.isWhitespace()` on the JVM: Java whitespace or a Unicode
      space separator. */
  predicate IsWhitespace(c: char) {
    || c == ' '
    || '\t' <= c <= '\r'
    || '\U{1C}' <= c <= '\U{1F}'
    || c == '\U{A0}' || c == '\U{1680}'
    || '\U{2000}' <= c <= '\U{200A}'
    || c == '\U{2028}' || c == '\U{2029}' || c == '\U{202F}' || c == '\U{205F}'
    || c == '\U{3000}'
  }

  /** The characters of the regular-expression class `\s` (without the
      UNICODE_CHARACTER_CLASS flag): space, tab, line feed, vertical tab,
      form feed, carriage return. */
  predicate IsRegexSpace(c: char) {
    c == ' ' || '\t' <= c <= '\r'
  }

  /** Kotlin `isBlank()`: empty or whitespace only. */
  predicate IsBlank(s: string) {
    forall i :: 0 <= i < |s| ==> IsWhitespace(s[i])
  }

  function TrimStart(s: string): (r: string)
    ensures |r| <= |s| && r == s[|s| - |r|..]
    ensures r == [] || !IsWhitespace(r[0])
    ensures forall i :: 0 <= i < |s| - |r| ==> IsWhitespace(s[i])
  {
    if |s| > 0 && IsWhitespace(s[0]) then TrimStart(s[1..]) else s
  }

  function TrimEnd(s: string): (r: string)
    ensures |r| <= |s| && r == s[..|r|]
    ensures r == [] || !IsWhitespace(r[|r| - 1])
    ensures forall i :: |r| <= i < |s| ==> IsWhitespace(s[i])
  {
    if |s| > 0 && IsWhitespace(s[|s| - 1]) then TrimEnd(s[..|s| - 1]) else s
  }

  /** Kotlin `trim()`: drops leading and trailing whitespace. */
  function Trim(s: string): string {
    TrimEnd(TrimStart(s))
  }

  predicate HasPrefix(s: string, p: string) {
    |p| <= |s| && s[..|p|] == p
  }

  predicate HasSuffix(s: string, p: string) {
    |p| <= |s| && s[|s| - |p|..] == p
  }

  /** Kotlin `startsWith(p, ignoreCase = true)`. */
  predicate HasPrefixIgnoreCase(s: string, p: string) {
    |p| <= |s| && ToLower(s[..|p|]) == ToLower(p)
  }

  /** `sub` occurs in `s` starting at index `i`. */
  ghost predicate OccursAt(s: string, sub: string, i: int) {
    0 <= i && i + |sub| <= |s| && s[i..i + |sub|] == sub
  }

  /** Kotlin `contains(sub)`: a left-to-right search. */
  function Contains(s: string, sub: string): bool
    decreases |s|
  {
    if HasPrefix(s, sub) then true
    else if |s| == 0 then false
    else Contains(s[1..], sub)
  }

  /** The search finds `sub` exactly when it occurs somewhere in `s`. */
  lemma {:induction false} ContainsIffOccurs(s: string, sub: string)
    ensures Contains(s, sub) <==> exists i :: OccursAt(s, sub, i)
    decreases |s|
  {
    if HasPrefix(s, sub) {
      assert OccursAt(s, sub, 0);
    } else if |s| == 0 {
      assert |sub| > 0;
    } else {
      ContainsIffOccurs(s[1..], sub);
      forall j | OccursAt(s[1..], sub, j)
        ensures OccursAt(s, sub, j + 1)
      {
        assert s[1..][j..j + |sub|] == s[j + 1..j + 1 + |sub|];
      }
      forall i | OccursAt(s, sub, i)
        ensures 1 <= i && OccursAt(s[1..], sub, i - 1)
      {
        assert i != 0 by { assert s[..|sub|] != sub; }
        assert s[1..][i - 1..i - 1 + |sub|] == s[i..i + |sub|];
      }
    }
  }

  /** An occurrence of `sub` inside the window `s[a..]` is an occurrence in `s`. */
  lemma OccursInSuffix(s: string, sub: string, a: nat, j: int)
    requires a <= |s| && OccursAt(s[a..], sub, j)
    ensures OccursAt(s, sub, a + j)
  {
    assert s[a..][j..j + |sub|] == s[a + j..a + j + |sub|];
  }

  /** The string with every `\s` character removed (Kotlin
      `replace(Regex("\\s+"), "")`). */
  function RemoveRegexSpaces(s: string): (r: string)
    ensures |r| <= |s|
    ensures forall i :: 0 <= i < |r| ==> !IsRegexSpace(r[i])
  {
    if s == [] then []
    else (if IsRegexSpace(s[0]) then [] else [s[0]]) + RemoveRegexSpaces(s[1..])
  }

  /** A token of `s` without its last character, extended by that
      character when it is not a space, is a token of `s`. */
  lemma LastTokenStep(s: string, t: string, r: string)
    requires |s| >= 1 && s[|s| - 1] != ' '
    requires HasSuffix(s[..|s| - 1], t)
    requires forall i :: 0 <= i < |t| ==> t[i] != ' '
    requires |t| == |s| - 1 || s[..|s| - 1][|s| - 1 - |t| - 1] == ' '
    requires r == t + [s[|s| - 1]]
    ensures HasSuffix(s, r)
    ensures forall i :: 0 <= i < |r| ==> r[i] != ' '
    ensures |r| == |s| || s[|s| - |r| - 1] == ' '
  {
    var p, c := s[..|s| - 1], s[|s| - 1];
    assert s == p + [c];
    assert s[|s| - |t| - 1..] == p[|p| - |t|..] + [c];
  }

  /** The last element of Kotlin `s.split(" ")`: the text after the last space,
      or all of `s` when it has no space. */
  function LastToken(s: string): (r: string)
    ensures HasSuffix(s, r)
    ensures forall i :: 0 <= i < |r| ==> r[i] != ' '
    ensures |r| == |s| || s[|s| - |r| - 1] == ' '
  {
    if s == [] then []
    else if s[|s| - 1] == ' ' then []
    else
      var t := LastToken(s[..|s| - 1]);
      LastTokenStep(s, t, t + [s[|s| - 1]]);
      t + [s[|s| - 1]]
  }

  function DigitChar(d: int): char
    requires 0 <= d < 10
  {
    ('0' as int + d) as char
  }

  function NatToString(n: nat): (r: string)
    ensures |r| >= 1
    ensures forall i :: 0 <= i < |r| ==> '0' <= r[i] <= '9'
  {
    if n < 10 then [DigitChar(n)] else NatToString(n / 10) + [DigitChar(n % 10)]
  }

  /** Different numbers have different decimal renderings. */
  lemma {:induction false} NatToStringInjective(a: nat, b: nat)
    requires NatToString(a) == NatToString(b)
    ensures a == b
    decreases a
  {
    var sa, sb := NatToString(a), NatToString(b);
    if a < 10 && b < 10 {
      assert sa[0] == DigitChar(a) && sb[0] == DigitChar(b);
    } else if a >= 10 && b >= 10 {
      var fa, fb := NatToString(a / 10), NatToString(b / 10);
      assert sa == fa + [DigitChar(a % 10)] && sb == fb + [DigitChar(b % 10)];
      assert |fa| == |fb|;
      assert fa == sa[..|fa|] && fb == sb[..|fb|];
      assert DigitChar(a % 10) == sa[|fa|] == sb[|fb|] == DigitChar(b % 10);
      NatToStringInjective(a / 10, b / 10);
    }
  }

  /** Decimal rendering of an integer, as in a Kotlin string template. */
  function IntToString(n: int): (r: string)
    ensures |r| >= 1
    ensures forall i :: 0 <= i < |r| ==> r[i] == '-' || '0' <= r[i] <= '9'
  {
    if n < 0 then "-" + NatToString(-n) else NatToString(n)
  }

  /** Lower-casing neither creates nor removes whitespace. */
  lemma LowerKeepsBlank(s: string)
    ensures IsBlank(ToLower(s)) <==> IsBlank(s)
  {
    assert forall i :: 0 <= i < |s| ==> (IsWhitespace(ToLower(s)[i]) <==> IsWhitespace(s[i]));
  }

  lemma TrimEndEmptyIffBlank(t: string)
    ensures TrimEnd(t) == [] <==> IsBlank(t)
  {
    var r := TrimEnd(t);
    if r != [] {
      assert r[|r| - 1] == t[|r| - 1];
    }
  }

  lemma TrimStartKeepsBlank(s: string)
    ensures IsBlank(TrimStart(s)) <==> IsBlank(s)
  {
    var t := TrimStart(s);
    var d := |s| - |t|;
    assert forall k :: 0 <= k < |t| ==> t[k] == s[d + k];
  }

  /** Trimming leaves nothing exactly when the string is blank. */
  lemma TrimEmptyIffBlank(s: string)
    ensures Trim(s) == [] <==> IsBlank(s)
  {
    TrimEndEmptyIffBlank(TrimStart(s));
    TrimStartKeepsBlank(s);
  }

  /** A blank string contains no string that has a non-whitespace character. */
  lemma BlankContainsOnlyBlank(s: string, sub: string, i: int)
    requires IsBlank(s) && OccursAt(s, sub, i)
    ensures IsBlank(sub)
  {
    forall k | 0 <= k < |sub| ensures IsWhitespace(sub[k]) {
      assert sub[k] == s[i..i + |sub|][k] == s[i + k];
    }
  }

  /** A string that lacks a character of `sub` does not contain `sub`. */
  lemma AbsentCharBlocks(s: string, sub: string, c: char)
    requires c in sub && c !in s
    ensures !Contains(s, sub)
  {
    var k :| 0 <= k < |sub| && sub[k] == c;
    forall i | 0 <= i <= |s| - |sub| ensures !OccursAt(s, sub, i) {
      assert s[i..i + |sub|][k] == s[i + k] != c;
    }
    ContainsIffOccurs(s, sub);
  }

  /** A string that lacks `sub[k]` wherever `sub[k]` of an occurrence could sit
      (at an index below `|s| - |sub| + k + 1`) does not contain `sub`. */
  lemma AbsentCharBeforeBlocks(s: string, sub: string, k: nat)
    requires k < |sub| <= |s|
    requires sub[k] !in s[..|s| - |sub| + k + 1]
    ensures !Contains(s, sub)
  {
    forall i | 0 <= i <= |s| - |sub| ensures !OccursAt(s, sub, i) {
      assert s[i..i + |sub|][k] == s[i + k] == s[..|s| - |sub| + k + 1][i + k];
    }
    ContainsIffOccurs(s, sub);
  }

  /** If `sub[0]` appears in `s` only at index `j`, and what follows there is
      not `sub[1]`, then `s` does not contain `sub`. */
  lemma SoleCharBlocks(s: string, sub: string, j: nat)
    requires 2 <= |sub| && j + 1 < |s|
    requires s[j] == sub[0] && sub[0] !in s[..j] && sub[0] !in s[j + 1..]
    requires s[j + 1] != sub[1]
    ensures !Contains(s, sub)
  {
    forall i | 0 <= i <= |s| - |sub| ensures !OccursAt(s, sub, i) {
      if i < j {
        assert s[i..i + |sub|][0] == s[i] == s[..j][i];
      } else if i > j {
        assert s[i..i + |sub|][0] == s[i] == s[j + 1..][i - j - 1];
      } else {
        assert s[i..i + |sub|][1] == s[j + 1];
      }
    }
    ContainsIffOccurs(s, sub);
  }

  /** A blank string contains no word that starts with a non-whitespace
      character. */
  lemma BlankContainsNoWord(s: string, w: string)
    requires IsBlank(s) && |w| > 0 && !IsWhitespace(w[0])
    ensures !Contains(s, w)
  {
    forall i | 0 <= i <= |s| - |w| ensures !OccursAt(s, w, i) {
      assert s[i..i + |w|][0] == s[i];
    }
    ContainsIffOccurs(s, w);
  }

  lemma ToLowerAppend(a: string, b: string)
    ensures ToLower(a + b) == ToLower(a) + ToLower(b)
  {
  }

  /** A string of digits and minus signs is its own lower- and upper-case. */
  lemma DigitsKeepCase(d: string)
    requires forall i :: 0 <= i < |d| ==> d[i] == '-' || '0' <= d[i] <= '9'
    ensures ToLower(d) == d && ToUpper(d) == d
  {
  }

  /** The last token of a text ending in a space followed by a space-free
      word is that word. */
  lemma {:induction false} LastTokenAfterSpace(p: string, w: string)
    requires |p| > 0 && p[|p| - 1] == ' '
    requires forall i :: 0 <= i < |w| ==> w[i] != ' '
    ensures LastToken(p + w) == w
    decreases |w|
  {
    if w == [] {
      assert p + w == p;
    } else {
      var n := |w| - 1;
      assert (p + w)[..|p + w| - 1] == p + w[..n];
      LastTokenAfterSpace(p, w[..n]);
      assert w[..n] + [w[n]] == w;
    }
  }
}
