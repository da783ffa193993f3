/** String operations the pipeline relies on: Python's `str.lower()`,
    `str.strip()`, `in` on strings and `str.endswith()`. */
module Text {

  /** Whitespace removed by `str.strip()`: the characters below U+0100 for
      which Python's `str.isspace()` holds, namely tab to carriage return,
      the four separators U+001C to U+001F, space, U+0085 and the no-break
      space U+00A0. */
  predicate IsSpace(c: char) {
    || ('\t' <= c <= '\r')
    || ('\U{001C}' <= c <= '\U{001F}')
    || c == ' ' || c == '\U{0085}' || c == '\U{00A0}'
  }

  /** Lower-casing of one character: ASCII letters and the Latin-1 capitals
      (À to Þ, except the multiplication sign), the letters the status texts
      and column names use. */
  function LowerChar(c: char): char {
    if 'A' <= c <= 'Z' || ('\U{00C0}' <= c <= '\U{00DE}' && c != '\U{00D7}') then
      (c as int + 32) as char
    else
      c
  }

  function Lower(s: string): (r: string)
    ensures |r| == |s|
  {
    seq(|s|, i requires 0 <= i < |s| => LowerChar(s[i]))
  }

  /** Lower-casing twice is lower-casing once. */
  lemma LowerIdempotent(s: string)
    ensures Lower(Lower(s)) == Lower(s)
  {
  }

  function StripStart(s: string): string {
    if s != [] && IsSpace(s[0]) then StripStart(s[1..]) else s
  }

  function StripEnd(s: string): string {
    if s != [] && IsSpace(s[|s| - 1]) then StripEnd(s[..|s| - 1]) else s
  }

  /** `str.strip()`. */
  function Strip(s: string): string {
    StripEnd(StripStart(s))
  }

  lemma {:induction false} StripStartSpec(s: string)
    ensures |StripStart(s)| <= |s| && StripStart(s) == s[|s| - |StripStart(s)|..]
    ensures StripStart(s) == [] || !IsSpace(StripStart(s)[0])
  {
    if s != [] && IsSpace(s[0]) {
      StripStartSpec(s[1..]);
    }
  }

  lemma {:induction false} StripEndSpec(s: string)
    ensures |StripEnd(s)| <= |s| && StripEnd(s) == s[..|StripEnd(s)|]
    ensures StripEnd(s) == [] || !IsSpace(StripEnd(s)[|StripEnd(s)| - 1])
  {
    if s != [] && IsSpace(s[|s| - 1]) {
      StripEndSpec(s[..|s| - 1]);
    }
  }

  /** The stripped text is a piece of the original with no whitespace left
      at either end. */
  lemma StripSpec(s: string)
    ensures |Strip(s)| <= |s|
    ensures Strip(s) == [] || (!IsSpace(Strip(s)[0]) && !IsSpace(Strip(s)[|Strip(s)| - 1]))
  {
    var t := StripStart(s);
    StripStartSpec(s);
    StripEndSpec(t);
    var r := StripEnd(t);
    assert r != [] ==> r[0] == t[0];
  }

  lemma StripUnchanged(s: string)
    requires s == [] || (!IsSpace(s[0]) && !IsSpace(s[|s| - 1]))
    ensures Strip(s) == s
  {
  }

  /** Stripping twice is stripping once. */
  lemma StripIdempotent(s: string)
    ensures Strip(Strip(s)) == Strip(s)
  {
    StripSpec(s);
    StripUnchanged(Strip(s));
  }

  predicate OccursAt(s: string, p: string, i: int) {
    0 <= i <= |s| - |p| && s[i..i + |p|] == p
  }

  /** Python's `p in s` for strings. */
  predicate Contains(s: string, p: string) {
    exists i | 0 <= i <= |s| - |p| :: OccursAt(s, p, i)
  }

  /** A pattern whose first two characters never appear side by side in `s`
      does not occur in `s`. */
  lemma NotContainedByPair(s: string, p: string)
    requires |p| >= 2
    requires forall i :: 0 <= i < |s| - 1 ==> s[i] != p[0] || s[i + 1] != p[1]
    ensures !Contains(s, p)
  {
    forall i | 0 <= i <= |s| - |p|
      ensures !OccursAt(s, p, i)
    {
      assert s[i..i + |p|][0] == s[i] && s[i..i + |p|][1] == s[i + 1];
    }
  }

  /** A pattern longer than `s` does not occur in it; one as long occurs
      only if it equals `s`. */
  lemma ContainsSameLength(s: string, p: string)
    requires |p| >= |s|
    ensures Contains(s, p) <==> s == p
  {
    if s == p {
      assert OccursAt(s, p, 0);
    }
  }

  predicate EndsWith(s: string, suffix: string) {
    |suffix| <= |s| && s[|s| - |suffix|..] == suffix
  }

  /** How many of `keywords` occur in `line`. */
  function KeywordCount(keywords: seq<string>, line: string): nat {
    if keywords == [] then 0
    else KeywordCount(keywords[..|keywords| - 1], line)
         + (if Contains(line, keywords[|keywords| - 1]) then 1 else 0)
  }

  /** At least two keywords occur exactly when two different entries of the
      list both occur. */
  lemma {:induction false} KeywordCountAtLeastTwo(keywords: seq<string>, line: string)
    ensures KeywordCount(keywords, line) >= 1 <==>
              exists i :: 0 <= i < |keywords| && Contains(line, keywords[i])
    ensures KeywordCount(keywords, line) >= 2 <==>
              exists i, j :: 0 <= i < j < |keywords| && Contains(line, keywords[i]) && Contains(line, keywords[j])
  {
    if keywords != [] {
      var init := keywords[..|keywords| - 1];
      KeywordCountAtLeastTwo(init, line);
      assert forall i :: 0 <= i < |init| ==> init[i] == keywords[i];
    }
  }
}
