/** The string operations the modelled code relies on, over Dafny strings. */
module Text {

  /** What the original language's strip() removes by default. */
  predicate IsSpace(c: char) {
    || '\t' <= c <= '\r'
    || '\U{1c}' <= c <= ' '
    || c in {'\U{85}', '\U{a0}', '\U{1680}', '\U{2028}', '\U{2029}', '\U{202f}', '\U{205f}', '\U{3000}'}
    || '\U{2000}' <= c <= '\U{200a}'
  }

  function UpperChar(c: char): char {
    if 'a' <= c <= 'z' then 'A' + (c - 'a') else c
  }

  function LowerChar(c: char): char {
    if 'A' <= c <= 'Z' then 'a' + (c - 'A') else c
  }

  function ToUpper(s: string): (r: string)
    ensures |r| == |s|
    ensures forall i :: 0 <= i < |s| ==> r[i] == UpperChar(s[i])
  {
    seq(|s|, i requires 0 <= i < |s| => UpperChar(s[i]))
  }

  function ToLower(s: string): (r: string)
    ensures |r| == |s|
    ensures forall i :: 0 <= i < |s| ==> r[i] == LowerChar(s[i])
  {
    seq(|s|, i requires 0 <= i < |s| => LowerChar(s[i]))
  }

  function StripLeft(s: string, drop: char -> bool): (r: string)
    ensures |r| <= |s|
    ensures r != [] ==> !drop(r[0])
    ensures s != [] && !drop(s[0]) ==> r == s
  {
    if s != [] && drop(s[0]) then StripLeft(s[1..], drop) else s
  }

  function StripRight(s: string, drop: char -> bool): (r: string)
    ensures r <= s
    ensures r != [] ==> !drop(r[|r| - 1])
    ensures s != [] && !drop(s[|s| - 1]) ==> r == s
  {
    if s != [] && drop(s[|s| - 1]) then StripRight(s[..|s| - 1], drop) else s
  }

  function StripBy(s: string, drop: char -> bool): (r: string)
    ensures |r| <= |s|
    ensures r != [] ==> !drop(r[0]) && !drop(r[|r| - 1])
    ensures s != [] && !drop(s[0]) && !drop(s[|s| - 1]) ==> r == s
  {
    StripRight(StripLeft(s, drop), drop)
  }

  function Strip(s: string): string {
    StripBy(s, IsSpace)
  }

  function Repeat(c: char, n: nat): (r: string)
    ensures |r| == n
  {
    if n == 0 then "" else [c] + Repeat(c, n - 1)
  }

  /** Does `pat`, written in upper case, occur in `s` at `k`, ignoring case? */
  predicate MatchAt(s: string, pat: string, k: int) {
    && 0 <= k && k + |pat| <= |s|
    && forall i :: 0 <= i < |pat| ==> UpperChar(s[k + i]) == pat[i]
  }

  /** The first match at or after `k`, or |s| when there is none. */
  function FindFrom(s: string, pat: string, k: nat): (r: nat)
    requires k <= |s|
    ensures k <= r <= |s|
    ensures forall j :: k <= j < r ==> !MatchAt(s, pat, j)
    ensures r < |s| ==> MatchAt(s, pat, r)
    decreases |s| - k
  {
    if k == |s| || MatchAt(s, pat, k) then k else FindFrom(s, pat, k + 1)
  }

  /** Split at the leftmost non-overlapping matches of a separator, ignoring case. */
  function SplitOn(s: string, pat: string): (parts: seq<string>)
    requires pat != ""
    ensures |parts| > 0
    ensures forall i :: 0 <= i < |parts| ==> |parts[i]| <= |s|
    ensures FindFrom(s, pat, 0) < |s| ==> forall i :: 0 <= i < |parts| ==> |parts[i]| < |s|
    decreases |s|
  {
    var k := FindFrom(s, pat, 0);
    if k == |s| then [s] else [s[..k]] + SplitOn(s[k + |pat|..], pat)
  }

  predicate Occurs(s: string, pat: string) {
    FindFrom(s, pat, 0) < |s|
  }

  predicate StartsWith(s: string, prefix: string) {
    prefix <= s
  }

  predicate EndsWith(s: string, suffix: string) {
    |suffix| <= |s| && s[|s| - |suffix|..] == suffix
  }

  predicate OccursAt(s: string, part: string, k: nat)
    requires k + |part| <= |s|
  {
    s[k..k + |part|] == part
  }

  predicate Contains(s: string, part: string) {
    exists k :: 0 <= k <= |s| - |part| && OccursAt(s, part, k)
  }

  lemma {:induction false} StripLeftRepeat(c: char, n: nat, s: string, drop: char -> bool)
    requires drop(c)
    ensures StripLeft(Repeat(c, n) + s, drop) == StripLeft(s, drop)
  {
    if n == 0 {
      assert Repeat(c, 0) + s == s;
    } else {
      assert (Repeat(c, n) + s)[1..] == Repeat(c, n - 1) + s;
      StripLeftRepeat(c, n - 1, s, drop);
    }
  }

  lemma {:induction false} RepeatSnoc(c: char, n: nat)
    ensures Repeat(c, n + 1) == Repeat(c, n) + [c]
  {
    if n > 0 {
      RepeatSnoc(c, n - 1);
    }
  }

  lemma {:induction false} StripRightRepeat(c: char, n: nat, s: string, drop: char -> bool)
    requires drop(c)
    ensures StripRight(s + Repeat(c, n), drop) == StripRight(s, drop)
  {
    if n == 0 {
      assert s + Repeat(c, 0) == s;
    } else {
      assert s + Repeat(c, n) == (s + [c]) + Repeat(c, n - 1);
      StripRightRepeat(c, n - 1, s + [c], drop);
      assert (s + [c])[..|s|] == s;
    }
  }

  // ----- searching without regard to case, and cutting

  /** The text contains the lower-case `part`, in whatever case. */
  ghost predicate Mentions(text: string, part: string) {
    exists k :: MentionedAt(text, part, k)
  }

  predicate MentionedAt(text: string, part: string, k: nat) {
    k + |part| <= |text| && ToLower(text[k..k + |part|]) == part
  }

  lemma {:induction false} ContainsLower(text: string, part: string)
    ensures Contains(ToLower(text), part) <==> Mentions(text, part)
  {
    var low, n := ToLower(text), |part|;
    if Contains(low, part) {
      var k :| 0 <= k <= |low| - n && OccursAt(low, part, k);
      assert low[k..k + n] == ToLower(text[k..k + n]);
      assert MentionedAt(text, part, k);
    }
    if Mentions(text, part) {
      var k: nat :| MentionedAt(text, part, k);
      assert low[k..k + n] == ToLower(text[k..k + n]);
      assert OccursAt(low, part, k);
    }
  }

  lemma {:induction false} ContainsSplit(s: string, part: string)
    ensures Contains(s, part) <==> exists front, back :: s == front + part + back
  {
    if Contains(s, part) {
      var k :| 0 <= k <= |s| - |part| && OccursAt(s, part, k);
      assert s == s[..k] + part + s[k + |part|..];
    }
    if front, back :| s == front + part + back {
      assert OccursAt(s, part, |front|);
    }
  }

  lemma {:induction false} NotShorter(s: string, a: string, b: string, c: char)
    requires a <= s && b <= s && c !in b && (|a| < |s| ==> s[|a|] == c)
    ensures |a| >= |b|
  {
    assert forall i :: 0 <= i < |b| ==> s[i] == b[i];
  }

  /** There is one way to cut a text at the first such character. */
  lemma {:induction false} SameCut(s: string, a: string, b: string, c: char)
    requires a <= s && c !in a && (|a| < |s| ==> s[|a|] == c)
    requires b <= s && c !in b && (|b| < |s| ==> s[|b|] == c)
    ensures a == b
  {
    NotShorter(s, a, b, c);
    NotShorter(s, b, a, c);
  }

  // ----- letters

  const CAPITALS := "ABCDEFGHIJKLMNOPQRSTUVWXYZ"
  const SMALL := "abcdefghijklmnopqrstuvwxyz"

  /** Changing case exchanges the letters of the two alphabets and leaves every other character. */
  lemma {:induction false} CaseExactly(c: char, i: nat)
    requires i < 26
    ensures c == CAPITALS[i] ==> LowerChar(c) == SMALL[i] && UpperChar(c) == c
    ensures c == SMALL[i] ==> UpperChar(c) == CAPITALS[i] && LowerChar(c) == c
    ensures c !in CAPITALS && c !in SMALL ==> LowerChar(c) == c && UpperChar(c) == c
  {
    AlphabetAt(i);
    if 'A' <= c <= 'Z' {
      AlphabetAt((c - 'A') as nat);
    } else if 'a' <= c <= 'z' {
      AlphabetAt((c - 'a') as nat);
    }
  }

  lemma {:induction false} AlphabetAt(i: nat)
    requires i < 26
    ensures CAPITALS[i] == 'A' + i as char && SMALL[i] == 'a' + i as char
  {
  }
}
