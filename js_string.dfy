/**
 * The few JavaScript string built-ins the chat components rely on, as
 * functions over `string` (a sequence of Unicode scalar values):
 *   String.prototype.toLowerCase  -> Lower
 *   String.prototype.includes     -> Includes
 *   String.prototype.startsWith   -> StartsWith
 *   String.prototype.trim         -> Trim
 *   String.prototype.split('\n')  -> SplitLines
 * Each comes with an independent characterisation proved against it.
 */
module JsString {

  /** The index-based reading of `includes`: `pat` occurs at some position of `s`. */
  ghost predicate OccursAt(s: string, pat: string, i: int) {
    0 <= i && i + |pat| <= |s| && s[i..i + |pat|] == pat
  }

  /** `s.startsWith(p)`: `p` occurs at the very beginning of `s`. */
  predicate StartsWith(s: string, p: string) {
    |p| <= |s| && s[..|p|] == p
  }

  /** `startsWith` holds exactly when `s` is `p` followed by some text. */
  lemma StartsWithIffPrefix(s: string, p: string)
    ensures StartsWith(s, p) <==> exists t :: s == p + t
  {
    if StartsWith(s, p) {
      assert s == p + s[|p|..];
    }
    forall t | s == p + t
      ensures StartsWith(s, p)
    {
      assert s[..|p|] == p;
    }
  }

  /** `s.includes(pat)`: some suffix of `s` starts with `pat`; "".includes("") is true. */
  predicate Includes(s: string, pat: string)
    decreases |s|
  {
    StartsWith(s, pat) || (s != [] && Includes(s[1..], pat))
  }

  /** `Includes` finds exactly the occurrences that the index-based reading describes. */
  lemma {:induction false} IncludesIffOccurs(s: string, pat: string)
    ensures Includes(s, pat) <==> exists i :: OccursAt(s, pat, i)
    decreases |s|
  {
    if StartsWith(s, pat) {
      assert OccursAt(s, pat, 0);
    } else if s == [] {
      assert forall i :: !OccursAt(s, pat, i);
    } else {
      IncludesIffOccurs(s[1..], pat);
      if Includes(s[1..], pat) {
        var i :| OccursAt(s[1..], pat, i);
        assert s[1..][i..i + |pat|] == s[i + 1..i + 1 + |pat|];
        assert OccursAt(s, pat, i + 1);
      } else {
        forall i | OccursAt(s, pat, i)
          ensures false
        {
          assert i != 0;
          assert s[1..][i - 1..i - 1 + |pat|] == s[i..i + |pat|];
          assert OccursAt(s[1..], pat, i - 1);
        }
      }
    }
  }

  /** Whoever contains `p + q` contains `p`: a longer trigger word makes a shorter one redundant. */
  lemma {:induction false} IncludesLongerImpliesShorter(s: string, p: string, q: string)
    requires Includes(s, p + q)
    ensures Includes(s, p)
    decreases |s|
  {
    if StartsWith(s, p + q) {
      assert s[..|p|] == (p + q)[..|p|] == p;
    } else {
      IncludesLongerImpliesShorter(s[1..], p, q);
    }
  }

  /** A text contains whatever stands between its beginning and end parts. */
  lemma IncludesInMiddle(a: string, pat: string, c: string)
    ensures Includes(a + pat + c, pat)
  {
    assert OccursAt(a + pat + c, pat, |a|);
    IncludesIffOccurs(a + pat + c, pat);
  }

  // ---------------------------------------------------------------------
  // toLowerCase

  /** Unicode lower-case mapping restricted to the letters A-Z. */
  function LowerChar(c: char): char {
    if 'A' <= c <= 'Z' then (c as int + 32) as char else c
  }

  /** `s.toLowerCase()` for the ASCII letters; every other character is kept. */
  function Lower(s: string): (r: string)
    ensures |r| == |s|
    ensures forall i :: 0 <= i < |s| ==> r[i] == LowerChar(s[i])
  {
    seq(|s|, i requires 0 <= i < |s| => LowerChar(s[i]))
  }

  /** A lower-cased string has no upper-case ASCII letter left, so lower-casing twice changes nothing. */
  lemma LowerIdempotent(s: string)
    ensures forall i :: 0 <= i < |s| ==> !('A' <= Lower(s)[i] <= 'Z')
    ensures Lower(Lower(s)) == Lower(s)
  {
  }

  /** A text without ASCII capitals is its own lower-case form. */
  lemma LowerFixesLowerCase(s: string)
    requires forall k :: 0 <= k < |s| ==> !('A' <= s[k] <= 'Z')
    ensures Lower(s) == s
  {
  }

  /** Lower-casing commutes with taking a slice. */
  lemma LowerSlice(s: string, i: int, j: int)
    requires 0 <= i <= j <= |s|
    ensures Lower(s)[i..j] == Lower(s[i..j])
  {
    forall k | 0 <= k < j - i
      ensures Lower(s)[i..j][k] == Lower(s[i..j])[k]
    {
      assert s[i..j][k] == s[i + k];
    }
  }

  /** The slice of `s` at `i` equals `pat` once lower-cased. */
  ghost predicate OccursIgnoringCaseAt(s: string, pat: string, i: int) {
    0 <= i && i + |pat| <= |s| && Lower(s[i..i + |pat|]) == pat
  }

  /**
   * Matching a pattern against `Lower(s)` is case-insensitive matching:
   * it succeeds exactly when some slice of `s`, lower-cased, equals the pattern.
   */
  lemma CaseInsensitiveIncludes(s: string, pat: string)
    ensures Includes(Lower(s), pat) <==> exists i :: OccursIgnoringCaseAt(s, pat, i)
  {
    IncludesIffOccurs(Lower(s), pat);
    if Includes(Lower(s), pat) {
      var i :| OccursAt(Lower(s), pat, i);
      LowerSlice(s, i, i + |pat|);
      assert OccursIgnoringCaseAt(s, pat, i);
    }
    forall i | OccursIgnoringCaseAt(s, pat, i)
      ensures OccursAt(Lower(s), pat, i)
    {
      LowerSlice(s, i, i + |pat|);
    }
  }

  // ---------------------------------------------------------------------
  // trim

  /** ECMAScript WhiteSpace and LineTerminator code points: what `trim` removes. */
  predicate IsWhitespace(c: char) {
    || c == '\t' || c == '\n' || c == '\U{B}' || c == '\U{C}' || c == '\r' || c == ' '
    || c == '\U{A0}' || c == '\U{1680}' || '\U{2000}' <= c <= '\U{200A}'
    || c == '\U{2028}' || c == '\U{2029}' || c == '\U{202F}' || c == '\U{205F}'
    || c == '\U{3000}' || c == '\U{FEFF}'
  }

  ghost predicate AllWhitespace(s: string) {
    forall i :: 0 <= i < |s| ==> IsWhitespace(s[i])
  }

  /** The index of the first non-space of `s` at or after `i`, or `|s|` when there is none. */
  function SkipSpace(s: string, i: nat): (r: nat)
    requires i <= |s|
    ensures i <= r <= |s|
    ensures forall k :: i <= k < r ==> IsWhitespace(s[k])
    ensures r == |s| || !IsWhitespace(s[r])
    decreases |s| - i
  {
    if i < |s| && IsWhitespace(s[i]) then SkipSpace(s, i + 1) else i
  }

  /** The index just past the last non-space of `s[lo..j]`, or `lo` when there is none. */
  function BackSpace(s: string, lo: nat, j: nat): (r: nat)
    requires lo <= j <= |s|
    ensures lo <= r <= j
    ensures forall k :: r <= k < j ==> IsWhitespace(s[k])
    ensures r == lo || !IsWhitespace(s[r - 1])
    decreases j
  {
    if lo < j && IsWhitespace(s[j - 1]) then BackSpace(s, lo, j - 1) else j
  }

  /** Where the trimmed text starts in `s`: the length of the leading white space. */
  function TrimFrom(s: string): nat
    ensures TrimFrom(s) <= |s|
  {
    SkipSpace(s, 0)
  }

  /** Where the trimmed text ends in `s`: past it there is only white space. */
  function TrimTo(s: string): nat
    ensures TrimFrom(s) <= TrimTo(s) <= |s|
  {
    BackSpace(s, TrimFrom(s), |s|)
  }

  /**
   * `s.trim()`: the slice of `s` between the leading and the trailing white
   * space. Only white space lies outside it, and it neither starts nor ends
   * with white space.
   */
  function Trim(s: string): (r: string)
    ensures r == s[TrimFrom(s)..TrimTo(s)]
    ensures forall k :: 0 <= k < |s| && !(TrimFrom(s) <= k < TrimTo(s)) ==> IsWhitespace(s[k])
    ensures r == [] || (!IsWhitespace(r[0]) && !IsWhitespace(r[|r| - 1]))
  {
    s[TrimFrom(s)..TrimTo(s)]
  }

  /** The trimmed text is empty exactly when the whole text is white space. */
  lemma TrimEmptyIff(s: string)
    ensures Trim(s) == [] <==> AllWhitespace(s)
  {
    var r := Trim(s);
    if r != [] {
      assert s[TrimFrom(s)] == r[0];
    }
  }

  /** A character whose lower-case form is not white space is not white space either. */
  lemma LowerKeepsNonSpace(c: char)
    requires !IsWhitespace(LowerChar(c))
    ensures !IsWhitespace(c)
  {
  }

  /** Every non-space character of `s` lies inside the trimmed text. */
  lemma NonSpaceInsideTrim(s: string, k: int)
    requires 0 <= k < |s| && !IsWhitespace(s[k])
    ensures TrimFrom(s) <= k < TrimTo(s)
  {
    var r := Trim(s);
  }

  /** An occurrence lying inside the slice `s[j..m]` is an occurrence in that slice, shifted by `j`. */
  lemma OccurrenceInSlice(s: string, pat: string, i: int, j: int, m: int, t: string)
    requires OccursIgnoringCaseAt(s, pat, i)
    requires 0 <= j <= i && i + |pat| <= m <= |s| && t == s[j..m]
    ensures OccursIgnoringCaseAt(t, pat, i - j)
  {
    forall k | i - j <= k < i - j + |pat| ensures t[k] == s[k + j] { }
    assert t[i - j..i - j + |pat|] == s[i..i + |pat|];
  }

  /** An occurrence of a pattern that starts and ends with a non-space lies inside the trimmed text. */
  lemma OccurrenceInsideTrim(s: string, pat: string, i: int)
    requires OccursIgnoringCaseAt(s, pat, i)
    requires pat != [] && !IsWhitespace(pat[0]) && !IsWhitespace(pat[|pat| - 1])
    ensures TrimFrom(s) <= i && i + |pat| <= TrimTo(s)
  {
    var n := |pat|;
    var w := s[i..i + n];
    assert Lower(w)[0] == LowerChar(w[0]) && w[0] == s[i];
    assert Lower(w)[n - 1] == LowerChar(w[n - 1]) && w[n - 1] == s[i + n - 1];
    LowerKeepsNonSpace(s[i]);
    LowerKeepsNonSpace(s[i + n - 1]);
    NonSpaceInsideTrim(s, i);
    NonSpaceInsideTrim(s, i + n - 1);
  }

  /** Trimming keeps every case-insensitive occurrence of a pattern that starts and ends with a non-space. */
  lemma TrimKeepsOccurrence(s: string, pat: string, i: int)
    requires OccursIgnoringCaseAt(s, pat, i)
    requires pat != [] && !IsWhitespace(pat[0]) && !IsWhitespace(pat[|pat| - 1])
    ensures OccursIgnoringCaseAt(Trim(s), pat, i - TrimFrom(s))
  {
    OccurrenceInsideTrim(s, pat, i);
    OccurrenceInSlice(s, pat, i, TrimFrom(s), TrimTo(s), Trim(s));
  }

  // ---------------------------------------------------------------------
  // split('\n')

  /** Number of occurrences of `c` in `s`. */
  function Count(s: string, c: char): nat
    decreases |s|
  {
    if s == [] then 0 else (if s[0] == c then 1 else 0) + Count(s[1..], c)
  }

  /** `s.split('\n')`: the pieces between line feeds; "" splits into [""]. */
  function SplitLines(s: string): (r: seq<string>)
    ensures |r| >= 1
    decreases |s|
  {
    if s == [] then [""]
    else
      var rest := SplitLines(s[1..]);
      if s[0] == '\n' then [""] + rest else [[s[0]] + rest[0]] + rest[1..]
  }

  /** `pieces.join('\n')`. */
  function JoinLines(pieces: seq<string>): string
    decreases |pieces|
  {
    if pieces == [] then ""
    else if |pieces| == 1 then pieces[0]
    else pieces[0] + "\n" + JoinLines(pieces[1..])
  }

  /** Splitting yields one piece more than there are line feeds. */
  lemma {:induction false} SplitLinesCount(s: string)
    ensures |SplitLines(s)| == Count(s, '\n') + 1
    decreases |s|
  {
    if s != [] {
      SplitLinesCount(s[1..]);
    }
  }

  /** No piece of a split holds a line feed. */
  lemma {:induction false} SplitPiecesLineFree(s: string)
    ensures forall k :: 0 <= k < |SplitLines(s)| ==> '\n' !in SplitLines(s)[k]
    decreases |s|
  {
    if s != [] {
      SplitPiecesLineFree(s[1..]);
    }
  }

  /** Concatenation of texts is associative. */
  lemma ConcatAssociative(a: string, b: string, c: string)
    ensures (a + b) + c == a + (b + c)
  {
  }

  /** Prefixing a character to the first piece prefixes it to the joined text. */
  lemma JoinExtendsFirst(c: char, pieces: seq<string>)
    requires |pieces| >= 1
    ensures JoinLines([[c] + pieces[0]] + pieces[1..]) == [c] + JoinLines(pieces)
  {
    var longer := [[c] + pieces[0]] + pieces[1..];
    assert |longer| == |pieces| && longer[0] == [c] + pieces[0] && longer[1..] == pieces[1..];
    if |pieces| > 1 {
      var tail := "\n" + JoinLines(pieces[1..]);
      calc {
        JoinLines(longer);
        ([c] + pieces[0]) + tail;
        { ConcatAssociative([c], pieces[0], tail); }
        [c] + (pieces[0] + tail);
        { assert JoinLines(pieces) == pieces[0] + tail; }
        [c] + JoinLines(pieces);
      }
    }
  }

  /** Joining the pieces of a split with line feeds gives the text back. */
  lemma {:induction false} SplitJoinRoundTrip(s: string)
    ensures JoinLines(SplitLines(s)) == s
    decreases |s|
  {
    if s != [] {
      var rest := SplitLines(s[1..]);
      SplitJoinRoundTrip(s[1..]);
      if s[0] == '\n' {
        assert SplitLines(s) == [""] + rest;
        assert JoinLines([""] + rest) == "" + "\n" + JoinLines(rest);
      } else {
        JoinExtendsFirst(s[0], rest);
      }
      assert [s[0]] + s[1..] == s;
    }
  }
}
