/** The parts of Python's `str` that the résumé pipeline relies on, restricted to ASCII:
    character classes, `lower`, `find`, `in`, `count`, `split`, `join`, `strip` and
    `splitlines`. Characters outside ASCII are treated as neither letters, digits nor
    whitespace. */
module Text {

  predicate IsUpper(c: char) { 'A' <= c <= 'Z' }
  predicate IsLower(c: char) { 'a' <= c <= 'z' }
  predicate IsLetter(c: char) { IsUpper(c) || IsLower(c) }
  predicate IsDigit(c: char) { '0' <= c <= '9' }
  predicate IsAlnum(c: char) { IsLetter(c) || IsDigit(c) }

  /** `str.isspace` on ASCII: space, tab, line feed, vertical tab, form feed, carriage
      return and the four separators 0x1c..0x1f. */
  predicate IsSpace(c: char) { c == ' ' || '\t' <= c <= '\r' || '\U{1c}' <= c <= '\U{1f}' }

  /** The line boundaries of `str.splitlines` on ASCII (`\r\n` is handled by SplitLines). */
  predicate IsLineBreak(c: char) { '\n' <= c <= '\r' || '\U{1c}' <= c <= '\U{1e}' }

  function Lower(c: char): (r: char)
    ensures !IsUpper(r)
    ensures IsLetter(c) <==> IsLetter(r)
    ensures IsDigit(c) <==> IsDigit(r)
    ensures IsSpace(c) <==> IsSpace(r)
    ensures !IsUpper(c) ==> r == c
  {
    if IsUpper(c) then (c as int + 32) as char else c
  }

  /** `str.lower()` */
  function LowerStr(s: string): (r: string)
    ensures |r| == |s|
    ensures forall i :: 0 <= i < |s| ==> r[i] == Lower(s[i])
  {
    seq(|s|, i requires 0 <= i < |s| => Lower(s[i]))
  }

  predicate IsLowerStr(s: string) { forall i :: 0 <= i < |s| ==> !IsUpper(s[i]) }

  lemma {:induction false} LowerStrAppend(a: string, b: string)
    ensures LowerStr(a + b) == LowerStr(a) + LowerStr(b)
  {
  }

  lemma {:induction false} LowerStrOfLower(s: string)
    requires IsLowerStr(s)
    ensures LowerStr(s) == s
  {
  }

  // ---------------------------------------------------------------------------
  // Substrings

  predicate OccursAt(s: string, pat: string, i: int)
  {
    0 <= i && i + |pat| <= |s| && s[i..i + |pat|] == pat
  }

  /** `s.find(pat, start)`: the first index at or after `start` where `pat` occurs, or -1 */
  function FindFrom(s: string, pat: string, start: nat): (r: int)
    requires start <= |s|
    ensures r == -1 || start <= r <= |s| - |pat|
    ensures r >= 0 ==> OccursAt(s, pat, r)
    ensures forall j :: start <= j < (if r < 0 then |s| + 1 else r) ==> !OccursAt(s, pat, j)
    decreases |s| - start
  {
    if start + |pat| > |s| then -1
    else if s[start..start + |pat|] == pat then start
    else if start == |s| then -1
    else FindFrom(s, pat, start + 1)
  }

  /** `s.find(pat)` */
  function Find(s: string, pat: string): (r: int)
    ensures r == -1 || 0 <= r <= |s| - |pat|
    ensures r >= 0 ==> OccursAt(s, pat, r)
    ensures r >= 0 ==> forall j :: 0 <= j < r ==> !OccursAt(s, pat, j)
    ensures r < 0 ==> forall j :: 0 <= j <= |s| ==> !OccursAt(s, pat, j)
  {
    FindFrom(s, pat, 0)
  }

  /** `pat in s` */
  predicate Contains(s: string, pat: string)
  {
    Find(s, pat) >= 0
  }

  lemma {:induction false} ContainsWitness(s: string, pat: string, i: int)
    requires OccursAt(s, pat, i)
    ensures Contains(s, pat)
  {
  }

  /** Text appended after (or before) a string keeps every substring it had. */
  lemma {:induction false} ContainsAppend(s: string, t: string, pat: string)
    requires Contains(s, pat)
    ensures Contains(s + t, pat) && Contains(t + s, pat)
  {
    var i := Find(s, pat);
    assert (s + t)[i..i + |pat|] == s[i..i + |pat|];
    ContainsWitness(s + t, pat, i);
    assert (t + s)[|t| + i..|t| + i + |pat|] == s[i..i + |pat|];
    ContainsWitness(t + s, pat, |t| + i);
  }

  /** `s.count(pat)`: the number of non-overlapping occurrences, scanning left to right;
      like Python, the empty pattern occurs `|s| + 1` times. */
  function CountOcc(s: string, pat: string): (n: nat)
    ensures n == 0 <==> !Contains(s, pat)
    decreases |s|
  {
    if |pat| == 0 then |s| + 1
    else
      var i := Find(s, pat);
      if i < 0 then 0 else 1 + CountOcc(s[i + |pat|..], pat)
  }

  // ---------------------------------------------------------------------------
  // Prefixes and suffixes

  predicate StartsWith(s: string, p: string) { |p| <= |s| && s[..|p|] == p }
  predicate EndsWith(s: string, p: string) { |p| <= |s| && s[|s| - |p|..] == p }

  // ---------------------------------------------------------------------------
  // Whitespace splitting and joining

  /** Length of the leading run of non-whitespace characters. */
  function WordLen(s: string): (n: nat)
    ensures n <= |s|
    ensures forall i :: 0 <= i < n ==> !IsSpace(s[i])
    ensures n < |s| ==> IsSpace(s[n])
  {
    if |s| == 0 || IsSpace(s[0]) then 0 else 1 + WordLen(s[1..])
  }

  predicate IsWord(w: string) { |w| > 0 && forall i :: 0 <= i < |w| ==> !IsSpace(w[i]) }

  /** `s.split()`: the maximal runs of non-whitespace characters, in order. */
  function Split(s: string): (ws: seq<string>)
    ensures forall k :: 0 <= k < |ws| ==> IsWord(ws[k])
    decreases |s|
  {
    if |s| == 0 then []
    else if IsSpace(s[0]) then Split(s[1..])
    else
      var n := WordLen(s);
      [s[..n]] + Split(s[n..])
  }

  /** `sep.join(parts)` */
  function Join(parts: seq<string>, sep: string): (r: string)
    ensures |parts| == 1 ==> r == parts[0]
  {
    if |parts| == 0 then ""
    else if |parts| == 1 then parts[0]
    else parts[0] + sep + Join(parts[1..], sep)
  }

  lemma {:induction false} WordLenOfWord(w: string, t: string)
    requires IsWord(w)
    requires |t| == 0 || IsSpace(t[0])
    ensures WordLen(w + t) == |w|
    decreases |w|
  {
    if |w| > 1 {
      assert (w + t)[1..] == w[1..] + t;
      WordLenOfWord(w[1..], t);
    } else {
      assert (w + t)[1..] == t;
    }
  }

  /** Splitting words joined by single spaces gives the words back. */
  lemma {:induction false} SplitJoin(ws: seq<string>)
    requires forall k :: 0 <= k < |ws| ==> IsWord(ws[k])
    ensures Split(Join(ws, " ")) == ws
    decreases |ws|
  {
    if |ws| == 0 {
    } else if |ws| == 1 {
      SplitWord(ws[0]);
    } else {
      var rest := Join(ws[1..], " ");
      var s := ws[0] + " " + rest;
      assert s == ws[0] + (" " + rest);
      WordLenOfWord(ws[0], " " + rest);
      assert s[..|ws[0]|] == ws[0];
      assert s[|ws[0]|..] == " " + rest;
      assert (" " + rest)[1..] == rest;
      SplitJoin(ws[1..]);
      assert ws == [ws[0]] + ws[1..];
    }
  }

  lemma {:induction false} SplitWord(w: string)
    requires IsWord(w)
    ensures Split(w) == [w]
  {
    WordLenOfWord(w, "");
    assert w + "" == w;
    assert w[|w|..] == "";
  }

  // ---------------------------------------------------------------------------
  // Stripping

  /** `s.lstrip(chars)` */
  function LStrip(s: string, chars: set<char>): (r: string)
    ensures |r| <= |s| && r == s[|s| - |r|..]
    ensures |r| > 0 ==> r[0] !in chars
  {
    if |s| > 0 && s[0] in chars then LStrip(s[1..], chars) else s
  }

  /** `s.rstrip(chars)` */
  function RStrip(s: string, chars: set<char>): (r: string)
    ensures |r| <= |s| && r == s[..|r|]
    ensures |r| > 0 ==> r[|r| - 1] !in chars
  {
    if |s| > 0 && s[|s| - 1] in chars then RStrip(s[..|s| - 1], chars) else s
  }

  /** `s.strip(chars)` */
  function Strip(s: string, chars: set<char>): (r: string)
    ensures |r| <= |s|
    ensures |r| > 0 ==> r[0] !in chars && r[|r| - 1] !in chars
  {
    RStrip(LStrip(s, chars), chars)
  }

  /** The ASCII whitespace characters, as a set. */
  const Whitespace: set<char> := {' ', '\t', '\n', '\U{b}', '\U{c}', '\r', '\U{1c}', '\U{1d}', '\U{1e}', '\U{1f}'}

  lemma {:induction false} WhitespaceIsSpace(c: char)
    ensures c in Whitespace <==> IsSpace(c)
  {
  }

  /** `s.strip()` */
  function StripSpace(s: string): (r: string)
    ensures |r| <= |s|
    ensures |r| > 0 ==> !IsSpace(r[0]) && !IsSpace(r[|r| - 1])
  {
    var r := Strip(s, Whitespace);
    assert |r| > 0 ==> r[0] !in Whitespace && r[|r| - 1] !in Whitespace;
    r
  }

  // ---------------------------------------------------------------------------
  // Lines

  /** Length of the leading part of `s` that holds no line boundary. */
  function LineLen(s: string): (n: nat)
    ensures n <= |s|
    ensures forall i :: 0 <= i < n ==> !IsLineBreak(s[i])
    ensures n < |s| ==> IsLineBreak(s[n])
  {
    if |s| == 0 || IsLineBreak(s[0]) then 0 else 1 + LineLen(s[1..])
  }

  /** `s.splitlines()`: lines without their terminators; `\r\n` counts as one boundary and
      a final terminator does not start an empty line. */
  function SplitLines(s: string): (ls: seq<string>)
    ensures |ls| == 0 <==> |s| == 0
    ensures LineLen(s) < |s| && s[LineLen(s)] == '\n' ==> ls == [s[..LineLen(s)]] + SplitLines(s[LineLen(s) + 1..])
    decreases |s|
  {
    if |s| == 0 then []
    else
      var n := LineLen(s);
      if n == |s| then [s]
      else
        [s[..n]] + SplitLines(s[n + BreakWidth(s, n)..])
  }

  /** The width of the line boundary at `n`: two for `\r\n`, one otherwise. */
  function BreakWidth(s: string, n: nat): (w: nat)
    requires n < |s|
    ensures 1 <= w <= 2 && n + w <= |s|
    ensures s[n] == '\n' ==> w == 1
  {
    if s[n] == '\r' && n + 1 < |s| && s[n + 1] == '\n' then 2 else 1
  }

  /** No line holds a line boundary. */
  lemma {:induction false} SplitLinesHaveNoBreaks(s: string)
    ensures forall k, i :: 0 <= k < |SplitLines(s)| && 0 <= i < |SplitLines(s)[k]| ==> !IsLineBreak(SplitLines(s)[k][i])
    decreases |s|
  {
    if |s| > 0 {
      var n := LineLen(s);
      if n < |s| {
        var rest := SplitLines(s[n + BreakWidth(s, n)..]);
        SplitLinesHaveNoBreaks(s[n + BreakWidth(s, n)..]);
        assert SplitLines(s) == [s[..n]] + rest;
        forall k, i | 0 <= k < |SplitLines(s)| && 0 <= i < |SplitLines(s)[k]| ensures !IsLineBreak(SplitLines(s)[k][i]) {
          if k > 0 {
            assert SplitLines(s)[k] == rest[k - 1];
          }
        }
      }
    }
  }

  /** Text whose only line boundaries are `\n`, and that does not end with one, is given
      back by joining its lines with `\n`. */
  lemma {:induction false} JoinSplitLines(s: string)
    requires forall i :: 0 <= i < |s| && IsLineBreak(s[i]) ==> s[i] == '\n'
    requires |s| == 0 || s[|s| - 1] != '\n'
    ensures Join(SplitLines(s), "\n") == s
    decreases |s|
  {
    if |s| > 0 {
      var n := LineLen(s);
      if n < |s| {
        var rest := s[n + 1..];
        assert |rest| > 0 && rest[|rest| - 1] == s[|s| - 1];
        forall i | 0 <= i < |rest| && IsLineBreak(rest[i]) ensures rest[i] == '\n' {
          assert rest[i] == s[n + 1 + i];
        }
        JoinSplitLines(rest);
        JoinSplitLinesStep(s);
      } else {
        assert SplitLines(s) == [s];
      }
    }
  }

  /** One line and its `\n` in front of the rest. */
  lemma {:induction false} JoinSplitLinesStep(s: string)
    requires LineLen(s) < |s| && s[LineLen(s)] == '\n'
    requires |s[LineLen(s) + 1..]| > 0
    requires Join(SplitLines(s[LineLen(s) + 1..]), "\n") == s[LineLen(s) + 1..]
    ensures Join(SplitLines(s), "\n") == s
  {
    var n := LineLen(s);
    var rest := s[n + 1..];
    var head := s[..n];
    var tail := SplitLines(rest);
    JoinCons(head, tail, "\n");
    CutAt(s, n);
  }

  lemma {:induction false} CutAt(s: string, n: nat)
    requires n < |s|
    ensures s[..n] + [s[n]] + s[n + 1..] == s
  {
  }


  lemma {:induction false} JoinCons(head: string, tail: seq<string>, sep: string)
    requires |tail| > 0
    ensures Join([head] + tail, sep) == head + sep + Join(tail, sep)
  {
    assert ([head] + tail)[1..] == tail;
  }

  /** Every character of `s` replaced as `s.replace(a, b)` does for single characters. */
  function ReplaceChar(s: string, a: char, b: char): (r: string)
    ensures |r| == |s|
    ensures forall i :: 0 <= i < |s| ==> r[i] == (if s[i] == a then b else s[i])
  {
    seq(|s|, i requires 0 <= i < |s| => if s[i] == a then b else s[i])
  }

  // ---------------------------------------------------------------------------
  // Ordering

  /** Python's `<` on strings: lexicographic by code point, a proper prefix first. */
  predicate LexLess(a: string, b: string)
    decreases |a|
  {
    if |a| == 0 then |b| > 0
    else if |b| == 0 then false
    else if a[0] != b[0] then a[0] < b[0]
    else LexLess(a[1..], b[1..])
  }

  lemma {:induction false} LexLessIrreflexive(a: string)
    ensures !LexLess(a, a)
    decreases |a|
  {
    if |a| > 0 { LexLessIrreflexive(a[1..]); }
  }

  lemma {:induction false} LexLessTransitive(a: string, b: string, c: string)
    requires LexLess(a, b) && LexLess(b, c)
    ensures LexLess(a, c)
    decreases |a|
  {
    if |a| > 0 && |b| > 0 && |c| > 0 && a[0] == b[0] && b[0] == c[0] {
      LexLessTransitive(a[1..], b[1..], c[1..]);
    }
  }

  lemma {:induction false} LexLessTotal(a: string, b: string)
    requires a != b
    ensures LexLess(a, b) || LexLess(b, a)
    decreases |a|
  {
    if |a| > 0 && |b| > 0 && a[0] == b[0] {
      assert a == [a[0]] + a[1..] && b == [b[0]] + b[1..];
      LexLessTotal(a[1..], b[1..]);
    }
  }
}
