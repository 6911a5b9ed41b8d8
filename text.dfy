/**
  Character classes and string operations used by the analyzers: Python's
  `str.isspace`, substring search (`in`), `strip`/`rstrip`, `str.splitlines`
  and decimal rendering of integers for messages.
*/
module Text {

  /** The characters Python's `str.isspace()` accepts; the regular-expression
      class `\s` on `str` patterns accepts the same set. */
  predicate IsSpace(c: char) {
    c == ' ' || c == '\t' || c == '\n' || c == '\r' ||
    c == '\U{000B}' || c == '\U{000C}' ||
    ('\U{001C}' <= c <= '\U{001F}') ||
    c == '\U{0085}' || c == '\U{00A0}' || c == '\U{1680}' ||
    ('\U{2000}' <= c <= '\U{200A}') ||
    c == '\U{2028}' || c == '\U{2029}' || c == '\U{202F}' ||
    c == '\U{205F}' || c == '\U{3000}'
  }

  /** `sub` occurs in `s` starting at index `i`. */
  predicate OccursAt(s: string, sub: string, i: int) {
    0 <= i && i + |sub| <= |s| && s[i..i + |sub|] == sub
  }

  /** A two-character `sub` occurs at `i` iff its two characters do. */
  lemma OccursAtPair(s: string, sub: string, i: int)
    requires |sub| == 2
    ensures OccursAt(s, sub, i) <==> 0 <= i && i + 2 <= |s| && s[i] == sub[0] && s[i + 1] == sub[1]
  {
    if 0 <= i && i + 2 <= |s| && s[i] == sub[0] && s[i + 1] == sub[1] {
      assert s[i..i + 2] == sub;
    }
  }

  /** An occurrence inside `s[lo..hi]` is one in `s`, shifted by `lo`. */
  lemma OccursInSlice(s: string, sub: string, lo: nat, hi: nat, j: int)
    requires lo <= hi <= |s|
    ensures OccursAt(s[lo..hi], sub, j) <==> 0 <= j && lo + j + |sub| <= hi && OccursAt(s, sub, lo + j)
  {
    if 0 <= j && lo + j + |sub| <= hi {
      var n := |sub|;
      var inner, outer := s[lo..hi][j..j + n], s[lo + j..lo + j + n];
      assert forall t :: 0 <= t < n ==> inner[t] == outer[t];
      assert inner == outer;
    }
  }

  /** `x` can be read back out of `p + x + q` at offset `|p|`. */
  lemma Framed(p: string, x: string, q: string)
    ensures (p + x + q)[|p|..|p| + |x|] == x
  {
    var s := p + x + q;
    assert forall k :: 0 <= k < |x| ==> s[|p|..|p| + |x|][k] == x[k];
  }

  /** Python's `sub in s`: true for the empty `sub`. */
  predicate Contains(s: string, sub: string) {
    exists i :: 0 <= i <= |s| - |sub| && OccursAt(s, sub, i)
  }

  /** Substring containment is transitive. */
  lemma ContainsTransitive(a: string, b: string, c: string)
    requires Contains(a, b) && Contains(b, c)
    ensures Contains(a, c)
  {
    var i :| 0 <= i <= |a| - |b| && OccursAt(a, b, i);
    var j :| 0 <= j <= |b| - |c| && OccursAt(b, c, j);
    forall k | 0 <= k < |c| ensures a[i + j + k] == c[k] {
      assert a[i + j + k] == a[i..i + |b|][j + k];
      assert b[j + k] == b[j..j + |c|][k];
    }
    assert a[i + j..i + j + |c|] == c;
    assert OccursAt(a, c, i + j);
  }

  /** Python's `s.rstrip()`: trailing whitespace removed. */
  function RStrip(s: string): (r: string)
    ensures |r| <= |s| && r == s[..|r|]
    ensures r == [] || !IsSpace(r[|r| - 1])
    ensures forall k :: |r| <= k < |s| ==> IsSpace(s[k])
  {
    if s != [] && IsSpace(s[|s| - 1]) then RStrip(s[..|s| - 1]) else s
  }

  /** Python's `s.lstrip()`: leading whitespace removed. */
  function LStrip(s: string): (r: string)
    ensures |r| <= |s| && r == s[|s| - |r|..]
    ensures r == [] || !IsSpace(r[0])
    ensures forall k :: 0 <= k < |s| - |r| ==> IsSpace(s[k])
  {
    if s != [] && IsSpace(s[0]) then LStrip(s[1..]) else s
  }

  /** Python's `s.strip()`. */
  function Strip(s: string): string {
    LStrip(RStrip(s))
  }

  /** `line.rstrip() != line` holds exactly when the last character is whitespace. */
  lemma RStripChanges(line: string)
    ensures RStrip(line) != line <==> line != [] && IsSpace(line[|line| - 1])
  {
  }

  /** Line `line` has `#` at index `k` and only whitespace before it. */
  predicate HashAfterSpaces(line: string, k: int) {
    0 <= k < |line| && line[k] == '#' && forall j :: 0 <= j < k ==> IsSpace(line[j])
  }

  /** `line.strip().startswith('#')` holds exactly when the first
      non-whitespace character of the line is `#`. */
  lemma StripStartsWithHash(line: string)
    ensures (Strip(line) != [] && Strip(line)[0] == '#') <==> exists k :: HashAfterSpaces(line, k)
  {
    var r := RStrip(line);
    var l := LStrip(r);
    var off := |r| - |l|;
    assert l == r[off..];
    if l != [] && l[0] == '#' {
      forall j | 0 <= j < off ensures IsSpace(line[j]) {
        assert line[j] == r[j];
      }
      assert line[off] == r[off];
      assert HashAfterSpaces(line, off);
    }
    if k :| HashAfterSpaces(line, k) {
      HashPosition(line, k);
    }
  }

  /** A `#` after leading whitespace survives stripping as the first character. */
  lemma HashPosition(line: string, k: int)
    requires HashAfterSpaces(line, k)
    ensures Strip(line) != [] && Strip(line)[0] == '#'
  {
    var r := RStrip(line);
    var l := LStrip(r);
    var off := |r| - |l|;
    assert !IsSpace(line[k]);
    assert k < |r|;
    assert r[k] == line[k];
    assert off <= k;
    assert l[0] == r[off] == line[off];
    assert off == k;
  }

  /** The number of newline characters in `s`. */
  function NewlineCount(s: string): nat {
    multiset(s)['\n']
  }

  /** The index of the first `'\n'` in `s`, or `|s|` when there is none. */
  function IndexOfNewline(s: string): (i: nat)
    ensures i <= |s|
    ensures i < |s| ==> s[i] == '\n'
    ensures forall k :: 0 <= k < i ==> s[k] != '\n'
  {
    if s == [] || s[0] == '\n' then 0 else 1 + IndexOfNewline(s[1..])
  }

  /**
    `str.splitlines()` with `'\n'` as the only line boundary: the pieces
    between newlines, where a final newline does not start another line and
    the empty text has no lines.
  */
  function SplitLines(s: string): (lines: seq<string>)
    ensures forall k :: 0 <= k < |lines| ==> '\n' !in lines[k]
    decreases |s|
  {
    if s == [] then []
    else
      var i := IndexOfNewline(s);
      if i == |s| then [s] else [s[..i]] + SplitLines(s[i + 1..])
  }

  /** Each line followed by a newline, concatenated. */
  function JoinLines(lines: seq<string>): string {
    if lines == [] then [] else lines[0] + "\n" + JoinLines(lines[1..])
  }

  /** The text ends in a line boundary or is empty. */
  predicate EndsWithNewline(s: string) {
    s != [] && s[|s| - 1] == '\n'
  }

  /** There is one line per newline, plus one for unterminated trailing text. */
  lemma {:induction false} SplitLinesCount(s: string)
    ensures |SplitLines(s)| == NewlineCount(s) + (if s != [] && !EndsWithNewline(s) then 1 else 0)
    decreases |s|
  {
    if s != [] {
      var i := IndexOfNewline(s);
      if i < |s| {
        var head, rest := s[..i], s[i + 1..];
        SplitLinesCount(rest);
        SplitAtNewline(s, i);
        NewlineCountSplit(head, rest);
        EndsWithNewlineSplit(head, rest);
      } else {
        NewlineCountNone(s);
      }
    }
  }

  lemma NewlineCountNone(s: string)
    requires '\n' !in s
    ensures NewlineCount(s) == 0
  {
  }

  lemma NewlineCountSplit(head: string, rest: string)
    requires '\n' !in head
    ensures NewlineCount(head + "\n" + rest) == 1 + NewlineCount(rest)
  {
    assert multiset(head + "\n" + rest) == multiset(head) + multiset("\n") + multiset(rest);
    NewlineCountNone(head);
  }

  /** Joining the lines back restores the text, with a newline added when
      the text did not end in one. */
  lemma {:induction false} SplitLinesJoin(s: string)
    ensures JoinLines(SplitLines(s)) == if s == [] || EndsWithNewline(s) then s else s + "\n"
    decreases |s|
  {
    if s != [] {
      var i := IndexOfNewline(s);
      if i < |s| {
        var head, rest := s[..i], s[i + 1..];
        assert SplitLines(s) == [head] + SplitLines(rest);
        SplitLinesJoin(rest);
        JoinLinesCons(head, SplitLines(rest));
        SplitAtNewline(s, i);
        EndsWithNewlineSplit(head, rest);
        if !(rest == [] || EndsWithNewline(rest)) {
          assert head + "\n" + (rest + "\n") == (head + "\n" + rest) + "\n";
        }
      } else {
        JoinLinesCons(s, []);
      }
    }
  }

  lemma SplitAtNewline(s: string, i: nat)
    requires i < |s| && s[i] == '\n'
    ensures s == s[..i] + "\n" + s[i + 1..]
  {
  }

  lemma JoinLinesCons(line: string, lines: seq<string>)
    ensures JoinLines([line] + lines) == line + "\n" + JoinLines(lines)
  {
    assert ([line] + lines)[1..] == lines;
  }

  lemma EndsWithNewlineSplit(head: string, rest: string)
    ensures EndsWithNewline(head + "\n" + rest) <==> rest == [] || EndsWithNewline(rest)
  {
    var s := head + "\n" + rest;
    if rest != [] {
      assert s[|s| - 1] == rest[|rest| - 1];
    }
  }

  /** The decimal digits of `n`, as Python's `str(n)` writes a non-negative int. */
  function NatToString(n: nat): (r: string)
    ensures |r| >= 1
    ensures forall k :: 0 <= k < |r| ==> '0' <= r[k] <= '9'
  {
    if n < 10 then [Digit(n)] else NatToString(n / 10) + [Digit(n % 10)]
  }

  function Digit(d: nat): (c: char)
    requires d < 10
    ensures '0' <= c <= '9'
  {
    "0123456789"[d]
  }
}
