/**
  The style checks: per line, the length, trailing whitespace and an
  operator-spacing pattern; over the whole text, the naming of functions
  found by the pattern `def ([a-z_][a-z0-9_]*)`.
*/
module Style {
  import opened Text

  datatype StyleViolation =
    | LineTooLong(line: nat, length: nat)      // "Line {line}: Line too long ({length} > 79 characters)"
    | TrailingWhitespace(line: nat)            // "Line {line}: Trailing whitespace"
    | MultipleSpacesAroundOperator(line: nat)  // "Line {line}: Multiple spaces around operator"
    | NotSnakeCase(name: string)               // "Function '{name}' should be snake_case"

  datatype StyleReport = StyleReport(violations: seq<StyleViolation>, pep8Compliance: bool)

  const MaxLineLength: nat := 79

  function Message(v: StyleViolation): string {
    match v
    case LineTooLong(line, length) =>
      "Line " + NatToString(line) + ": Line too long (" + NatToString(length) + " > 79 characters)"
    case TrailingWhitespace(line) => "Line " + NatToString(line) + ": Trailing whitespace"
    case MultipleSpacesAroundOperator(line) => "Line " + NatToString(line) + ": Multiple spaces around operator"
    case NotSnakeCase(name) => "Function '" + name + "' should be snake_case"
  }

  /** The message of an 85-character first line. */
  lemma LineTooLongMessage()
    ensures Message(LineTooLong(1, 85)) == "Line 1: Line too long (85 > 79 characters)"
  {
    SmallNumbers();
    LineTooLongText(1, 85);
    LineTooLongLiteral();
  }

  /** The message of trailing blanks on line 12. */
  lemma TrailingWhitespaceMessage()
    ensures Message(TrailingWhitespace(12)) == "Line 12: Trailing whitespace"
  {
    SmallNumbers();
    TrailingWhitespaceText(12);
    TrailingWhitespaceLiteral();
  }

  /** The message of a camel-case function name. */
  lemma NotSnakeCaseMessage()
    ensures Message(NotSnakeCase("getValue")) == "Function 'getValue' should be snake_case"
  {
    NotSnakeCaseLiteral();
  }

  /** The line-too-long message of line `n` with `length` characters. */
  lemma LineTooLongText(n: nat, length: nat)
    ensures Message(LineTooLong(n, length)) ==
      "Line " + NatToString(n) + ": Line too long (" + NatToString(length) + " > 79 characters)"
  {
  }

  /** The trailing-whitespace message of line `n`. */
  lemma TrailingWhitespaceText(n: nat)
    ensures Message(TrailingWhitespace(n)) == "Line " + NatToString(n) + ": Trailing whitespace"
  {
  }

  // The three messages above, assembled from their pieces.

  lemma LineTooLongLiteral()
    ensures "Line " + "1" + ": Line too long (" + "85" + " > 79 characters)" == "Line 1: Line too long (85 > 79 characters)"
  {
    assert "Line " + "1" + ": Line too long (" == "Line 1: Line too long (";
    assert "Line 1: Line too long (" + "85" == "Line 1: Line too long (85";
  }

  lemma TrailingWhitespaceLiteral()
    ensures "Line " + "12" + ": Trailing whitespace" == "Line 12: Trailing whitespace"
  {
  }

  lemma NotSnakeCaseLiteral()
    ensures "Function '" + "getValue" + "' should be snake_case" == "Function 'getValue' should be snake_case"
  {
  }

  /** `str(n)` for the numbers the messages above use. */
  lemma SmallNumbers()
    ensures NatToString(1) == "1" && NatToString(12) == "12" && NatToString(85) == "85"
  {
    assert NatToString(12) == NatToString(1) + [Digit(2)];
    assert NatToString(85) == NatToString(8) + [Digit(5)];
    assert Digit(1) == '1' && Digit(2) == '2' && Digit(8) == '8' && Digit(5) == '5';
  }

  // ---------------------------------------------------------------------
  // Operator spacing: `[^=!<>]\s\s+[=!<>]`

  predicate IsOperator(c: char) {
    c == '=' || c == '!' || c == '<' || c == '>'
  }

  /** An operator at `k` after two blanks, and a non-operator before them. */
  predicate SpacingAt(line: string, k: int) {
    3 <= k < |line| &&
    IsOperator(line[k]) && IsSpace(line[k - 1]) && IsSpace(line[k - 2]) && !IsOperator(line[k - 3])
  }

  /** The matcher: a window of four characters that fits the pattern. */
  predicate HasSpacingIssue(line: string) {
    exists k :: 3 <= k < |line| && SpacingAt(line, k)
  }

  /** The regex read declaratively: a non-operator at `j`, two or more
      blanks, and an operator at `m`. */
  predicate SpacingShape(line: string, j: int, m: int) {
    0 <= j && j + 3 <= m < |line| &&
    !IsOperator(line[j]) && (forall k :: j < k < m ==> IsSpace(line[k])) && IsOperator(line[m])
  }

  /** The four-character window finds exactly the lines the regex matches:
      a longer run of blanks always has a blank, a non-operator, three
      places before the operator. */
  lemma SpacingIffShape(line: string)
    ensures HasSpacingIssue(line) <==> exists j, m :: SpacingShape(line, j, m)
  {
    if k :| 3 <= k < |line| && SpacingAt(line, k) {
      assert SpacingShape(line, k - 3, k);
    }
    if j, m :| SpacingShape(line, j, m) {
      assert IsSpace(line[m - 3]) || m - 3 == j;
      assert SpacingAt(line, m);
    }
  }

  // ---------------------------------------------------------------------
  // Per-line checks

  /** The violations of line number `i`, in check order. */
  function LineViolations(i: nat, line: string): seq<StyleViolation> {
    (if |line| > MaxLineLength then [LineTooLong(i, |line|)] else []) +
    (if RStrip(line) != line then [TrailingWhitespace(i)] else []) +
    (if HasSpacingIssue(line) then [MultipleSpacesAroundOperator(i)] else [])
  }

  /** The findings `f` gives each line, numbered from 1, in line order. */
  function Numbered(lines: seq<string>, f: (nat, string) -> seq<StyleViolation>): seq<StyleViolation> {
    if lines == [] then []
    else Numbered(lines[..|lines| - 1], f) + f(|lines|, lines[|lines| - 1])
  }

  /** A finding is among the numbered ones iff some line has it. */
  lemma {:induction false} NumberedIff(lines: seq<string>, f: (nat, string) -> seq<StyleViolation>, v: StyleViolation)
    ensures v in Numbered(lines, f) <==> exists i :: 0 <= i < |lines| && v in f(i + 1, lines[i])
  {
    if lines != [] {
      var n := |lines| - 1;
      var init := lines[..n];
      NumberedIff(init, f, v);
      if v in Numbered(lines, f) && v !in f(n + 1, lines[n]) {
        var i :| 0 <= i < n && v in f(i + 1, init[i]);
        assert init[i] == lines[i];
      }
      if i :| 0 <= i < n && v in f(i + 1, lines[i]) {
        assert init[i] == lines[i];
      }
    }
  }

  /** The violations of all lines, numbered from 1, in line order. */
  function LinesViolations(lines: seq<string>): seq<StyleViolation> {
    Numbered(lines, LineViolations)
  }

  /** One more line adds its own violations at the end. */
  lemma LinesViolationsStep(lines: seq<string>, i: nat)
    requires i < |lines|
    ensures LinesViolations(lines[..i + 1]) == LinesViolations(lines[..i]) + LineViolations(i + 1, lines[i])
  {
    assert lines[..i + 1][..i] == lines[..i];
  }

  /** The line number a per-line violation carries. */
  function LineOf(v: StyleViolation): nat {
    match v
    case LineTooLong(line, _) => line
    case TrailingWhitespace(line) => line
    case MultipleSpacesAroundOperator(line) => line
    case NotSnakeCase(_) => 0
  }

  // ---------------------------------------------------------------------
  // Function names: `def ([a-z_][a-z0-9_]*)` and `^[a-z_][a-z0-9_]*$`

  predicate IsNameStart(c: char) {
    'a' <= c <= 'z' || c == '_'
  }

  predicate IsNameChar(c: char) {
    IsNameStart(c) || '0' <= c <= '9'
  }

  /** The end of the longest run of `[a-z0-9_]` starting at `i`. */
  function SkipNameChars(s: string, i: nat): (j: nat)
    requires i <= |s|
    ensures i <= j <= |s|
    ensures forall k :: i <= k < j ==> IsNameChar(s[k])
    decreases |s| - i
  {
    if i < |s| && IsNameChar(s[i]) then SkipNameChars(s, i + 1) else i
  }

  /** `def ` followed by a name start at index `p`. */
  predicate DefAt(s: string, p: nat) {
    p + 5 <= |s| && s[p..p + 4] == "def " && IsNameStart(s[p + 4])
  }

  /** `re.findall(r'def ([a-z_][a-z0-9_]*)', s[p..])`: scanning resumes where
      the previous match ended. */
  function DefNamesFrom(s: string, p: nat): seq<string>
    requires p <= |s|
    decreases |s| - p
  {
    if p == |s| then []
    else if DefAt(s, p) then
      var e := SkipNameChars(s, p + 5);
      [s[p + 4..e]] + DefNamesFrom(s, e)
    else DefNamesFrom(s, p + 1)
  }

  /** `^[a-z_][a-z0-9_]*` matching the whole of `name`. */
  predicate IsNameToken(name: string) {
    |name| >= 1 && IsNameStart(name[0]) && forall k :: 1 <= k < |name| ==> IsNameChar(name[k])
  }

  /** `re.match(r'^[a-z_][a-z0-9_]*$', name)`: `$` also matches before a final newline. */
  predicate IsSnakeCase(name: string) {
    IsNameToken(name) || (|name| >= 2 && name[|name| - 1] == '\n' && IsNameToken(name[..|name| - 1]))
  }

  /** Every captured name is already snake_case, so the naming check never fires. */
  lemma {:induction false} DefNamesAreSnakeCase(s: string, p: nat)
    requires p <= |s|
    ensures forall k :: 0 <= k < |DefNamesFrom(s, p)| ==> IsSnakeCase(DefNamesFrom(s, p)[k])
    decreases |s| - p
  {
    if p < |s| {
      if DefAt(s, p) {
        var e := SkipNameChars(s, p + 5);
        DefNamesAreSnakeCase(s, e);
        assert IsNameToken(s[p + 4..e]);
      } else {
        DefNamesAreSnakeCase(s, p + 1);
      }
    }
  }

  // ---------------------------------------------------------------------
  // The whole check

  /**
    `StyleChecker.check_style`: the per-line violations in line order; the
    naming loop adds nothing, because every name it examines is snake_case.
  */
  method CheckStyle(code: string) returns (report: StyleReport)
    ensures report.violations == LinesViolations(SplitLines(code))
    ensures report.pep8Compliance <==> report.violations == []
  {
    var lines := SplitLines(code);
    var violations: seq<StyleViolation> := [];
    for i := 0 to |lines|
      invariant violations == LinesViolations(lines[..i])
    {
      var line := lines[i];
      LinesViolationsStep(lines, i);
      var lineNumber := i + 1;
      var before := violations;
      if |line| > MaxLineLength {
        violations := violations + [LineTooLong(lineNumber, |line|)];
      }
      if RStrip(line) != line {
        violations := violations + [TrailingWhitespace(lineNumber)];
      }
      if HasSpacingIssue(line) {
        violations := violations + [MultipleSpacesAroundOperator(lineNumber)];
      }
      assert violations == before + LineViolations(lineNumber, line);
    }
    assert lines[..|lines|] == lines;

    var functions := DefNamesFrom(code, 0);
    DefNamesAreSnakeCase(code, 0);
    for j := 0 to |functions|
      invariant violations == LinesViolations(lines)
    {
      var func := functions[j];
      if !IsSnakeCase(func) {
        violations := violations + [NotSnakeCase(func)];
      }
    }
    report := StyleReport(violations, |violations| == 0);
  }

  // ---------------------------------------------------------------------
  // Properties of the violations

  /** Every violation of a line carries that line's number. */
  lemma LineViolationsNumbered(i: nat, line: string, v: StyleViolation)
    requires v in LineViolations(i, line)
    ensures LineOf(v) == i && !v.NotSnakeCase?
  {
  }

  /** Where a violation stands in the per-line check order: length, then
      trailing whitespace, then spacing; the naming check comes last. */
  function CheckOrder(v: StyleViolation): nat {
    match v
    case LineTooLong(_, _) => 0
    case TrailingWhitespace(_) => 1
    case MultipleSpacesAroundOperator(_) => 2
    case NotSnakeCase(_) => 3
  }

  /** A line yields at most one violation of each per-line kind, in check
      order, so at most three. */
  lemma LineViolationsInCheckOrder(i: nat, line: string)
    ensures |LineViolations(i, line)| <= 3
    ensures forall a :: 0 <= a < |LineViolations(i, line)| ==> CheckOrder(LineViolations(i, line)[a]) < 3
    ensures forall a, b :: 0 <= a < b < |LineViolations(i, line)| ==>
      CheckOrder(LineViolations(i, line)[a]) < CheckOrder(LineViolations(i, line)[b])
  {
    var long := if |line| > MaxLineLength then [LineTooLong(i, |line|)] else [];
    var trailing := if RStrip(line) != line then [TrailingWhitespace(i)] else [];
    var spacing := if HasSpacingIssue(line) then [MultipleSpacesAroundOperator(i)] else [];
    var all := long + trailing + spacing;
    assert LineViolations(i, line) == all;
    forall a, b | 0 <= a < b < |all|
      ensures CheckOrder(all[a]) < CheckOrder(all[b])
    {
      assert a < |long| ==> all[a] == long[a];
      assert |long| <= a < |long| + |trailing| ==> all[a] == trailing[a - |long|];
      assert |long| + |trailing| <= b ==> all[b] == spacing[b - |long| - |trailing|];
      assert |long| <= b < |long| + |trailing| ==> all[b] == trailing[b - |long|];
    }
  }

  /** `v`, carrying line number `i`, is reported iff line `i` has it. */
  lemma ReportedOnItsLine(lines: seq<string>, i: nat, v: StyleViolation)
    requires LineOf(v) == i && !v.NotSnakeCase?
    ensures v in LinesViolations(lines) <==> 1 <= i <= |lines| && v in LineViolations(i, lines[i - 1])
  {
    NumberedIff(lines, LineViolations, v);
    if v in LinesViolations(lines) {
      var j :| 0 <= j < |lines| && v in LineViolations(j + 1, lines[j]);
      LineViolationsNumbered(j + 1, lines[j], v);
    }
  }

  /** Line `i` is too long, with its length in the finding, iff it exceeds 79 characters. */
  lemma LineTooLongIff(lines: seq<string>, i: nat, length: nat)
    ensures LineTooLong(i, length) in LinesViolations(lines) <==>
      1 <= i <= |lines| && |lines[i - 1]| > MaxLineLength && length == |lines[i - 1]|
  {
    ReportedOnItsLine(lines, i, LineTooLong(i, length));
  }

  /** Line `i` has trailing whitespace iff its last character is whitespace. */
  lemma TrailingWhitespaceIff(lines: seq<string>, i: nat)
    ensures TrailingWhitespace(i) in LinesViolations(lines) <==>
      1 <= i <= |lines| && lines[i - 1] != [] && IsSpace(lines[i - 1][|lines[i - 1]| - 1])
  {
    ReportedOnItsLine(lines, i, TrailingWhitespace(i));
    if 1 <= i <= |lines| {
      RStripChanges(lines[i - 1]);
    }
  }

  /** Line `i` has the spacing violation iff an operator at some `k >= 3`
      follows two blanks that follow a non-operator (`SpacingAt`). */
  lemma SpacingIff(lines: seq<string>, i: nat)
    ensures MultipleSpacesAroundOperator(i) in LinesViolations(lines) <==>
      1 <= i <= |lines| && HasSpacingIssue(lines[i - 1])
  {
    ReportedOnItsLine(lines, i, MultipleSpacesAroundOperator(i));
  }

  /** Each line contributes at most three violations, numbered with its
      1-based line number. The violations are sorted by line and, within a
      line, by check order, so a line number never carries two violations
      of the same kind. */
  lemma {:induction false} LinesViolationsOrdered(lines: seq<string>)
    ensures forall i :: 0 <= i < |lines| ==> |LineViolations(i + 1, lines[i])| <= 3
    ensures |LinesViolations(lines)| <= 3 * |lines|
    ensures forall a :: 0 <= a < |LinesViolations(lines)| ==>
      1 <= LineOf(LinesViolations(lines)[a]) <= |lines| && CheckOrder(LinesViolations(lines)[a]) < 3
    ensures forall a, b :: 0 <= a < b < |LinesViolations(lines)| ==>
      LineOf(LinesViolations(lines)[a]) < LineOf(LinesViolations(lines)[b]) ||
      (LineOf(LinesViolations(lines)[a]) == LineOf(LinesViolations(lines)[b]) &&
       CheckOrder(LinesViolations(lines)[a]) < CheckOrder(LinesViolations(lines)[b]))
  {
    forall i | 0 <= i < |lines|
      ensures |LineViolations(i + 1, lines[i])| <= 3
    {
      LineViolationsInCheckOrder(i + 1, lines[i]);
    }
    if lines != [] {
      var init := lines[..|lines| - 1];
      LinesViolationsOrdered(init);
      var last := LineViolations(|lines|, lines[|lines| - 1]);
      LineViolationsInCheckOrder(|lines|, lines[|lines| - 1]);
      assert forall a :: 0 <= a < |last| ==> LineOf(last[a]) == |lines| && !last[a].NotSnakeCase?;
    }
  }

  /** A line without newline, blanks or operator characters that is longer
      than 79 characters yields exactly one violation: line 1 too long. */
  lemma LongPlainLine(code: string)
    requires |code| > MaxLineLength
    requires forall k :: 0 <= k < |code| ==> !IsSpace(code[k]) && !IsOperator(code[k])
    ensures LinesViolations(SplitLines(code)) == [LineTooLong(1, |code|)]
  {
    assert '\n' !in code by {
      assert IsSpace('\n');
    }
    SplitLinesWithoutNewline(code);
    PlainLineViolations(code);
    OneLineViolations(code);
  }

  lemma SplitLinesWithoutNewline(code: string)
    requires code != [] && '\n' !in code
    ensures SplitLines(code) == [code]
  {
    assert IndexOfNewline(code) == |code|;
  }

  lemma PlainLineViolations(line: string)
    requires |line| > MaxLineLength
    requires forall k :: 0 <= k < |line| ==> !IsSpace(line[k]) && !IsOperator(line[k])
    ensures LineViolations(1, line) == [LineTooLong(1, |line|)]
  {
    RStripChanges(line);
    assert !HasSpacingIssue(line);
  }

  lemma OneLineViolations(line: string)
    ensures LinesViolations([line]) == LineViolations(1, line)
  {
    assert [line][..0] == [];
    assert Numbered([line], LineViolations) == Numbered([], LineViolations) + LineViolations(1, line);
  }

  /** Empty text has no violations and is compliant. */
  lemma EmptyTextCompliant()
    ensures LinesViolations(SplitLines("")) == []
  {
  }
}
