/**
  Size and complexity metrics of one source text: line count, function and
  class counts, comment ratio, cyclomatic complexity and a heuristic
  maintainability index. Real numbers stand for Python's floats.
*/
module Metrics {
  import opened Wrappers
  import opened Text
  import opened Syntax

  datatype MetricsReport = MetricsReport(
    lineCount: nat,
    functionCount: nat,
    classCount: nat,
    commentRatio: real,
    cyclomaticComplexity: nat,
    maintainabilityIndex: real)

  /** A report, or the error record that replaces it on a syntax error. */
  datatype MetricsOutcome = Report(metrics: MetricsReport) | ErrorRecord(error: string)

  const SyntaxErrorMessage: string := "Syntax error in code"

  /** The ranges every report keeps. */
  predicate WellFormed(m: MetricsReport) {
    0.0 <= m.commentRatio <= 100.0 &&
    m.cyclomaticComplexity >= 1 &&
    0.0 <= m.maintainabilityIndex <= 100.0
  }

  /** `len(code.splitlines())`. */
  function CountLines(code: string): (n: nat)
    ensures n == NewlineCount(code) + (if code != [] && !EndsWithNewline(code) then 1 else 0)
    ensures n == 0 <==> code == []
  {
    SplitLinesCount(code);
    assert code != [] ==> code[|code| - 1] in multiset(code);
    |SplitLines(code)|
  }

  predicate IsFunctionDef(n: Node) {
    n.kind.FunctionDef?
  }

  predicate IsClassDef(n: Node) {
    n.kind.ClassDef?
  }

  /** The `FunctionDef` nodes `ast.walk` visits: those at every depth,
      not counting `AsyncFunctionDef`. */
  function CountFunctions(tree: Node): (n: nat)
    ensures n == CountInTree(tree, IsFunctionDef)
  {
    WalkCount(tree, IsFunctionDef);
    Occurrences(Walk(tree), IsFunctionDef)
  }

  /** The `ClassDef` nodes `ast.walk` visits, at every depth. */
  function CountClasses(tree: Node): (n: nat)
    ensures n == CountInTree(tree, IsClassDef)
  {
    WalkCount(tree, IsClassDef);
    Occurrences(Walk(tree), IsClassDef)
  }

  /** `line.strip().startswith('#')`: the first non-blank character is `#`. */
  predicate IsCommentLine(line: string) {
    Strip(line) != [] && Strip(line)[0] == '#'
  }

  /** A comment line is one whose first non-blank character is `#`. */
  lemma CommentLineIffHash(line: string)
    ensures IsCommentLine(line) <==> exists k :: HashAfterSpaces(line, k)
  {
    StripStartsWithHash(line);
  }

  predicate NoComments(lines: seq<string>) {
    forall k :: 0 <= k < |lines| ==> !IsCommentLine(lines[k])
  }

  predicate AllComments(lines: seq<string>) {
    forall k :: 0 <= k < |lines| ==> IsCommentLine(lines[k])
  }

  /** The number of comment lines among `lines`. */
  function CommentLineCount(lines: seq<string>): nat {
    if lines == [] then 0
    else (if IsCommentLine(lines[0]) then 1 else 0) + CommentLineCount(lines[1..])
  }

  /** No more comment lines than lines; none exactly when no line is a
      comment, all exactly when every line is. */
  lemma {:induction false} CommentLineCountBounds(lines: seq<string>)
    ensures CommentLineCount(lines) <= |lines|
    ensures CommentLineCount(lines) == 0 <==> NoComments(lines)
    ensures CommentLineCount(lines) == |lines| <==> AllComments(lines)
  {
    if lines != [] {
      var rest := lines[1..];
      CommentLineCountBounds(rest);
      assert forall k :: 1 <= k < |lines| ==> lines[k] == rest[k - 1];
      if !NoComments(lines) {
        var k :| 0 <= k < |lines| && IsCommentLine(lines[k]);
        if k > 0 {
          assert IsCommentLine(rest[k - 1]);
        }
      }
      if !AllComments(lines) {
        var k :| 0 <= k < |lines| && !IsCommentLine(lines[k]);
        if k > 0 {
          assert !IsCommentLine(rest[k - 1]);
        }
      }
    }
  }

  /** The percentage of comment lines; 0 for a text without lines. */
  function CommentRatio(code: string): (r: real)
    ensures 0.0 <= r <= 100.0
    ensures code == [] ==> r == 0.0
    ensures r == 0.0 <==> NoComments(SplitLines(code))
    ensures r == 100.0 <==> code != [] && AllComments(SplitLines(code))
  {
    var lines := SplitLines(code);
    assert lines == [] <==> code == [] by {
      assert |lines| == CountLines(code);
    }
    if lines == [] then 0.0
    else
      var c := CommentLineCount(lines);
      CommentLineCountBounds(lines);
      RatioBounds(c, |lines|);
      (c as real / |lines| as real) * 100.0
  }

  lemma RatioBounds(c: nat, n: nat)
    requires 0 < n && c <= n
    ensures 0.0 <= (c as real / n as real) * 100.0 <= 100.0
    ensures (c as real / n as real) * 100.0 == 0.0 <==> c == 0
    ensures (c as real / n as real) * 100.0 == 100.0 <==> c == n
  {
    QuotientBounds(c as real, n as real);
  }

  lemma QuotientBounds(c: real, n: real)
    requires 0.0 < n && 0.0 <= c <= n
    ensures 0.0 <= c / n <= 1.0
    ensures c / n == 0.0 <==> c == 0.0
    ensures c / n == 1.0 <==> c == n
  {
    if c < n {
      QuotientBelowOne(c, n);
    }
  }

  lemma QuotientBelowOne(c: real, n: real)
    requires 0.0 < n && 0.0 <= c < n
    ensures c / n < 1.0
  {
    var q := c / n;
    assert q * n == c;
    if 1.0 < q {
      ProductMonotone(1.0, q, n);
    }
  }

  lemma ProductMonotone(x: real, y: real, n: real)
    requires 0.0 < n && x < y
    ensures x * n < y * n
  {
  }

  /** The node kinds that add one to the cyclomatic complexity. */
  predicate IsBranch(n: Node) {
    n.kind.If? || n.kind.While? || n.kind.For? || n.kind.AsyncFor? ||
    n.kind.Try? || n.kind.With? || n.kind.AsyncWith?
  }

  /** One plus the number of branching nodes at any depth. */
  method CalculateComplexity(tree: Node) returns (complexity: nat)
    ensures complexity == 1 + CountInTree(tree, IsBranch)
    ensures complexity >= 1
  {
    var nodes := Walk(tree);
    complexity := 1;
    for i := 0 to |nodes|
      invariant complexity == 1 + Occurrences(nodes[..i], IsBranch)
    {
      OccurrencesAppend(nodes[..i], [nodes[i]], IsBranch);
      assert nodes[..i + 1] == nodes[..i] + [nodes[i]];
      if IsBranch(nodes[i]) {
        complexity := complexity + 1;
      }
    }
    assert nodes[..|nodes|] == nodes;
    WalkCount(tree, IsBranch);
  }

  /** `max(0, min(100, x))`. */
  function Clamp(x: real): (r: real)
    ensures 0.0 <= r <= 100.0
    ensures 0.0 <= x <= 100.0 ==> r == x
    ensures x < 0.0 ==> r == 0.0
    ensures x > 100.0 ==> r == 100.0
  {
    if x > 100.0 then 100.0 else if x < 0.0 then 0.0 else x
  }

  /** `171 - 5.2 * ln(complexity) - 0.23 * lines + 0.99 * comment_ratio`;
      `ln` stands for Python's `math.log`. */
  function Heuristic(lines: nat, complexity: nat, ratio: real, ln: nat -> real): real {
    171.0 - 5.2 * ln(complexity) - 0.23 * lines as real + 0.99 * ratio
  }

  /** 100 for a text without lines, otherwise the heuristic clamped into [0, 100]. */
  function MaintainabilityIndex(code: string, tree: Node, ln: nat -> real): (mi: real)
    ensures 0.0 <= mi <= 100.0
    ensures code == [] ==> mi == 100.0
    ensures code != [] ==>
      var h := Heuristic(CountLines(code), 1 + CountInTree(tree, IsBranch), CommentRatio(code), ln);
      0.0 <= h <= 100.0 ==> mi == h
  {
    var lines := CountLines(code);
    var complexity := 1 + CountInTree(tree, IsBranch);
    var ratio := CommentRatio(code);
    if lines == 0 then 100.0
    else Clamp(Heuristic(lines, complexity, ratio, ln))
  }

  /**
    `CodeMetrics.analyze`: the error record when the text does not parse,
    otherwise a report whose every field is computed from the text and tree.
  */
  method Analyze(code: string, parsed: Option<Node>, ln: nat -> real) returns (outcome: MetricsOutcome)
    ensures parsed.None? <==> outcome == ErrorRecord(SyntaxErrorMessage)
    ensures outcome.Report? ==> WellFormed(outcome.metrics)
    ensures parsed.Some? ==> outcome == Report(MetricsReport(
      CountLines(code),
      CountInTree(parsed.value, IsFunctionDef),
      CountInTree(parsed.value, IsClassDef),
      CommentRatio(code),
      1 + CountInTree(parsed.value, IsBranch),
      MaintainabilityIndex(code, parsed.value, ln)))
  {
    if parsed.None? {
      return ErrorRecord(SyntaxErrorMessage);
    }
    var tree := parsed.value;
    var complexity := CalculateComplexity(tree);
    outcome := Report(MetricsReport(
      CountLines(code),
      CountFunctions(tree),
      CountClasses(tree),
      CommentRatio(code),
      complexity,
      MaintainabilityIndex(code, tree, ln)));
  }
}
