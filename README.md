# Code-quality analysis engine, modelled in Dafny

This project models the analysis engine of a Python code-quality tool and
proves properties of that model. The engine takes the text of one Python
source file, plus the syntax tree the parser builds from it, and produces
four reports and one overall score:

- **Code metrics** (`CodeMetrics.analyze`): line, function and class counts,
  the comment-line percentage, cyclomatic complexity (1 plus the number of
  branch and loop nodes), and a clamped maintainability index. A syntax error
  replaces the whole report with `{'error': 'Syntax error in code'}`.
- **Security scan** (`SecurityScanner.scan`): substring checks for eight
  dangerous functions, three case-insensitive hard-coded-secret regexes, and
  two SQL-injection regexes. The risk level is LOW for no issues, MEDIUM for
  one or two, and HIGH otherwise.
- **Performance check** (`PerformanceAnalyzer.check`): loops with a direct
  loop child, calls whose source segment contains an expensive operation, and
  imported names that no `Name` node uses. A syntax error gives no issues.
- **Style check** (`StyleChecker.check_style`): over-long lines, trailing
  whitespace, a multiple-spaces-around-operator regex, and the naming of
  `def` names.
- **Overall score** (`CodeAnalyzer._calculate_score`): start at 100, subtract
  5, 3 and 2 per security, performance and style finding, add 10 when the
  maintainability index exceeds 80 and 5 when the comment ratio exceeds 20,
  then clamp the result into [0, 100].

Modules:

- `Wrappers` holds `Option` and `Result`.
- `Text` holds Python's string primitives the engine relies on: `isspace`,
  `in`, `strip`/`rstrip` and `splitlines`.
- `Syntax` is the tree. Nodes carry only the kinds the analyzers inspect.
  `ast.walk` is modelled as a breadth-first walk, proved to visit every node
  exactly once.
- `Metrics`, `Security`, `Performance` and `Style` mirror the four analyzer
  files.
- `QualityScore` holds the score and the per-file record.

Every `for` statement in the source is a method with a loop here; the list comprehensions are functions. Each method is proved
against a specification function, and lemmas relate those functions to what
the source promises. The promises covered include:

- counts equal structural counts over the whole tree;
- the greedy regex matchers accept exactly the strings the regexes describe;
- a finding is reported if and only if its condition holds;
- the score stays in range and is monotone.

## Model

| member | source | states |
|---|---|---|
| Syntax.WalkCount | analyzer/code_metrics.py:24 | The nodes `ast.walk` yields satisfy a predicate exactly as often as the nodes of the tree at any depth, and the walk yields every node once. |
| Syntax.BfsGather | analyzer/performance_analyzer.py:57-67 | Collecting sets of names along the walk gives the union over every node of the tree. |
| Text.SplitLinesCount | analyzer/code_metrics.py:20-21 | The number of lines `splitlines` produces is the number of newlines, plus one for a non-empty last line without a newline. |
| Text.SplitLinesJoin | analyzer/style_checker.py:7 | Joining the lines with newlines gives back the text, with a final newline added when it was missing. |
| Text.StripStartsWithHash | analyzer/code_metrics.py:33 | `line.strip()` starts with `#` exactly when the first non-whitespace character of the line is `#`. |
| Text.RStripChanges | analyzer/style_checker.py:15 | `line.rstrip() != line` exactly when the line is non-empty and ends in whitespace. |
| Text.RStrip | analyzer/style_checker.py:15 | The result is a prefix of the line that does not end in whitespace, and only whitespace was removed. |
| Metrics.CountLines | analyzer/code_metrics.py:20-21 | The line count is the newline-based count, and it is 0 exactly for empty text. |
| Metrics.CountFunctions | analyzer/code_metrics.py:23-24 | The count is the number of `FunctionDef` nodes at any depth (async definitions excluded). |
| Metrics.CountClasses | analyzer/code_metrics.py:26-27 | The count is the number of `ClassDef` nodes at any depth. |
| Metrics.CommentLineIffHash | analyzer/code_metrics.py:33 | A line counts as a comment exactly when some `#` is preceded only by whitespace. |
| Metrics.CommentLineCountBounds | analyzer/code_metrics.py:33 | There are at most as many comment lines as lines; there are none exactly when no line is a comment, and all exactly when every line is. |
| Metrics.CommentRatio | analyzer/code_metrics.py:29-34 | The ratio is in [0, 100]; it is 0 for empty text and exactly when no line is a comment, and 100 exactly when the text is non-empty and every line is a comment. |
| Metrics.RatioBounds | analyzer/code_metrics.py:34 | `c / n * 100` is in [0, 100], is 0 exactly when `c` is 0, and is 100 exactly when `c == n`. |
| Metrics.CalculateComplexity | analyzer/code_metrics.py:36-42 | The complexity is 1 plus the number of If/While/For/AsyncFor/Try/With/AsyncWith nodes at any depth, so it is at least 1. |
| Metrics.Clamp | analyzer/code_metrics.py:55 | `max(0, min(100, x))` is in [0, 100], equals `x` inside the range, and equals the nearer bound outside it. |
| Metrics.MaintainabilityIndex | analyzer/code_metrics.py:44-55 | The index is in [0, 100]; it is 100 for empty text, and otherwise it equals the heuristic `171 - 5.2 ln(complexity) - 0.23 lines + 0.99 ratio` whenever that value lies in the range. |
| Metrics.Analyze | analyzer/code_metrics.py:5-18 | Unparseable text gives exactly the error record `Syntax error in code`. A parsed tree gives the six fields computed by the helpers, and every such report is within its bounds. |
| Security.SkipSpaces | analyzer/security_scanner.py:21-23 | `\s*` run greedily stops at the first non-whitespace character, having passed only whitespace. |
| Security.SecretAtIffShape | analyzer/security_scanner.py:20-28 | The greedy matcher accepts at a position exactly when the secret regex matches there. The regex is `keyword \s* = \s* quote, one or more non-quotes, quote`, compared under Python's case-insensitive folding. |
| Security.FormatArgumentIffShape | analyzer/security_scanner.py:32 | The greedy reading of `["'][^"']*\%s` matches exactly when a quote is followed by quote-free characters and then `%s`. |
| Security.ConcatenationArgumentIffShape | analyzer/security_scanner.py:33 | The greedy reading of `["'][^"']*\+` matches exactly when a quote is followed by quote-free characters and then `+`. |
| Security.FormatStringAtIffShape | analyzer/security_scanner.py:32 | The matcher for the first SQL regex accepts at a position exactly when `.execute`, blanks, `(`, blanks, an optional `f`, a quote, non-quotes and then `%s` follow there. |
| Security.ConcatenationAtIffShape | analyzer/security_scanner.py:33 | The matcher for the second SQL regex accepts at a position exactly when `.execute`, blanks, `(`, blanks, a quote, non-quotes and then `+` follow there. |
| Security.ArgumentStartExact | analyzer/security_scanner.py:32-33 | Any declarative reading of the `.execute(` prefix whose blanks after `(` end before a non-blank character puts the argument where the greedy matcher puts it. |
| Security.RiskLevelOf | analyzer/security_scanner.py:42-48 | LOW exactly for 0 issues, MEDIUM exactly for 1 or 2, HIGH exactly for 3 or more. |
| Security.Scan | analyzer/security_scanner.py:5-40 | The issues are the dangerous-function findings in list order, then one finding per matching secret regex, then one per matching SQL regex. The risk level is that of their count, and there are never more than 13. |
| Security.DangerousFindingIff | analyzer/security_scanner.py:15-17 | `Use of dangerous function: f` is reported exactly when `f` is one of the eight names and occurs in the text. |
| Security.ExecfileAlsoReportsExec | analyzer/security_scanner.py:10-17 | Text containing `execfile` is also reported for `exec`, because the check is a plain substring test. |
| Security.FindingCounts | analyzer/security_scanner.py:15-38 | At most 8 dangerous-function, 3 secret and 2 SQL findings, so never more than 13 issues. |
| Security.FindingsIff | analyzer/security_scanner.py:26-38 | A secret finding appears exactly when one of the three secret regexes matches, and a SQL finding exactly when either SQL regex matches. |
| Security.MessageInjective | analyzer/security_scanner.py:15-38 | Two findings with the same message text are the same finding. |
| Performance.MessageInjective | analyzer/performance_analyzer.py:32-72 | Two findings with the same message text are the same finding. |
| Performance.FindNestedLoops | analyzer/performance_analyzer.py:25-34 | One finding per For/While node at any depth with at least one For/While direct child, and no other findings. |
| Performance.NestedForReportedOnce | analyzer/performance_analyzer.py:28-33 | Two directly nested `for` loops give exactly one finding: the outer loop is reported, and the inner loop has no loop child. |
| Performance.IndirectOrAsyncNestingNotReported | analyzer/performance_analyzer.py:28-31 | A loop inside an `if` inside a loop, and a loop inside an `async for`, give no finding. |
| Performance.FirstContained | analyzer/performance_analyzer.py:45-48 | The result is the first candidate contained in the segment, or none exactly when no candidate is contained. |
| Performance.FindExpensiveOperations | analyzer/performance_analyzer.py:36-49 | The findings are those of the calls in walk order whose segment is non-empty, each naming the first expensive entry contained. |
| Performance.ExpensiveFindingsCount | analyzer/performance_analyzer.py:40-48 | Exactly one finding per call at any depth whose segment contains an expensive entry, and each finding names an entry of the list. |
| Performance.GatherNames | analyzer/performance_analyzer.py:53-67 | The collected sets are exactly the `alias.name`s of every import and every `Name` id in the tree. |
| Performance.ReportUnused | analyzer/performance_analyzer.py:70-72 | The report holds one `Unused import` finding per name of the given set, with no repeats and nothing else. |
| Performance.FindUnusedImports | analyzer/performance_analyzer.py:51-74 | The findings report exactly the imported names that are never used. |
| Performance.UnusedImportIff | analyzer/performance_analyzer.py:69-72 | `Unused import: n` is reported exactly when `n` is imported somewhere and used nowhere. |
| Performance.UnusedOsImport | analyzer/performance_analyzer.py:51-74 | `import os` followed only by `print('hi')` leaves exactly `os` unused. |
| Performance.Check | analyzer/performance_analyzer.py:4-23 | Unparseable text gives no issues. A parsed tree gives the nested-loop findings, then the expensive-call findings, then a report of the unused imports. |
| Style.SpacingIffShape | analyzer/style_checker.py:19 | The four-character window test finds exactly the lines where `[^=!<>]\s\s+[=!<>]` matches. |
| Style.NumberedIff | analyzer/style_checker.py:9-20 | A finding appears in the per-line concatenation exactly when some line, numbered from 1, produces it. |
| Style.LineTooLongIff | analyzer/style_checker.py:11-12 | Line `i` is reported too long, with length `n`, exactly when it exists, has more than 79 characters, and `n` is its length. |
| Style.TrailingWhitespaceIff | analyzer/style_checker.py:15-16 | Line `i` is reported for trailing whitespace exactly when it exists and its last character is whitespace. |
| Style.SpacingIff | analyzer/style_checker.py:19-20 | Line `i` is reported for operator spacing exactly when it exists and the spacing regex matches it. |
| Style.LineViolationsInCheckOrder | analyzer/style_checker.py:11-20 | One line gives at most one violation of each kind, in check order: length, then trailing whitespace, then spacing; so at most three. |
| Style.LinesViolationsOrdered | analyzer/style_checker.py:9-20 | Each line gives at most three violations, and the total is at most three per line. Each violation carries a line number between 1 and the line count. The violations are sorted by line and, within a line, by check order. |
| Style.DefNamesAreSnakeCase | analyzer/style_checker.py:23-32 | Every name `re.findall` captures with `def ([a-z_][a-z0-9_]*)` already satisfies `^[a-z_][a-z0-9_]*$`, so the naming check never adds a violation. |
| Style.LineTooLongMessage | analyzer/style_checker.py:12 | A long line 1 of 85 characters prints `Line 1: Line too long (85 > 79 characters)`. |
| Style.TrailingWhitespaceMessage | analyzer/style_checker.py:16 | Trailing whitespace on line 12 prints `Line 12: Trailing whitespace`. |
| Style.NotSnakeCaseMessage | analyzer/style_checker.py:27 | The function `getValue` prints `Function 'getValue' should be snake_case`. |
| Style.CheckStyle | analyzer/style_checker.py:4-29 | The violations are exactly the per-line violations in line order, and the code is compliant exactly when there are none. |
| Style.LongPlainLine | analyzer/style_checker.py:9-20 | A single line of more than 79 characters without blanks or operator characters yields exactly the one violation "line 1 too long". |
| Style.EmptyTextCompliant | analyzer/style_checker.py:7-29 | Empty text has no violations. |
| QualityScore.ClampScore | main.py:82 | `max(0, min(100, score))` is in [0, 100] and equals the score inside the range. |
| QualityScore.Score | main.py:65-82 | The score is in [0, 100]. It is 100 with no findings, and 0 once the deductions reach 115. Without bonuses and with deductions of at most 100, it is 100 minus the deductions. |
| QualityScore.CalculateScore | main.py:60-82 | An error record scores 0. A record whose metrics is an error record fails on the missing `maintainability_index` key. Any other record scores `Score` of its counts and metrics. |
| QualityScore.ScoreMonotone | main.py:65-82 | More findings of any kind never raise the score. |
| QualityScore.BonusThresholdsStrict | main.py:77-80 | A maintainability index of exactly 80 or a comment ratio of exactly 20 earns no bonus; values just above both earn 15. |
| QualityScore.AnalyzeSource | main.py:23-44 | Unparseable text becomes the error record `Could not analyze <file>: 'maintainability_index'` with score 0. Parseable text gives the metrics report computed field by field, the security findings in scan order, the nested-loop, expensive-call and unused-import findings of the tree in that order, the per-line style violations, the risk level of the security finding count, PEP 8 compliance exactly when there are no style violations, and a score in [0, 100] computed from their counts, the maintainability index and the comment ratio. |

## Left out

- Reading files, `analyze_directory`, `generate_report`, the command line and all printing are not modelled. An unreadable file, which becomes an error record through the handler in `analyze_file`, is not modelled either.
- `ast.parse` is not modelled. Its result is the input `parsed`, with `None` standing for a `SyntaxError`. The tree keeps only the node kinds the analyzers inspect.
- `ast.get_source_segment` is not modelled. Each call node carries its segment, with `None` when Python would return none.
- `ast.walk` is modelled as the breadth-first walk the Python library performs. Only the order of the expensive-call findings depends on it.
- `math.log` is the parameter `ln`. Floating-point arithmetic is idealised as exact real arithmetic, so rounding in the ratio and the index is not modelled.
- Text.SplitLines: splits on `\n` only. Python's `splitlines` also breaks at `\r`, `\r\n`, `\v`, `\f`, `\x1c`-`\x1e`, `\x85`, `\u2028` and `\u2029`, so for text containing those the line count, comment ratio and style findings can differ.
- Performance.ReportUnused: the order of the unused-import findings is left unspecified. Python iterates a set of strings in an order that depends on hashing, so the model fixes only which findings appear, one per name.
- Performance.Check: its contract describes the unused-import part through `ReportsUnused`, not as one fixed sequence, for the same reason.
- QualityScore.AnalyzeSource: returns the overall score beside the record instead of storing it as an `overall_score` field.
- A syntax error does not reach score 0 through the `'error' in analysis` test at main.py:62. `_calculate_score` raises `KeyError` at main.py:77 because metrics is then an error record, and `analyze_file` (main.py:43-44) turns that into the error record `Could not analyze <file>: 'maintainability_index'`; that record is what the model returns.
- Imported names are keyed by `alias.name` as in the code, so `import os.path` records `os.path`, and an `as` alias is ignored.
- The finding messages are modelled as data (`Message` renders the source's text). The dictionaries the analyzers return are modelled as datatypes.
