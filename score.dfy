/**
  The overall quality score of one analysis record, and the assembly of
  that record from the four reports.
*/
module QualityScore {
  import opened Wrappers
  import opened Syntax
  import Metrics
  import Security
  import Performance
  import Style
  import Text

  /**
    The per-file record: the error record, or the four reports. The score
    is computed from the record and is not part of it here.
  */
  datatype AnalysisRecord =
    | ErrorRecord(error: string)
    | Analysis(
        file: string,
        metrics: Metrics.MetricsOutcome,
        security: Security.SecurityReport,
        performance: Performance.PerformanceReport,
        style: Style.StyleReport)

  /** The dictionary key whose absence raises `KeyError` when metrics is an error record. */
  const MaintainabilityKey: string := "maintainability_index"

  /** 100 minus the weighted finding counts plus the two bonuses, before clamping. */
  function RawScore(security: nat, performance: nat, style: nat, mi: real, commentRatio: real): int {
    100 - 5 * security - 3 * performance - 2 * style +
    (if mi > 80.0 then 10 else 0) + (if commentRatio > 20.0 then 5 else 0)
  }

  /** `max(0, min(100, score))`. */
  function ClampScore(score: int): (r: int)
    ensures 0 <= r <= 100
    ensures 0 <= score <= 100 ==> r == score
    ensures score <= 0 ==> r == 0
    ensures score >= 100 ==> r == 100
  {
    if score > 100 then 100 else if score < 0 then 0 else score
  }

  /** The score of finding counts and metrics. */
  function Score(security: nat, performance: nat, style: nat, mi: real, commentRatio: real): (s: int)
    ensures 0 <= s <= 100
    ensures security == 0 && performance == 0 && style == 0 ==> s == 100
    ensures 5 * security + 3 * performance + 2 * style >= 115 ==> s == 0
    ensures mi <= 80.0 && commentRatio <= 20.0 && 5 * security + 3 * performance + 2 * style <= 100 ==>
      s == 100 - 5 * security - 3 * performance - 2 * style
  {
    ClampScore(RawScore(security, performance, style, mi, commentRatio))
  }

  /**
    `CodeAnalyzer._calculate_score`: 0 for an error record; otherwise the
    deductions, then the bonuses, then the clamp. When metrics is itself an
    error record, reading its maintainability index raises `KeyError`.
  */
  method CalculateScore(analysis: AnalysisRecord) returns (result: Result<int, string>)
    ensures analysis.ErrorRecord? ==> result == Success(0)
    ensures analysis.Analysis? && analysis.metrics.ErrorRecord? ==> result == Failure(MaintainabilityKey)
    ensures analysis.Analysis? && analysis.metrics.Report? ==>
      result == Success(Score(
        |analysis.security.issues|, |analysis.performance.issues|, |analysis.style.violations|,
        analysis.metrics.metrics.maintainabilityIndex, analysis.metrics.metrics.commentRatio))
    ensures result.Success? ==> 0 <= result.value <= 100
  {
    if analysis.ErrorRecord? {
      return Success(0);
    }
    var score := 100;
    score := score - |analysis.security.issues| * 5;
    score := score - |analysis.performance.issues| * 3;
    score := score - |analysis.style.violations| * 2;
    if analysis.metrics.ErrorRecord? {
      return Failure(MaintainabilityKey);
    }
    var m := analysis.metrics.metrics;
    if m.maintainabilityIndex > 80.0 {
      score := score + 10;
    }
    if m.commentRatio > 20.0 {
      score := score + 5;
    }
    return Success(ClampScore(score));
  }

  /** More findings of any kind never raise the score. */
  lemma ScoreMonotone(
    security: nat, performance: nat, style: nat,
    security': nat, performance': nat, style': nat,
    mi: real, commentRatio: real)
    requires security <= security' && performance <= performance' && style <= style'
    ensures Score(security', performance', style', mi, commentRatio) <= Score(security, performance, style, mi, commentRatio)
  {
  }

  /** The bonuses need strictly more than 80 and 20: at exactly those values they are not paid. */
  lemma BonusThresholdsStrict(security: nat, performance: nat, style: nat)
    ensures RawScore(security, performance, style, 80.0, 20.0) == 100 - 5 * security - 3 * performance - 2 * style
    ensures RawScore(security, performance, style, 80.5, 20.5) == 115 - 5 * security - 3 * performance - 2 * style
  {
  }

  /**
    The record `analyze_file` builds once the text is read: the four
    reports, then the score. A `KeyError` from the score becomes an error
    record, as the handler around the body does; this is what happens on a
    syntax error, since metrics then is an error record.
  */
  method AnalyzeSource(file: string, code: string, parsed: Option<Node>, ln: nat -> real)
    returns (record: AnalysisRecord, score: int)
    ensures parsed.None? <==> record.ErrorRecord?
    ensures record.ErrorRecord? ==> record.error == CouldNotAnalyze(file, MaintainabilityKey) && score == 0
    ensures parsed.Some? ==>
      record.Analysis? &&
      record.metrics == Metrics.Report(Metrics.MetricsReport(
        Metrics.CountLines(code),
        CountInTree(parsed.value, Metrics.IsFunctionDef),
        CountInTree(parsed.value, Metrics.IsClassDef),
        Metrics.CommentRatio(code),
        1 + CountInTree(parsed.value, Metrics.IsBranch),
        Metrics.MaintainabilityIndex(code, parsed.value, ln))) &&
      Performance.ChecksTree(record.performance.issues, parsed.value)
    ensures record.Analysis? ==>
      record.file == file &&
      record.metrics.Report? && Metrics.WellFormed(record.metrics.metrics) &&
      record.security.issues == Security.DangerousFindings(code) + Security.SecretFindings(code) + Security.SqlFindings(code) &&
      record.security.riskLevel == Security.RiskLevelOf(|record.security.issues|) &&
      record.style.violations == Style.LinesViolations(Text.SplitLines(code)) &&
      (record.style.pep8Compliance <==> record.style.violations == []) &&
      score == Score(
        |record.security.issues|, |record.performance.issues|, |record.style.violations|,
        record.metrics.metrics.maintainabilityIndex, record.metrics.metrics.commentRatio)
    ensures 0 <= score <= 100
  {
    var metrics := Metrics.Analyze(code, parsed, ln);
    var security := Security.Scan(code);
    var performance := Performance.Check(parsed);
    var style := Style.CheckStyle(code);
    var analysis := Analysis(file, metrics, security, performance, style);
    var result := CalculateScore(analysis);
    match result
    case Success(s) =>
      record, score := analysis, s;
    case Failure(key) =>
      record, score := ErrorRecord(CouldNotAnalyze(file, key)), 0;
  }

  /** `f"Could not analyze {file_path}: {str(e)}"` for a `KeyError` on `key`. */
  function CouldNotAnalyze(file: string, key: string): string {
    "Could not analyze " + file + ": '" + key + "'"
  }
}
