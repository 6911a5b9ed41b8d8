/**
  The security scan: a substring denylist, three hardcoded-secret patterns
  and two SQL-injection patterns over the raw text, and a risk level that
  depends on the number of findings only. It never parses, so it is total.

  The regular expressions are hand-coded. Each matcher is a greedy scan,
  and a lemma shows it agrees with a declarative reading of its regex.
*/
module Security {
  import opened Text

  datatype SecurityIssue =
    | DangerousFunction(name: string)   // "Use of dangerous function: {name}"
    | HardcodedSecret                   // "Potential hardcoded secret detected"
    | SqlInjection                      // "Potential SQL injection vulnerability"

  datatype RiskLevel = Low | Medium | High

  datatype SecurityReport = SecurityReport(issues: seq<SecurityIssue>, riskLevel: RiskLevel)

  const DangerousFunctions: seq<string> := [
    "eval", "exec", "input", "pickle.loads", "marshal.loads",
    "os.system", "subprocess.call", "execfile"
  ]

  /** The keyword of each secret pattern `<kw>\s*=\s*["'][^"']+["']`, in order. */
  const SecretKeywords: seq<string> := ["password", "api_key", "secret"]

  /** The two SQL patterns, in order. */
  datatype SqlPattern =
    | FormatString   // \.execute\s*\(\s*f?["'][^"']*\%s
    | Concatenation  // \.execute\s*\(\s*["'][^"']*\+

  const SqlPatterns: seq<SqlPattern> := [FormatString, Concatenation]

  function Message(issue: SecurityIssue): string {
    match issue
    case DangerousFunction(name) => "Use of dangerous function: " + name
    case HardcodedSecret => "Potential hardcoded secret detected"
    case SqlInjection => "Potential SQL injection vulnerability"
  }

  /** The report's text tells the findings apart: different findings never
      print the same message. */
  lemma MessageInjective(a: SecurityIssue, b: SecurityIssue)
    ensures Message(a) == Message(b) ==> a == b
  {
    if a != b {
      if a.DangerousFunction? && b.DangerousFunction? {
        var prefix := "Use of dangerous function: ";
        assert Message(a)[|prefix|..] == a.name && Message(b)[|prefix|..] == b.name;
      } else {
        assert Message(a)[0] != Message(b)[0] || Message(a)[10] != Message(b)[10];
      }
    }
  }

  // ---------------------------------------------------------------------
  // Character classes and greedy runs

  predicate IsQuote(c: char) {
    c == '"' || c == '\''
  }

  predicate AllSpaces(s: string, lo: int, hi: int)
    requires 0 <= lo <= hi <= |s|
  {
    forall k :: lo <= k < hi ==> IsSpace(s[k])
  }

  predicate NoQuotes(s: string, lo: int, hi: int)
    requires 0 <= lo <= hi <= |s|
  {
    forall k :: lo <= k < hi ==> !IsQuote(s[k])
  }

  /** The end of the longest run of whitespace starting at `i` (`\s*`). */
  function SkipSpaces(s: string, i: nat): (j: nat)
    requires i <= |s|
    ensures i <= j <= |s| && AllSpaces(s, i, j)
    ensures j < |s| ==> !IsSpace(s[j])
    decreases |s| - i
  {
    if i < |s| && IsSpace(s[i]) then SkipSpaces(s, i + 1) else i
  }

  /** The end of the longest run of non-quotes starting at `i` (`[^"']*`). */
  function SkipNonQuotes(s: string, i: nat): (j: nat)
    requires i <= |s|
    ensures i <= j <= |s| && NoQuotes(s, i, j)
    ensures j < |s| ==> IsQuote(s[j])
    decreases |s| - i
  {
    if i < |s| && !IsQuote(s[i]) then SkipNonQuotes(s, i + 1) else i
  }

  /** A run of whitespace that stops at a non-space is exactly the greedy one. */
  lemma SkipSpacesExact(s: string, i: nat, j: nat)
    requires i <= j < |s| && AllSpaces(s, i, j) && !IsSpace(s[j])
    ensures SkipSpaces(s, i) == j
  {
  }

  /** A run of non-quotes that stops at a quote is exactly the greedy one. */
  lemma SkipNonQuotesExact(s: string, i: nat, j: nat)
    requires i <= j < |s| && NoQuotes(s, i, j) && IsQuote(s[j])
    ensures SkipNonQuotes(s, i) == j
  {
  }

  // ---------------------------------------------------------------------
  // Hardcoded secrets (re.IGNORECASE)

  /**
    Text character `c` matches the lower-case pattern character `p` under
    Python's `re.IGNORECASE`: `p` itself, its ASCII capital, or one of the
    extra Unicode equivalents Python's regex engine accepts for it
    (U+017F for s, U+212A for k, U+0130 and U+0131 for i).
  */
  predicate FoldsTo(c: char, p: char) {
    c == p ||
    ('a' <= p <= 'z' && c as int == p as int - 32) ||
    (p == 's' && c == '\U{017F}') ||
    (p == 'k' && c == '\U{212A}') ||
    (p == 'i' && (c == '\U{0130}' || c == '\U{0131}'))
  }

  /** `kw` matches `s` at `i`, ignoring case. */
  predicate MatchesIgnoringCase(s: string, i: nat, kw: string) {
    i + |kw| <= |s| && forall k :: 0 <= k < |kw| ==> FoldsTo(s[i + k], kw[k])
  }

  /** The greedy matcher for `<kw>\s*=\s*["'][^"']+["']` at index `i`. */
  predicate SecretAt(s: string, i: nat, kw: string) {
    MatchesIgnoringCase(s, i, kw) &&
    var a := SkipSpaces(s, i + |kw|);
    a < |s| && s[a] == '=' &&
    var b := SkipSpaces(s, a + 1);
    b < |s| && IsQuote(s[b]) &&
    var c := SkipNonQuotes(s, b + 1);
    b + 1 < c < |s|
  }

  /**
    The regex read declaratively: the keyword at `i`, blanks up to the `=`
    at `a`, blanks up to the quote at `b`, at least one non-quote, and the
    quote at `c`.
  */
  predicate SecretShape(s: string, i: nat, kw: string, a: nat, b: nat, c: nat) {
    MatchesIgnoringCase(s, i, kw) &&
    i + |kw| <= a < b && b + 1 < c < |s| &&
    AllSpaces(s, i + |kw|, a) && s[a] == '=' &&
    AllSpaces(s, a + 1, b) && IsQuote(s[b]) &&
    NoQuotes(s, b + 1, c) && IsQuote(s[c])
  }

  /** The greedy matcher accepts exactly where the regex matches. */
  lemma SecretAtIffShape(s: string, i: nat, kw: string)
    ensures SecretAt(s, i, kw) <==> exists a: nat, b: nat, c: nat :: SecretShape(s, i, kw, a, b, c)
  {
    if SecretAt(s, i, kw) {
      var a := SkipSpaces(s, i + |kw|);
      var b := SkipSpaces(s, a + 1);
      var c := SkipNonQuotes(s, b + 1);
      assert SecretShape(s, i, kw, a, b, c);
    }
    if a: nat, b: nat, c: nat :| SecretShape(s, i, kw, a, b, c) {
      SkipSpacesExact(s, i + |kw|, a);
      SkipSpacesExact(s, a + 1, b);
      SkipNonQuotesExact(s, b + 1, c);
    }
  }

  /** `re.search(<kw>\s*=\s*["'][^"']+["'], code, re.IGNORECASE)` succeeds. */
  predicate SecretPattern(code: string, kw: string) {
    exists i :: 0 <= i < |code| && SecretAt(code, i, kw)
  }

  // ---------------------------------------------------------------------
  // SQL injection shapes (case-sensitive)

  const Execute: string := ".execute"

  /** Index just past `\.execute\s*\(\s*` matched at `i`, if it matches. */
  predicate ExecuteCallAt(s: string, i: nat) {
    OccursAt(s, Execute, i) &&
    var a := SkipSpaces(s, i + |Execute|);
    a < |s| && s[a] == '('
  }

  function ArgumentStart(s: string, i: nat): (b: nat)
    requires ExecuteCallAt(s, i)
    ensures b <= |s|
  {
    SkipSpaces(s, SkipSpaces(s, i + |Execute|) + 1)
  }

  /** Greedy matcher for `["'][^"']*\%s` at `q`: a quote, then the run of
      non-quotes after it contains `%s`. */
  predicate FormatArgumentAt(s: string, q: nat) {
    q < |s| && IsQuote(s[q]) && Contains(s[q + 1..SkipNonQuotes(s, q + 1)], "%s")
  }

  /** Greedy matcher for `["'][^"']*\+` at `b`. */
  predicate ConcatenationArgumentAt(s: string, b: nat) {
    b < |s| && IsQuote(s[b]) && '+' in s[b + 1..SkipNonQuotes(s, b + 1)]
  }

  /** Greedy matcher for `\.execute\s*\(\s*f?["'][^"']*\%s` at `i`. */
  predicate FormatStringAt(s: string, i: nat) {
    ExecuteCallAt(s, i) &&
    var b := ArgumentStart(s, i);
    FormatArgumentAt(s, if b < |s| && s[b] == 'f' then b + 1 else b)
  }

  /** Greedy matcher for `\.execute\s*\(\s*["'][^"']*\+` at `i`. */
  predicate ConcatenationAt(s: string, i: nat) {
    ExecuteCallAt(s, i) && ConcatenationArgumentAt(s, ArgumentStart(s, i))
  }

  /** The prefix `\.execute\s*\(\s*` read declaratively: `(` at `a`, argument at `b`. */
  predicate ExecuteShape(s: string, i: nat, a: nat, b: nat) {
    OccursAt(s, Execute, i) &&
    i + |Execute| <= a < b <= |s| &&
    AllSpaces(s, i + |Execute|, a) && s[a] == '(' && AllSpaces(s, a + 1, b)
  }

  /** `["'][^"']*\%s` read declaratively: quote at `q`, non-quotes up to the `%s` at `k`. */
  predicate FormatArgumentShape(s: string, q: nat, k: nat) {
    q < k && k + 2 <= |s| && IsQuote(s[q]) && NoQuotes(s, q + 1, k) && s[k] == '%' && s[k + 1] == 's'
  }

  /** `["'][^"']*\+` read declaratively: quote at `b`, non-quotes up to the `+` at `k`. */
  predicate ConcatenationArgumentShape(s: string, b: nat, k: nat) {
    b < k < |s| && IsQuote(s[b]) && NoQuotes(s, b + 1, k) && s[k] == '+'
  }

  /** The first SQL regex read declaratively: optional `f` at `b`, then the
      quoted argument at `q`. */
  predicate FormatStringShape(s: string, i: nat, a: nat, b: nat, q: nat, k: nat) {
    ExecuteShape(s, i, a, b) &&
    FormatArgumentShape(s, q, k) &&
    (q == b || (q == b + 1 && s[b] == 'f'))
  }

  /** The second SQL regex read declaratively: the quoted argument at `b`. */
  predicate ConcatenationShape(s: string, i: nat, a: nat, b: nat, k: nat) {
    ExecuteShape(s, i, a, b) && ConcatenationArgumentShape(s, b, k)
  }

  lemma ArgumentStartExact(s: string, i: nat, a: nat, b: nat)
    requires ExecuteShape(s, i, a, b) && b < |s| && !IsSpace(s[b])
    ensures ExecuteCallAt(s, i) && ArgumentStart(s, i) == b
  {
    SkipSpacesExact(s, i + |Execute|, a);
    SkipSpacesExact(s, a + 1, b);
  }

  /** The greedy run of non-quotes reaches past every quote-free stretch. */
  lemma SkipNonQuotesPast(s: string, i: nat, k: nat)
    requires i <= k <= |s| && NoQuotes(s, i, k)
    ensures SkipNonQuotes(s, i) >= k
  {
  }

  /** The greedy argument matcher for `%s` accepts exactly the regex's arguments. */
  lemma FormatArgumentIffShape(s: string, q: nat)
    ensures FormatArgumentAt(s, q) <==> exists k: nat :: FormatArgumentShape(s, q, k)
  {
    if FormatArgumentAt(s, q) {
      var e := SkipNonQuotes(s, q + 1);
      var j :| 0 <= j <= |s[q + 1..e]| - 2 && OccursAt(s[q + 1..e], "%s", j);
      OccursInSlice(s, "%s", q + 1, e, j);
      OccursAtPair(s, "%s", q + 1 + j);
      assert FormatArgumentShape(s, q, q + 1 + j);
    }
    if k: nat :| FormatArgumentShape(s, q, k) {
      assert NoQuotes(s, q + 1, k + 2);
      SkipNonQuotesPast(s, q + 1, k + 2);
      var e := SkipNonQuotes(s, q + 1);
      OccursAtPair(s, "%s", k);
      OccursInSlice(s, "%s", q + 1, e, k - (q + 1));
    }
  }

  /** The greedy argument matcher for `+` accepts exactly the regex's arguments. */
  lemma ConcatenationArgumentIffShape(s: string, b: nat)
    ensures ConcatenationArgumentAt(s, b) <==> exists k: nat :: ConcatenationArgumentShape(s, b, k)
  {
    if ConcatenationArgumentAt(s, b) {
      var e := SkipNonQuotes(s, b + 1);
      var j :| 0 <= j < |s[b + 1..e]| && s[b + 1..e][j] == '+';
      assert ConcatenationArgumentShape(s, b, b + 1 + j);
    }
    if k: nat :| ConcatenationArgumentShape(s, b, k) {
      assert NoQuotes(s, b + 1, k + 1);
      SkipNonQuotesPast(s, b + 1, k + 1);
      var e := SkipNonQuotes(s, b + 1);
      assert s[b + 1..e][k - (b + 1)] == '+';
    }
  }

  /** The greedy matcher accepts exactly where the first SQL regex matches. */
  lemma FormatStringAtIffShape(s: string, i: nat)
    ensures FormatStringAt(s, i) <==> exists a: nat, b: nat, q: nat, k: nat :: FormatStringShape(s, i, a, b, q, k)
  {
    if FormatStringAt(s, i) {
      var a := SkipSpaces(s, i + |Execute|);
      var b := ArgumentStart(s, i);
      var q := if b < |s| && s[b] == 'f' then b + 1 else b;
      FormatArgumentIffShape(s, q);
      var k: nat :| FormatArgumentShape(s, q, k);
      assert FormatStringShape(s, i, a, b, q, k);
    }
    if a: nat, b: nat, q: nat, k: nat :| FormatStringShape(s, i, a, b, q, k) {
      ArgumentStartExact(s, i, a, b);
      FormatArgumentIffShape(s, q);
    }
  }

  /** The greedy matcher accepts exactly where the second SQL regex matches. */
  lemma ConcatenationAtIffShape(s: string, i: nat)
    ensures ConcatenationAt(s, i) <==> exists a: nat, b: nat, k: nat :: ConcatenationShape(s, i, a, b, k)
  {
    if ConcatenationAt(s, i) {
      var a := SkipSpaces(s, i + |Execute|);
      var b := ArgumentStart(s, i);
      ConcatenationArgumentIffShape(s, b);
      var k: nat :| ConcatenationArgumentShape(s, b, k);
      assert ConcatenationShape(s, i, a, b, k);
    }
    if a: nat, b: nat, k: nat :| ConcatenationShape(s, i, a, b, k) {
      ArgumentStartExact(s, i, a, b);
      ConcatenationArgumentIffShape(s, b);
    }
  }

  /** `re.search(pattern, code)` succeeds for the SQL pattern `p`. */
  predicate SqlMatches(code: string, p: SqlPattern) {
    match p
    case FormatString => exists i :: 0 <= i < |code| && FormatStringAt(code, i)
    case Concatenation => exists i :: 0 <= i < |code| && ConcatenationAt(code, i)
  }

  // ---------------------------------------------------------------------
  // Findings

  /** One finding per listed name that occurs in the text, in list order. */
  function DangerousIn(code: string, names: seq<string>): seq<SecurityIssue> {
    if names == [] then []
    else
      var last := names[|names| - 1];
      DangerousIn(code, names[..|names| - 1]) + (if Contains(code, last) then [DangerousFunction(last)] else [])
  }

  /** One finding per secret pattern that matches, in pattern order. */
  function SecretsIn(code: string, keywords: seq<string>): seq<SecurityIssue> {
    if keywords == [] then []
    else
      SecretsIn(code, keywords[..|keywords| - 1]) +
      (if SecretPattern(code, keywords[|keywords| - 1]) then [HardcodedSecret] else [])
  }

  /** One finding per SQL pattern that matches, in pattern order. */
  function SqlIn(code: string, patterns: seq<SqlPattern>): seq<SecurityIssue> {
    if patterns == [] then []
    else
      SqlIn(code, patterns[..|patterns| - 1]) +
      (if SqlMatches(code, patterns[|patterns| - 1]) then [SqlInjection] else [])
  }

  lemma DangerousInStep(code: string, names: seq<string>, i: nat)
    requires i < |names|
    ensures DangerousIn(code, names[..i + 1]) ==
      DangerousIn(code, names[..i]) + (if Contains(code, names[i]) then [DangerousFunction(names[i])] else [])
  {
    assert names[..i + 1][..i] == names[..i];
  }

  lemma SecretsInStep(code: string, keywords: seq<string>, i: nat)
    requires i < |keywords|
    ensures SecretsIn(code, keywords[..i + 1]) ==
      SecretsIn(code, keywords[..i]) + (if SecretPattern(code, keywords[i]) then [HardcodedSecret] else [])
  {
    assert keywords[..i + 1][..i] == keywords[..i];
  }

  lemma SqlInStep(code: string, patterns: seq<SqlPattern>, i: nat)
    requires i < |patterns|
    ensures SqlIn(code, patterns[..i + 1]) ==
      SqlIn(code, patterns[..i]) + (if SqlMatches(code, patterns[i]) then [SqlInjection] else [])
  {
    assert patterns[..i + 1][..i] == patterns[..i];
  }

  function DangerousFindings(code: string): seq<SecurityIssue> {
    DangerousIn(code, DangerousFunctions)
  }

  function SecretFindings(code: string): seq<SecurityIssue> {
    SecretsIn(code, SecretKeywords)
  }

  function SqlFindings(code: string): seq<SecurityIssue> {
    SqlIn(code, SqlPatterns)
  }

  /** LOW without issues, MEDIUM for one or two, HIGH from three on. */
  function RiskLevelOf(count: nat): (r: RiskLevel)
    ensures r == Low <==> count == 0
    ensures r == Medium <==> 1 <= count <= 2
    ensures r == High <==> count >= 3
  {
    if count == 0 then Low else if count <= 2 then Medium else High
  }

  /**
    `SecurityScanner.scan`: denylist findings, then secret findings, then
    SQL findings, and the risk level of their number.
  */
  method Scan(code: string) returns (report: SecurityReport)
    ensures report.issues == DangerousFindings(code) + SecretFindings(code) + SqlFindings(code)
    ensures report.riskLevel == RiskLevelOf(|report.issues|)
    ensures |report.issues| <= 13
  {
    var issues: seq<SecurityIssue> := [];
    for i := 0 to |DangerousFunctions|
      invariant issues == DangerousIn(code, DangerousFunctions[..i])
    {
      DangerousInStep(code, DangerousFunctions, i);
      var name := DangerousFunctions[i];
      if Contains(code, name) {
        issues := issues + [DangerousFunction(name)];
      }
    }
    assert DangerousFunctions[..|DangerousFunctions|] == DangerousFunctions;
    var dangerous := issues;
    for i := 0 to |SecretKeywords|
      invariant issues == dangerous + SecretsIn(code, SecretKeywords[..i])
    {
      SecretsInStep(code, SecretKeywords, i);
      if SecretPattern(code, SecretKeywords[i]) {
        issues := issues + [HardcodedSecret];
      }
    }
    assert SecretKeywords[..|SecretKeywords|] == SecretKeywords;
    var secrets := issues;
    for i := 0 to |SqlPatterns|
      invariant issues == secrets + SqlIn(code, SqlPatterns[..i])
    {
      SqlInStep(code, SqlPatterns, i);
      if SqlMatches(code, SqlPatterns[i]) {
        issues := issues + [SqlInjection];
      }
    }
    assert SqlPatterns[..|SqlPatterns|] == SqlPatterns;
    FindingCounts(code);
    report := SecurityReport(issues, RiskLevelOf(|issues|));
  }

  // ---------------------------------------------------------------------
  // Properties of the findings

  lemma {:induction false} DangerousInIff(code: string, names: seq<string>, name: string)
    ensures DangerousFunction(name) in DangerousIn(code, names) <==> name in names && Contains(code, name)
  {
    if names != [] {
      var init := names[..|names| - 1];
      DangerousInIff(code, init, name);
      assert names == init + [names[|names| - 1]];
    }
  }

  lemma {:induction false} DangerousInShape(code: string, names: seq<string>)
    ensures |DangerousIn(code, names)| <= |names|
    ensures forall k :: 0 <= k < |DangerousIn(code, names)| ==> DangerousIn(code, names)[k].DangerousFunction?
  {
    if names != [] {
      DangerousInShape(code, names[..|names| - 1]);
    }
  }

  /** A denylist finding names exactly the listed entries that occur in the text. */
  lemma DangerousFindingIff(code: string, name: string)
    ensures DangerousFunction(name) in DangerousFindings(code) <==> name in DangerousFunctions && Contains(code, name)
  {
    DangerousInIff(code, DangerousFunctions, name);
  }

  /** Overlapping entries both fire: `execfile` in the text also reports `exec`. */
  lemma ExecfileAlsoReportsExec(code: string)
    requires Contains(code, "execfile")
    ensures DangerousFunction("exec") in DangerousFindings(code)
    ensures DangerousFunction("execfile") in DangerousFindings(code)
  {
    assert OccursAt("execfile", "exec", 0);
    ContainsTransitive(code, "execfile", "exec");
    DangerousFindingIff(code, "exec");
    DangerousFindingIff(code, "execfile");
  }

  lemma {:induction false} SecretsInCount(code: string, keywords: seq<string>)
    ensures |SecretsIn(code, keywords)| <= |keywords|
    ensures forall k :: 0 <= k < |SecretsIn(code, keywords)| ==> SecretsIn(code, keywords)[k] == HardcodedSecret
    ensures SecretsIn(code, keywords) == [] <==> forall k :: 0 <= k < |keywords| ==> !SecretPattern(code, keywords[k])
  {
    if keywords != [] {
      var init := keywords[..|keywords| - 1];
      SecretsInCount(code, init);
      assert forall k :: 0 <= k < |init| ==> init[k] == keywords[k];
    }
  }

  lemma {:induction false} SqlInCount(code: string, patterns: seq<SqlPattern>)
    ensures |SqlIn(code, patterns)| <= |patterns|
    ensures forall k :: 0 <= k < |SqlIn(code, patterns)| ==> SqlIn(code, patterns)[k] == SqlInjection
    ensures SqlIn(code, patterns) == [] <==> forall k :: 0 <= k < |patterns| ==> !SqlMatches(code, patterns[k])
  {
    if patterns != [] {
      var init := patterns[..|patterns| - 1];
      SqlInCount(code, init);
      assert forall k :: 0 <= k < |init| ==> init[k] == patterns[k];
    }
  }

  /** At most one finding per entry: at most 8 denylist, 3 secret and
      2 SQL findings, 13 in all. */
  lemma FindingCounts(code: string)
    ensures |DangerousFindings(code)| <= 8
    ensures |SecretFindings(code)| <= 3
    ensures |SqlFindings(code)| <= 2
    ensures |DangerousFindings(code) + SecretFindings(code) + SqlFindings(code)| <= 13
  {
    DangerousInShape(code, DangerousFunctions);
    SecretsInCount(code, SecretKeywords);
    SqlInCount(code, SqlPatterns);
  }

  /** A secret finding appears iff some secret pattern matches, a SQL
      finding iff some SQL pattern matches. */
  lemma FindingsIff(code: string)
    ensures HardcodedSecret in SecretFindings(code) <==> exists k :: 0 <= k < 3 && SecretPattern(code, SecretKeywords[k])
    ensures SqlInjection in SqlFindings(code) <==> SqlMatches(code, FormatString) || SqlMatches(code, Concatenation)
  {
    SecretsInCount(code, SecretKeywords);
    var secrets := SecretFindings(code);
    assert HardcodedSecret in secrets <==> secrets != [] by {
      if secrets != [] {
        assert secrets[0] == HardcodedSecret;
      }
    }
    SqlInCount(code, SqlPatterns);
  }
}
