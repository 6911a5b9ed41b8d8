/**
  The performance checks, all over the syntax tree: loops with a loop as a
  direct child, calls whose source segment names an expensive operation,
  and imported names never used as an identifier.
*/
module Performance {
  import opened Wrappers
  import opened Text
  import opened Syntax

  datatype PerfIssue =
    | NestedLoops                   // "Nested loops detected - consider optimization"
    | ExpensiveOperation(op: string) // "Expensive operation '{op}' found"
    | UnusedImport(name: string)     // "Unused import: {name}"

  datatype PerformanceReport = PerformanceReport(issues: seq<PerfIssue>)

  const ExpensiveCalls: seq<string> := ["re.compile", "sorted(", "list.sort("]

  function Message(issue: PerfIssue): string {
    match issue
    case NestedLoops => "Nested loops detected - consider optimization"
    case ExpensiveOperation(op) => "Expensive operation '" + op + "' found"
    case UnusedImport(name) => "Unused import: " + name
  }

  /** Different findings never print the same message. */
  lemma MessageInjective(a: PerfIssue, b: PerfIssue)
    ensures Message(a) == Message(b) ==> a == b
  {
    if a != b {
      if a.ExpensiveOperation? && b.ExpensiveOperation? {
        var n := |"Expensive operation '"|;
        Framed("Expensive operation '", a.op, "' found");
        Framed("Expensive operation '", b.op, "' found");
        assert Message(a) == "Expensive operation '" + a.op + "' found";
        assert Message(b) == "Expensive operation '" + b.op + "' found";
        assert a.op != b.op;
        assert |Message(a)| == n + |a.op| + 7 && |Message(b)| == n + |b.op| + 7;
        assert |Message(a)| != |Message(b)| || Message(a)[n..n + |a.op|] != Message(b)[n..n + |b.op|];
      } else if a.UnusedImport? && b.UnusedImport? {
        var n := |"Unused import: "|;
        assert Message(a)[n..] == a.name && Message(b)[n..] == b.name;
      } else {
        FifteenthLetter(a);
        FifteenthLetter(b);
      }
    }
  }

  /** The three kinds of finding differ in the fifteenth character of their message. */
  lemma FifteenthLetter(issue: PerfIssue)
    ensures |Message(issue)| > 14
    ensures Message(issue)[14] == (if issue.NestedLoops? then 'e' else if issue.ExpensiveOperation? then 'a' else ' ')
  {
    match issue
    case NestedLoops =>
    case ExpensiveOperation(op) =>
      var prefix := "Expensive operation '";
      assert Message(issue) == prefix + (op + "' found");
      assert Message(issue)[14] == prefix[14];
    case UnusedImport(name) =>
      var prefix := "Unused import: ";
      assert Message(issue) == prefix + name;
      assert Message(issue)[14] == prefix[14];
  }

  // ---------------------------------------------------------------------
  // Nested loops

  /** `For` and `While` count as loops here; `AsyncFor` does not. */
  predicate IsLoop(n: Node) {
    n.kind.For? || n.kind.While?
  }

  /** A loop one of whose direct children is a loop. */
  predicate HasDirectLoopChild(n: Node) {
    IsLoop(n) && exists k :: 0 <= k < |n.children| && IsLoop(n.children[k])
  }

  /** One finding per loop with a direct loop child. */
  function NestedLoopFindings(tree: Node): seq<PerfIssue> {
    seq(CountInTree(tree, HasDirectLoopChild), _ => NestedLoops)
  }

  /** `_find_nested_loops`: at most one finding per outer loop, looking at direct children only. */
  method FindNestedLoops(tree: Node) returns (issues: seq<PerfIssue>)
    ensures |issues| == CountInTree(tree, HasDirectLoopChild)
    ensures forall k :: 0 <= k < |issues| ==> issues[k] == NestedLoops
  {
    var nodes := Walk(tree);
    issues := [];
    for i := 0 to |nodes|
      invariant |issues| == Occurrences(nodes[..i], HasDirectLoopChild)
      invariant forall k :: 0 <= k < |issues| ==> issues[k] == NestedLoops
    {
      var node := nodes[i];
      OccurrencesAppend(nodes[..i], [node], HasDirectLoopChild);
      assert nodes[..i + 1] == nodes[..i] + [node];
      if IsLoop(node) {
        var j := 0;
        while j < |node.children|
          invariant 0 <= j <= |node.children|
          invariant forall k :: 0 <= k < j ==> !IsLoop(node.children[k])
        {
          if IsLoop(node.children[j]) {
            issues := issues + [NestedLoops];
            break;
          }
          j := j + 1;
        }
      }
    }
    assert nodes[..|nodes|] == nodes;
    WalkCount(tree, HasDirectLoopChild);
  }

  // ---------------------------------------------------------------------
  // Expensive operations

  /** The first entry of `candidates` that occurs in `segment`. */
  function FirstContained(segment: string, candidates: seq<string>): (r: Option<string>)
    ensures r.None? <==> forall k :: 0 <= k < |candidates| ==> !Contains(segment, candidates[k])
    ensures r.Some? ==> Contains(segment, r.value) && exists k ::
      (0 <= k < |candidates| && candidates[k] == r.value && forall j :: 0 <= j < k ==> !Contains(segment, candidates[j]))
  {
    if candidates == [] then None
    else if Contains(segment, candidates[0]) then Some(candidates[0])
    else
      var r := FirstContained(segment, candidates[1..]);
      assert forall k :: 1 <= k < |candidates| ==> candidates[k] == candidates[1..][k - 1];
      r
  }

  /** The finding a node contributes: a call with a non-empty segment
      naming an expensive operation. */
  function ExpensiveFinding(n: Node): Option<PerfIssue> {
    if n.kind.Call? && n.kind.segment.Some? && n.kind.segment.value != [] then
      match FirstContained(n.kind.segment.value, ExpensiveCalls)
      case Some(op) => Some(ExpensiveOperation(op))
      case None => None
    else None
  }

  predicate IsExpensiveCall(n: Node) {
    ExpensiveFinding(n).Some?
  }

  /** The findings of a sequence of nodes, in order. */
  function ExpensiveFindings(nodes: seq<Node>): seq<PerfIssue> {
    if nodes == [] then []
    else
      var init := ExpensiveFindings(nodes[..|nodes| - 1]);
      match ExpensiveFinding(nodes[|nodes| - 1])
      case Some(f) => init + [f]
      case None => init
  }

  /** `_find_expensive_operations`: calls in `ast.walk` order, each with at
      most one finding naming the first expensive entry its segment contains. */
  method FindExpensiveOperations(tree: Node) returns (issues: seq<PerfIssue>)
    ensures issues == ExpensiveFindings(Walk(tree))
  {
    var nodes := Walk(tree);
    issues := [];
    for i := 0 to |nodes|
      invariant issues == ExpensiveFindings(nodes[..i])
    {
      var node := nodes[i];
      ExpensiveFindingsStep(nodes, i);
      if node.kind.Call? && node.kind.segment.Some? && node.kind.segment.value != [] {
        var callCode := node.kind.segment.value;
        var j := 0;
        while j < |ExpensiveCalls|
          invariant 0 <= j <= |ExpensiveCalls|
          invariant FirstContained(callCode, ExpensiveCalls) == FirstContained(callCode, ExpensiveCalls[j..])
          invariant issues == ExpensiveFindings(nodes[..i])
        {
          FirstContainedStep(callCode, ExpensiveCalls, j);
          if Contains(callCode, ExpensiveCalls[j]) {
            issues := issues + [ExpensiveOperation(ExpensiveCalls[j])];
            break;
          }
          j := j + 1;
        }
      }
    }
    assert nodes[..|nodes|] == nodes;
  }

  /** Scanning one more candidate: it is the first contained one, or the
      search goes on with the rest. */
  lemma FirstContainedStep(segment: string, candidates: seq<string>, j: nat)
    requires j < |candidates|
    ensures FirstContained(segment, candidates[j..]) ==
      if Contains(segment, candidates[j]) then Some(candidates[j]) else FirstContained(segment, candidates[j + 1..])
  {
    assert candidates[j..][1..] == candidates[j + 1..];
  }

  /** One more node adds its finding, if any, at the end. */
  lemma ExpensiveFindingsStep(nodes: seq<Node>, i: nat)
    requires i < |nodes|
    ensures ExpensiveFindings(nodes[..i + 1]) ==
      ExpensiveFindings(nodes[..i]) + (match ExpensiveFinding(nodes[i]) case Some(f) => [f] case None => [])
  {
    assert nodes[..i + 1][..i] == nodes[..i];
  }

  lemma {:induction false} ExpensiveFindingsShape(nodes: seq<Node>)
    ensures |ExpensiveFindings(nodes)| == Occurrences(nodes, IsExpensiveCall)
    ensures forall k :: 0 <= k < |ExpensiveFindings(nodes)| ==>
      ExpensiveFindings(nodes)[k].ExpensiveOperation? && ExpensiveFindings(nodes)[k].op in ExpensiveCalls
  {
    if nodes != [] {
      var init := nodes[..|nodes| - 1];
      ExpensiveFindingsShape(init);
      OccurrencesAppend(init, [nodes[|nodes| - 1]], IsExpensiveCall);
      assert init + [nodes[|nodes| - 1]] == nodes;
    }
  }

  /** One finding per call node, at any depth, whose non-empty segment
      contains an expensive entry; each names an entry of the list. */
  lemma ExpensiveFindingsCount(tree: Node)
    ensures |ExpensiveFindings(Walk(tree))| == CountInTree(tree, IsExpensiveCall)
    ensures forall k :: 0 <= k < |ExpensiveFindings(Walk(tree))| ==>
      ExpensiveFindings(Walk(tree))[k].ExpensiveOperation? && ExpensiveFindings(Walk(tree))[k].op in ExpensiveCalls
  {
    ExpensiveFindingsShape(Walk(tree));
    WalkCount(tree, IsExpensiveCall);
  }

  // ---------------------------------------------------------------------
  // Unused imports

  /** The names of a statement's aliases. */
  function NameSet(names: seq<string>): set<string> {
    set name | name in names
  }

  /** The `alias.name` values an `Import` or `ImportFrom` node binds. */
  function ImportedBy(n: Node): set<string> {
    match n.kind
    case Import(names) => NameSet(names)
    case ImportFrom(names) => NameSet(names)
    case _ => {}
  }

  /** The identifier a `Name` node uses. */
  function UsedBy(n: Node): set<string> {
    if n.kind.Name? then {n.kind.id} else {}
  }

  /** Every imported name anywhere in the tree. */
  function ImportedNames(tree: Node): set<string> {
    GatherInForest([tree], ImportedBy)
  }

  /** Every identifier used anywhere in the tree. */
  function UsedNames(tree: Node): set<string> {
    GatherInForest([tree], UsedBy)
  }

  /** A report of the unused imports: one finding per imported name that is
      never used, in an unspecified order. */
  predicate ReportsUnused(issues: seq<PerfIssue>, unused: set<string>) {
    |issues| == |unused| &&
    (forall k :: 0 <= k < |issues| ==> issues[k].UnusedImport? && issues[k].name in unused) &&
    (forall n :: n in unused ==> UnusedImport(n) in issues)
  }

  /** One more node adds what it contributes. */
  lemma GatherStep(nodes: seq<Node>, i: nat, f: Node -> set<string>)
    requires i < |nodes|
    ensures Gather(nodes[..i + 1], f) == Gather(nodes[..i], f) + f(nodes[i])
  {
    GatherAppend(nodes[..i], [nodes[i]], f);
    assert nodes[..i + 1] == nodes[..i] + [nodes[i]];
  }

  /** One more alias adds its name. */
  lemma NameSetStep(names: seq<string>, j: nat)
    requires j < |names|
    ensures NameSet(names[..j + 1]) == NameSet(names[..j]) + {names[j]}
  {
    assert names[..j + 1] == names[..j] + [names[j]];
  }

  /** The names gathered by the first loop of `_find_unused_imports`: every
      `alias.name` of an import and every `Name` id, over `ast.walk`. */
  method GatherNames(tree: Node) returns (importedNames: set<string>, usedNames: set<string>)
    ensures importedNames == ImportedNames(tree)
    ensures usedNames == UsedNames(tree)
  {
    var nodes := Walk(tree);
    importedNames, usedNames := {}, {};
    for i := 0 to |nodes|
      invariant importedNames == Gather(nodes[..i], ImportedBy)
      invariant usedNames == Gather(nodes[..i], UsedBy)
    {
      var node := nodes[i];
      GatherStep(nodes, i, ImportedBy);
      GatherStep(nodes, i, UsedBy);
      if node.kind.Import? || node.kind.ImportFrom? {
        var names := node.kind.names;
        var before := importedNames;
        for j := 0 to |names|
          invariant importedNames == before + NameSet(names[..j])
        {
          NameSetStep(names, j);
          importedNames := importedNames + {names[j]};
        }
        assert names[..|names|] == names;
      }
      if node.kind.Name? {
        usedNames := usedNames + {node.kind.id};
      }
    }
    assert nodes[..|nodes|] == nodes;
    BfsGather([tree], ImportedBy);
    BfsGather([tree], UsedBy);
  }

  /** The second loop of `_find_unused_imports`: one finding per name of
      `unused`. Python iterates the set in an unspecified order; the choice
      below stands for it. */
  method ReportUnused(unused: set<string>) returns (issues: seq<PerfIssue>)
    ensures ReportsUnused(issues, unused)
  {
    var remaining := unused;
    issues := [];
    while remaining != {}
      invariant remaining <= unused
      invariant |issues| + |remaining| == |unused|
      invariant forall k :: 0 <= k < |issues| ==> issues[k].UnusedImport? && issues[k].name in unused - remaining
      invariant forall n :: n in unused - remaining ==> UnusedImport(n) in issues
      decreases |remaining|
    {
      var imported :| imported in remaining;
      issues := issues + [UnusedImport(imported)];
      remaining := remaining - {imported};
    }
  }

  /** `_find_unused_imports`: each imported name never used as an identifier, once. */
  method FindUnusedImports(tree: Node) returns (issues: seq<PerfIssue>)
    ensures ReportsUnused(issues, ImportedNames(tree) - UsedNames(tree))
  {
    var importedNames, usedNames := GatherNames(tree);
    issues := ReportUnused(importedNames - usedNames);
  }

  /** An imported name is reported iff it is an `alias.name` of some import
      and the id of no `Name` node. */
  lemma UnusedImportIff(tree: Node, issues: seq<PerfIssue>, name: string)
    requires ReportsUnused(issues, ImportedNames(tree) - UsedNames(tree))
    ensures UnusedImport(name) in issues <==> name in ImportedNames(tree) && name !in UsedNames(tree)
  {
    if UnusedImport(name) in issues {
      var k :| 0 <= k < |issues| && issues[k] == UnusedImport(name);
    }
  }

  // ---------------------------------------------------------------------
  // The whole check

  /** The issues of a parsed tree: the nested-loop findings, then the
      expensive-call findings in walk order, then a report of the unused
      imports. */
  predicate ChecksTree(issues: seq<PerfIssue>, tree: Node) {
    var nested := NestedLoopFindings(tree);
    var expensive := ExpensiveFindings(Walk(tree));
    |nested| + |expensive| <= |issues| &&
    issues[..|nested|] == nested &&
    issues[|nested|..|nested| + |expensive|] == expensive &&
    ReportsUnused(issues[|nested| + |expensive|..], ImportedNames(tree) - UsedNames(tree))
  }

  /**
    `PerformanceAnalyzer.check`: nothing on a syntax error; otherwise the
    nested-loop findings, then the expensive-call findings, then the
    unused-import findings.
  */
  method Check(parsed: Option<Node>) returns (report: PerformanceReport)
    ensures parsed.None? ==> report.issues == []
    ensures parsed.Some? ==> ChecksTree(report.issues, parsed.value)
  {
    var issues: seq<PerfIssue> := [];
    if parsed.Some? {
      var tree := parsed.value;
      var nested := FindNestedLoops(tree);
      assert nested == NestedLoopFindings(tree);
      issues := issues + nested;
      var expensive := FindExpensiveOperations(tree);
      issues := issues + expensive;
      var unused := FindUnusedImports(tree);
      issues := issues + unused;
      assert issues[..|nested|] == nested;
      assert issues[|nested|..|nested| + |expensive|] == expensive;
      assert issues[|nested| + |expensive|..] == unused;
    }
    report := PerformanceReport(issues);
  }

  // ---------------------------------------------------------------------
  // Scenarios

  /** `for i in range(10):` / `for j in range(10):` / `pass` has exactly one nested-loop finding. */
  lemma NestedForReportedOnce()
    ensures
      var range := Node(Call(Some("range(10)")), [Node(Name("range"), [])]);
      var inner := Node(For, [Node(Name("j"), []), range, Node(Other, [])]);
      var outer := Node(For, [Node(Name("i"), []), range, inner]);
      CountInTree(Node(Other, [outer]), HasDirectLoopChild) == 1
  {
    var range := Node(Call(Some("range(10)")), [Node(Name("range"), [])]);
    var inner := Node(For, [Node(Name("j"), []), range, Node(Other, [])]);
    var outer := Node(For, [Node(Name("i"), []), range, inner]);
    assert IsLoop(outer.children[2]);
    assert !HasDirectLoopChild(inner);
  }

  /** A loop whose inner loop sits under an `if`, and an `async for` around a
      `for`, have no nested-loop finding. */
  lemma IndirectOrAsyncNestingNotReported()
    ensures CountInTree(Node(For, [Node(If, [Node(For, [])])]), HasDirectLoopChild) == 0
    ensures CountInTree(Node(AsyncFor, [Node(For, [])]), HasDirectLoopChild) == 0
  {
  }

  /** `import os` then `print('hi')`: `os` is the one unused import. */
  lemma UnusedOsImport()
    ensures
      var call := Node(Call(Some("print('hi')")), [Node(Name("print"), []), Node(Other, [])]);
      var tree := Node(Other, [Node(Import(["os"]), []), Node(Other, [call])]);
      ImportedNames(tree) - UsedNames(tree) == {"os"}
  {
    var printName := Node(Name("print"), []);
    var arg := Node(Other, []);
    var call := Node(Call(Some("print('hi')")), [printName, arg]);
    var expr := Node(Other, [call]);
    var imp := Node(Import(["os"]), []);
    var tree := Node(Other, [imp, expr]);
    assert ImportedBy(imp) == {"os"};
    assert GatherInForest([arg], UsedBy) == {};
    assert GatherInForest([printName, arg], UsedBy) == {"print"};
    assert GatherInForest([arg], ImportedBy) == {};
    assert GatherInForest([printName, arg], ImportedBy) == {};
    assert GatherInForest([call], UsedBy) == {"print"};
    assert GatherInForest([call], ImportedBy) == {};
    assert GatherInForest([expr], UsedBy) == {"print"};
    assert GatherInForest([expr], ImportedBy) == {};
    assert GatherInForest([imp, expr], UsedBy) == {"print"};
    assert GatherInForest([imp, expr], ImportedBy) == {"os"};
  }
}
