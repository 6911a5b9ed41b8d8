/**
  The syntax tree the analyzers inspect, over a closed set of node kinds, and
  Python's `ast.walk` as a breadth-first traversal of it. Parsing itself is
  outside the model: a tree, or `None` for a syntax error, is an input.
*/
module Syntax {
  import opened Wrappers

  /** The node kinds the analyzers distinguish; every other node is `Other`. */
  datatype Kind =
    | If | While | For | AsyncFor | Try | With | AsyncWith
    | Call(segment: Option<string>)      // `ast.get_source_segment` of the call
    | Import(names: seq<string>)         // `alias.name` of each alias
    | ImportFrom(names: seq<string>)     // `alias.name` of each alias
    | Name(id: string)
    | FunctionDef | AsyncFunctionDef | ClassDef
    | Other

  datatype Node = Node(kind: Kind, children: seq<Node>)

  /** The number of nodes in a forest, at every depth. */
  function Size(forest: seq<Node>): nat
    decreases forest
  {
    if forest == [] then 0 else 1 + Size(forest[0].children) + Size(forest[1..])
  }

  lemma {:induction false} SizeAppend(a: seq<Node>, b: seq<Node>)
    ensures Size(a + b) == Size(a) + Size(b)
    decreases a
  {
    if a != [] {
      assert (a + b)[0] == a[0];
      assert (a + b)[1..] == a[1..] + b;
      SizeAppend(a[1..], b);
    } else {
      assert a + b == b;
    }
  }

  /**
    `ast.walk` started from the nodes of `queue`: take the front node, append
    its direct children to the back, repeat. Breadth-first order.
  */
  function Bfs(queue: seq<Node>): (nodes: seq<Node>)
    decreases Size(queue)
  {
    if queue == [] then []
    else
      SizeAppend(queue[1..], queue[0].children);
      [queue[0]] + Bfs(queue[1..] + queue[0].children)
  }

  /** Every node of the tree rooted at `tree`, in `ast.walk` order. */
  function Walk(tree: Node): seq<Node> {
    Bfs([tree])
  }

  /** How many nodes of a flat sequence satisfy `p`. */
  function Occurrences(nodes: seq<Node>, p: Node -> bool): nat {
    if nodes == [] then 0 else (if p(nodes[0]) then 1 else 0) + Occurrences(nodes[1..], p)
  }

  /** How many nodes of a forest, at any depth, satisfy `p`. */
  function CountInForest(forest: seq<Node>, p: Node -> bool): nat
    decreases forest
  {
    if forest == [] then 0
    else (if p(forest[0]) then 1 else 0) + CountInForest(forest[0].children, p) + CountInForest(forest[1..], p)
  }

  /** How many nodes of the tree rooted at `tree` satisfy `p`. */
  function CountInTree(tree: Node, p: Node -> bool): nat {
    CountInForest([tree], p)
  }

  lemma {:induction false} OccurrencesAppend(a: seq<Node>, b: seq<Node>, p: Node -> bool)
    ensures Occurrences(a + b, p) == Occurrences(a, p) + Occurrences(b, p)
  {
    if a != [] {
      assert (a + b)[0] == a[0];
      assert (a + b)[1..] == a[1..] + b;
      OccurrencesAppend(a[1..], b, p);
    } else {
      assert a + b == b;
    }
  }

  lemma {:induction false} CountInForestAppend(a: seq<Node>, b: seq<Node>, p: Node -> bool)
    ensures CountInForest(a + b, p) == CountInForest(a, p) + CountInForest(b, p)
  {
    if a != [] {
      assert (a + b)[0] == a[0];
      assert (a + b)[1..] == a[1..] + b;
      CountInForestAppend(a[1..], b, p);
    } else {
      assert a + b == b;
    }
  }

  /** Counting along the breadth-first walk counts every node of the forest
      exactly once, whatever the predicate. */
  lemma {:induction false} BfsCount(queue: seq<Node>, p: Node -> bool)
    ensures Occurrences(Bfs(queue), p) == CountInForest(queue, p)
    decreases Size(queue)
  {
    if queue != [] {
      var next := queue[1..] + queue[0].children;
      SizeAppend(queue[1..], queue[0].children);
      BfsCount(next, p);
      CountInForestAppend(queue[1..], queue[0].children, p);
      assert ([queue[0]] + Bfs(next))[1..] == Bfs(next);
    }
  }

  /** `ast.walk(tree)` visits every node of the tree exactly once. */
  lemma WalkCount(tree: Node, p: Node -> bool)
    ensures Occurrences(Walk(tree), p) == CountInTree(tree, p)
    ensures |Walk(tree)| == Size([tree])
  {
    BfsCount([tree], p);
    BfsCount([tree], _ => true);
    OccurrencesAll(Walk(tree));
    CountAllIsSize([tree]);
  }

  lemma {:induction false} OccurrencesAll(nodes: seq<Node>)
    ensures Occurrences(nodes, _ => true) == |nodes|
  {
    if nodes != [] {
      OccurrencesAll(nodes[1..]);
    }
  }

  lemma {:induction false} CountAllIsSize(forest: seq<Node>)
    ensures CountInForest(forest, _ => true) == Size(forest)
    decreases forest
  {
    if forest != [] {
      CountAllIsSize(forest[0].children);
      CountAllIsSize(forest[1..]);
    }
  }

  /** The union of `f` over a flat sequence of nodes. */
  function Gather(nodes: seq<Node>, f: Node -> set<string>): set<string> {
    if nodes == [] then {} else f(nodes[0]) + Gather(nodes[1..], f)
  }

  /** The union of `f` over every node of a forest, at any depth. */
  function GatherInForest(forest: seq<Node>, f: Node -> set<string>): set<string>
    decreases forest
  {
    if forest == [] then {}
    else f(forest[0]) + GatherInForest(forest[0].children, f) + GatherInForest(forest[1..], f)
  }

  lemma {:induction false} GatherAppend(a: seq<Node>, b: seq<Node>, f: Node -> set<string>)
    ensures Gather(a + b, f) == Gather(a, f) + Gather(b, f)
  {
    if a != [] {
      assert (a + b)[0] == a[0];
      assert (a + b)[1..] == a[1..] + b;
      GatherAppend(a[1..], b, f);
    } else {
      assert a + b == b;
    }
  }

  lemma {:induction false} GatherInForestAppend(a: seq<Node>, b: seq<Node>, f: Node -> set<string>)
    ensures GatherInForest(a + b, f) == GatherInForest(a, f) + GatherInForest(b, f)
  {
    if a != [] {
      assert (a + b)[0] == a[0];
      assert (a + b)[1..] == a[1..] + b;
      GatherInForestAppend(a[1..], b, f);
    } else {
      assert a + b == b;
    }
  }

  /** Gathering along the breadth-first walk gathers from every node of the forest. */
  lemma {:induction false} BfsGather(queue: seq<Node>, f: Node -> set<string>)
    ensures Gather(Bfs(queue), f) == GatherInForest(queue, f)
    decreases Size(queue)
  {
    if queue != [] {
      var next := queue[1..] + queue[0].children;
      SizeAppend(queue[1..], queue[0].children);
      BfsGather(next, f);
      GatherInForestAppend(queue[1..], queue[0].children, f);
      assert ([queue[0]] + Bfs(next))[1..] == Bfs(next);
    }
  }
}
