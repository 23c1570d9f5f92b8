/** Statistics over a finished process tree: the level and fan-out histograms, the ids of
    every node and of the leaves in pre-order, the maximum depth, the average fan-out and
    the critical path. */
module Statistics {
  import opened Common
  import opened Store
  import opened ProcessTree

  /** A `defaultdict(int)` of counts, remembering the order in which its keys were first
      incremented (the order its `items()` follow). */
  datatype Histogram = Histogram(order: seq<int>, counts: map<int, nat>)
  {
    /** Every key appears once in `order`, and exactly the keys of `order` are counted. */
    ghost predicate Valid()
    {
      Distinct(order) && (forall k :: k in counts <==> k in order)
    }

    /** `h[k]`, which is 0 for a key never incremented. */
    function Get(k: int): nat
    {
      if k in counts then counts[k] else 0
    }

    /** `h[k] += 1` */
    function Bump(k: int): (r: Histogram)
      ensures Valid() ==> r.Valid()
      ensures r.Get(k) == Get(k) + 1
      ensures forall j :: j != k ==> r.Get(j) == Get(j)
      ensures forall j :: j in r.counts <==> j in counts || j == k
    {
      if k in counts then Histogram(order, counts[k := counts[k] + 1])
      else Histogram(order + [k], counts[k := 1])
    }
  }

  /** What a key contributes to a sum over the histogram: 1 per count for a plain sum;
      `k` per count for positive `k` in the fan-out sum of `get_avg_fanout`. */
  function Weight(k: int, weighted: bool): nat
  {
    if !weighted then 1 else if k > 0 then k else 0
  }

  /** The sum of `Weight(k) * counts[k]` over `keys`. */
  function Sum(keys: seq<int>, counts: map<int, nat>, weighted: bool): int
  {
    if keys == [] then 0
    else
      var k := keys[|keys| - 1];
      Sum(keys[..|keys| - 1], counts, weighted) + Weight(k, weighted) * (if k in counts then counts[k] else 0)
  }

  function Total(h: Histogram, weighted: bool): int
  {
    Sum(h.order, h.counts, weighted)
  }

  /** Changing the count of a key outside `keys` does not change the sum. */
  lemma {:induction false} SumFrame(keys: seq<int>, counts: map<int, nat>, weighted: bool, k: int, v: nat)
    requires k !in keys
    ensures Sum(keys, counts[k := v], weighted) == Sum(keys, counts, weighted)
  {
    if keys != [] {
      SumFrame(keys[..|keys| - 1], counts, weighted, k, v);
    }
  }

  /** Incrementing the count of a key that occurs once in `keys` adds its weight. */
  lemma {:induction false} SumBump(keys: seq<int>, counts: map<int, nat>, weighted: bool, k: int)
    requires Distinct(keys) && k in keys && k in counts
    ensures Sum(keys, counts[k := counts[k] + 1], weighted) == Sum(keys, counts, weighted) + Weight(k, weighted)
  {
    var init, last := keys[..|keys| - 1], keys[|keys| - 1];
    var w := Weight(k, weighted);
    if last == k {
      assert k !in init;
      SumFrame(init, counts, weighted, k, counts[k] + 1);
      assert w * (counts[k] + 1) == w * counts[k] + w;
    } else {
      assert keys == init + [last];
      SumBump(init, counts, weighted, k);
    }
  }

  /** One increment adds one to the plain sum and the key's weight to the weighted sum. */
  lemma BumpTotal(h: Histogram, k: int, weighted: bool)
    requires h.Valid()
    ensures Total(h.Bump(k), weighted) == Total(h, weighted) + Weight(k, weighted)
  {
    if k in h.counts {
      SumBump(h.order, h.counts, weighted, k);
    } else {
      var r := h.Bump(k);
      assert r.order[..|r.order| - 1] == h.order;
      SumFrame(h.order, h.counts, weighted, k, 1);
    }
  }

  // ---------------------------------------------------------------------------
  // The traversal

  /** Everything `_traverse_tree` accumulates. */
  datatype Stats = Stats(levels: Histogram, fanouts: Histogram, leaves: seq<ProcessId>, all: seq<ProcessId>)

  /** The statistics after recording one node. */
  function Visit(st: Stats, n: TreeNode): Stats
  {
    Stats(st.levels.Bump(n.level), st.fanouts.Bump(|n.children|),
          st.leaves + (if n.children == [] then [n.processId] else []), st.all + [n.processId])
  }

  /** The statistics after recording each node of `ns` in turn. */
  function Record(st: Stats, ns: seq<TreeNode>): Stats
  {
    if ns == [] then st else Visit(Record(st, ns[..|ns| - 1]), ns[|ns| - 1])
  }

  const Start := Stats(Histogram([], map[]), Histogram([], map[]), [], [])

  /** Recording two runs of nodes is recording them one after the other. */
  lemma {:induction false} RecordAppend(st: Stats, a: seq<TreeNode>, b: seq<TreeNode>)
    ensures Record(st, a + b) == Record(Record(st, a), b)
    decreases |b|
  {
    if b == [] {
      assert a + b == a;
    } else {
      assert (a + b)[..|a + b| - 1] == a + b[..|b| - 1];
      RecordAppend(st, a, b[..|b| - 1]);
    }
  }

  /** One round of the children loop of `_traverse_tree`: recording the subtree of child
      `i` after the earlier ones. */
  lemma RecordChild(st: Stats, node: TreeNode, i: nat)
    requires i < |node.children|
    ensures Record(st, [node] + Forest(node.children[..i + 1]))
      == Record(Record(st, [node] + Forest(node.children[..i])), PreOrder(node.children[i]))
  {
    var c := node.children[i];
    assert node.children[..i + 1] == node.children[..i] + [c];
    ForestAppend(node.children[..i], c);
    assert [node] + Forest(node.children[..i + 1]) == ([node] + Forest(node.children[..i])) + PreOrder(c);
    RecordAppend(st, [node] + Forest(node.children[..i]), PreOrder(c));
  }

  lemma RecordChildren(st: Stats, node: TreeNode)
    ensures Record(st, [node] + Forest(node.children[..|node.children|])) == Record(st, PreOrder(node))
  {
    assert node.children[..|node.children|] == node.children;
  }

  /** The total number of children of the nodes `ns`. */
  function ChildCount(ns: seq<TreeNode>): nat
  {
    if ns == [] then 0 else ChildCount(ns[..|ns| - 1]) + |ns[|ns| - 1].children|
  }

  /** The number of leaves among `ns`. */
  function LeafCount(ns: seq<TreeNode>): nat
  {
    if ns == [] then 0 else LeafCount(ns[..|ns| - 1]) + (if ns[|ns| - 1].children == [] then 1 else 0)
  }

  /** Recording keeps both histograms well formed. */
  lemma {:induction false} RecordValid(st: Stats, ns: seq<TreeNode>)
    requires st.levels.Valid() && st.fanouts.Valid()
    ensures Record(st, ns).levels.Valid() && Record(st, ns).fanouts.Valid()
  {
    if ns != [] {
      RecordValid(st, ns[..|ns| - 1]);
    }
  }

  /** Recording appends the id of every node, in order. */
  lemma {:induction false} RecordIds(st: Stats, ns: seq<TreeNode>)
    ensures Record(st, ns).all == st.all + Ids(ns)
  {
    if ns != [] {
      RecordIds(st, ns[..|ns| - 1]);
    }
  }

  /** Recording `ns` adds one count per node to each histogram, so both gain `|ns|`; the
      fan-out sum gains the total number of children; and one leaf id is appended per
      node without children, which the count of fan-out 0 matches. */
  lemma {:induction false} RecordTotals(st: Stats, ns: seq<TreeNode>)
    requires st.levels.Valid() && st.fanouts.Valid()
    ensures Total(Record(st, ns).levels, false) == Total(st.levels, false) + |ns|
    ensures Total(Record(st, ns).fanouts, false) == Total(st.fanouts, false) + |ns|
    ensures Total(Record(st, ns).fanouts, true) == Total(st.fanouts, true) + ChildCount(ns)
    ensures |Record(st, ns).leaves| == |st.leaves| + LeafCount(ns)
    ensures Record(st, ns).fanouts.Get(0) == st.fanouts.Get(0) + LeafCount(ns)
  {
    if ns != [] {
      var init, n := ns[..|ns| - 1], ns[|ns| - 1];
      var p := Record(st, init);
      RecordTotals(st, init);
      RecordValid(st, init);
      BumpTotal(p.levels, n.level, false);
      BumpTotal(p.fanouts, |n.children|, false);
      BumpTotal(p.fanouts, |n.children|, true);
    }
  }

  /** Every node of a tree but the root is the child of exactly one node: a tree of `n`
      nodes has `n - 1` children in all. */
  lemma {:induction false} ChildCountTree(t: TreeNode)
    ensures ChildCount(PreOrder(t)) == |PreOrder(t)| - 1
    decreases t, 1
  {
    ChildCountConcat([t], Forest(t.children));
    assert [t][..0] == [];
    ChildCountForest(t.children);
  }

  lemma {:induction false} ChildCountForest(cs: seq<TreeNode>)
    ensures ChildCount(Forest(cs)) == |Forest(cs)| - |cs|
    decreases cs, 0
  {
    if cs != [] {
      var init, c := cs[..|cs| - 1], cs[|cs| - 1];
      ChildCountForest(init);
      ChildCountTree(c);
      ChildCountConcat(Forest(init), PreOrder(c));
    }
  }

  lemma {:induction false} ChildCountConcat(a: seq<TreeNode>, b: seq<TreeNode>)
    ensures ChildCount(a + b) == ChildCount(a) + ChildCount(b)
    decreases |b|
  {
    if b == [] {
      assert a + b == a;
    } else {
      assert (a + b)[..|a + b| - 1] == a + b[..|b| - 1];
      ChildCountConcat(a, b[..|b| - 1]);
    }
  }

  /** The largest key of a non-empty key list. */
  function MaxKey(keys: seq<int>): (r: int)
    requires keys != []
    ensures r in keys
    ensures forall k :: 0 <= k < |keys| ==> keys[k] <= r
  {
    if |keys| == 1 then keys[0]
    else
      var m := MaxKey(keys[..|keys| - 1]);
      if keys[|keys| - 1] > m then keys[|keys| - 1] else m
  }

  class TreeStatistics {
    const root: TreeNode
    var levelDistribution: Histogram
    var fanoutDistribution: Histogram
    var leafNodes: seq<ProcessId>
    var allNodes: seq<ProcessId>

    function Current(): Stats
      reads this
    {
      Stats(levelDistribution, fanoutDistribution, leafNodes, allNodes)
    }

    constructor(root: TreeNode)
      ensures this.root == root && Current() == Start
    {
      this.root := root;
      levelDistribution := Histogram([], map[]);
      fanoutDistribution := Histogram([], map[]);
      leafNodes := [];
      allNodes := [];
    }

    /** `analyze`: record the whole tree. */
    method Analyze()
      modifies this
      ensures Current() == Record(old(Current()), PreOrder(root))
    {
      TraverseTree(root);
    }

    /** `_traverse_tree`: record `node`, then each child's subtree in order; the result is
        recording the subtree's nodes in pre-order. */
    method TraverseTree(node: TreeNode)
      modifies this
      ensures Current() == Record(old(Current()), PreOrder(node))
      decreases node
    {
      allNodes := allNodes + [node.processId];
      levelDistribution := levelDistribution.Bump(node.level);
      var fanout := |node.children|;
      fanoutDistribution := fanoutDistribution.Bump(fanout);
      if fanout == 0 {
        leafNodes := leafNodes + [node.processId];
      }
      assert Current() == Visit(old(Current()), node);
      assert Current() == Record(old(Current()), [node] + Forest(node.children[..0])) by {
        assert [node][..0] == [] && node.children[..0] == [];
        assert [node] + Forest([]) == [node];
      }
      for i := 0 to |node.children|
        invariant Current() == Record(old(Current()), [node] + Forest(node.children[..i]))
      {
        RecordChild(old(Current()), node, i);
        TraverseTree(node.children[i]);
      }
      RecordChildren(old(Current()), node);
    }

    /** `get_max_depth`: 0 when no level was recorded, otherwise the largest one. */
    function GetMaxDepth(): (r: int)
      requires levelDistribution.Valid()
      reads this
      ensures levelDistribution.counts.Keys == {} ==> r == 0
      ensures levelDistribution.counts.Keys != {} ==> r in levelDistribution.counts
      ensures forall k :: k in levelDistribution.counts ==> k <= r
    {
      LargestKey(levelDistribution)
    }

    /** `get_avg_fanout` as written: the fan-out sum over the recorded ids that do not
        recur among the leaf ids (`AvgFanout` is the average the report means). */
    function GetAvgFanout(): (r: real)
      reads this
      ensures fanoutDistribution.Valid() && Total(fanoutDistribution, true) == 0 ==> r == 0.0
    {
      AvgFanoutAsWritten(Current())
    }

    /** `find_longest_path`: the node's id followed by the longest path of a child, the
        first such child winning a tie. */
    static method FindLongestPath(node: TreeNode) returns (path: seq<ProcessId>)
      ensures path == CriticalPath(node)
      decreases node
    {
      if node.children == [] {
        return [node.processId];
      }
      var longest: seq<ProcessId> := [];
      for i := 0 to |node.children|
        invariant i == 0 ==> longest == []
        invariant i > 0 ==> longest == CriticalPath(node.children[Deepest(node.children[..i])])
      {
        var childPath := FindLongestPath(node.children[i]);
        LongestStep(node.children, i, longest);
        if |childPath| > |longest| {
          longest := childPath;
        }
      }
      assert node.children[..|node.children|] == node.children;
      path := [node.processId] + longest;
    }

    /** `get_critical_path` */
    method GetCriticalPath() returns (path: seq<ProcessId>)
      ensures path == CriticalPath(root)
    {
      path := FindLongestPath(root);
    }
  }

  /** The largest key of a histogram, 0 for an empty one (a well-formed histogram has
      keys exactly when its insertion order is non-empty). */
  function LargestKey(h: Histogram): (r: int)
    requires h.Valid()
    ensures h.counts.Keys == {} ==> r == 0
    ensures h.counts.Keys != {} ==> r in h.counts
    ensures forall k :: k in h.counts ==> k <= r
  {
    if h.order == [] then
      assert forall k :: k !in h.counts;
      0
    else
      assert h.order[0] in h.order;
      var r := MaxKey(h.order);
      assert forall k :: k in h.counts ==> k <= r by {
        forall k | k in h.counts ensures k <= r {
          assert k in h.order;
          var i :| 0 <= i < |h.order| && h.order[i] == k;
        }
      }
      r
  }

  /** `get_avg_fanout` as written: the fan-out sum divided by the number of recorded ids
      that do not also occur among the leaf ids. */
  function AvgFanoutAsWritten(st: Stats): real
  {
    var nonLeaf := NotIn(st.all, st.leaves);
    Ratio(Total(st.fanouts, true), |nonLeaf|)
  }

  /** `a / b` as a float, 0.0 when `b` is 0. */
  function Ratio(a: int, b: int): real
  {
    if b == 0 then 0.0 else a as real / b as real
  }

  /** The average fan-out of the nodes with children, as the report means it: the
      fan-out sum divided by the number of recorded nodes that are not leaves. */
  function AvgFanout(st: Stats): real
  {
    if |st.all| <= |st.leaves| then 0.0 else Ratio(Total(st.fanouts, true), |st.all| - |st.leaves|)
  }

  /** The ids of `all` that do not occur in `leaves`, in order. */
  function NotIn(all: seq<ProcessId>, leaves: seq<ProcessId>): (r: seq<ProcessId>)
    ensures |r| <= |all|
  {
    if all == [] then []
    else NotIn(all[..|all| - 1], leaves) + (if all[|all| - 1] in leaves then [] else [all[|all| - 1]])
  }

  /** The position of the first subtree of largest height. */
  function Deepest(cs: seq<TreeNode>): (r: nat)
    requires cs != []
    ensures r < |cs|
    ensures Height(cs[r]) == MaxHeight(cs)
    ensures forall j :: 0 <= j < |cs| ==> Height(cs[j]) <= Height(cs[r])
    ensures forall j :: 0 <= j < r ==> Height(cs[j]) < Height(cs[r])
  {
    if |cs| == 1 then 0
    else
      var m := Deepest(cs[..|cs| - 1]);
      if Height(cs[|cs| - 1]) > Height(cs[m]) then |cs| - 1 else m
  }

  /** The path `find_longest_path` returns. */
  function CriticalPath(t: TreeNode): seq<ProcessId>
    decreases t
  {
    if t.children == [] then [t.processId]
    else [t.processId] + CriticalPath(t.children[Deepest(t.children)])
  }

  /** One round of the loop of `find_longest_path`: a child's path replaces the longest
      so far exactly when it is strictly longer, which keeps the first deepest child. */
  lemma LongestStep(cs: seq<TreeNode>, i: nat, longest: seq<ProcessId>)
    requires i < |cs|
    requires i == 0 ==> longest == []
    requires i > 0 ==> longest == CriticalPath(cs[Deepest(cs[..i])])
    ensures CriticalPath(cs[Deepest(cs[..i + 1])]) == if |CriticalPath(cs[i])| > |longest| then CriticalPath(cs[i]) else longest
  {
    assert cs[..i + 1][..i] == cs[..i];
    assert cs[..i + 1][i] == cs[i];
    CriticalPathLength(cs[i]);
    if i > 0 {
      var m := Deepest(cs[..i]);
      CriticalPathLength(cs[m]);
      assert cs[..i][m] == cs[m];
      assert Deepest(cs[..i + 1]) == if Height(cs[i]) > Height(cs[m]) then i else m;
    } else {
      assert Deepest(cs[..i + 1]) == 0;
    }
  }

  lemma {:induction false} CriticalPathLength(t: TreeNode)
    ensures |CriticalPath(t)| == Height(t) + 1
    decreases t
  {
    if t.children != [] {
      CriticalPathLength(t.children[Deepest(t.children)]);
    }
  }

  /** `p` is a downward path of `t` from its root to a leaf. */
  predicate IsPath(t: TreeNode, p: seq<ProcessId>)
    decreases t
  {
    && p != [] && p[0] == t.processId
    && (t.children == [] ==> |p| == 1)
    && (t.children != [] ==> exists k :: 0 <= k < |t.children| && IsPath(t.children[k], p[1..]))
  }

  /** The critical path runs from the root, child by child, to a leaf, and is as long as
      the tree is high plus one: no downward path is longer. */
  lemma {:induction false} CriticalPathSpec(t: TreeNode)
    ensures IsPath(t, CriticalPath(t))
    ensures |CriticalPath(t)| == Height(t) + 1
    decreases t
  {
    CriticalPathLength(t);
    if t.children != [] {
      var k := Deepest(t.children);
      CriticalPathSpec(t.children[k]);
      assert CriticalPath(t)[1..] == CriticalPath(t.children[k]);
    }
  }

  /** No downward path from the root to a leaf is longer than the critical path. */
  lemma {:induction false} PathLength(t: TreeNode, p: seq<ProcessId>)
    requires IsPath(t, p)
    ensures |p| <= Height(t) + 1
    decreases t
  {
    if t.children != [] {
      var k :| 0 <= k < |t.children| && IsPath(t.children[k], p[1..]);
      PathLength(t.children[k], p[1..]);
      var d := Deepest(t.children);
      assert Height(t.children[k]) <= Height(t.children[d]) == MaxHeight(t.children);
    }
  }

  // ---------------------------------------------------------------------------
  // The statistics of a whole tree

  /** After `analyze`: `all_nodes` lists the tree's ids in pre-order; each histogram sums
      to the number of nodes; the fan-out sum is the number of nodes less one; there is
      one leaf id per childless node, as many as the count of fan-out 0. */
  lemma AnalyzeSpec(t: TreeNode)
    ensures var r := Record(Start, PreOrder(t));
      && r.all == PreOrderIds(t)
      && Total(r.levels, false) == |r.all| && Total(r.fanouts, false) == |r.all|
      && Total(r.fanouts, true) == |r.all| - 1
      && |r.leaves| == r.fanouts.Get(0) == LeafCount(PreOrder(t))
  {
    RecordIds(Start, PreOrder(t));
    RecordTotals(Start, PreOrder(t));
    ChildCountTree(t);
  }

  /** The nodes of `ns` without children, in order. */
  function LeafNodes(ns: seq<TreeNode>): seq<TreeNode>
  {
    if ns == [] then []
    else LeafNodes(ns[..|ns| - 1]) + (if ns[|ns| - 1].children == [] then [ns[|ns| - 1]] else [])
  }

  /** Exactly the childless nodes are kept. */
  lemma {:induction false} LeafNodesSpec(ns: seq<TreeNode>)
    ensures forall n :: n in LeafNodes(ns) <==> n in ns && n.children == []
  {
    if ns != [] {
      LeafNodesSpec(ns[..|ns| - 1]);
      assert ns == ns[..|ns| - 1] + [ns[|ns| - 1]];
    }
  }

  /** Recording appends the id of every childless node, in order. */
  lemma {:induction false} RecordLeaves(st: Stats, ns: seq<TreeNode>)
    ensures Record(st, ns).leaves == st.leaves + Ids(LeafNodes(ns))
  {
    if ns != [] {
      var init, n := ns[..|ns| - 1], ns[|ns| - 1];
      RecordLeaves(st, init);
      if n.children == [] {
        var ls := LeafNodes(init) + [n];
        assert ls[..|ls| - 1] == LeafNodes(init);
        assert Ids(ls) == Ids(LeafNodes(init)) + [n.processId];
      } else {
        assert LeafNodes(ns) == LeafNodes(init);
      }
    }
  }

  /** After `analyze`, `leaf_nodes` lists the ids of exactly the childless nodes of the
      tree, in pre-order. */
  lemma AnalyzeLeaves(t: TreeNode)
    ensures Record(Start, PreOrder(t)).leaves == Ids(LeafNodes(PreOrder(t)))
    ensures forall n :: n in LeafNodes(PreOrder(t)) <==> n in PreOrder(t) && n.children == []
  {
    RecordLeaves(Start, PreOrder(t));
    LeafNodesSpec(PreOrder(t));
  }

  /** The levels of `ns`, in order. */
  function Levels(ns: seq<TreeNode>): seq<int>
  {
    if ns == [] then [] else Levels(ns[..|ns| - 1]) + [ns[|ns| - 1].level]
  }

  lemma {:induction false} LevelsAppend(a: seq<TreeNode>, b: seq<TreeNode>)
    ensures Levels(a + b) == Levels(a) + Levels(b)
    decreases |b|
  {
    if b == [] {
      assert a + b == a;
    } else {
      assert (a + b)[..|a + b| - 1] == a + b[..|b| - 1];
      LevelsAppend(a, b[..|b| - 1]);
    }
  }

  /** The level histogram has exactly the levels of the recorded nodes as keys. */
  lemma {:induction false} RecordLevelKeys(st: Stats, ns: seq<TreeNode>)
    ensures forall k :: k in Record(st, ns).levels.counts <==> k in st.levels.counts || k in Levels(ns)
  {
    if ns != [] {
      RecordLevelKeys(st, ns[..|ns| - 1]);
    }
  }

  /** In a tree whose levels rise by one from parent to child, the deepest level is the
      root's level plus the height, and some node sits at it. */
  lemma DeepestLevel(t: TreeNode)
    requires LevelsOk(t)
    ensures forall x :: x in Levels(PreOrder(t)) ==> x <= t.level + Height(t)
    ensures t.level + Height(t) in Levels(PreOrder(t))
  {
    LevelsBound(t);
    LevelsReach(t);
  }

  /** No node of the tree sits below the root's level plus the height. */
  lemma {:induction false} LevelsBound(t: TreeNode)
    requires LevelsOk(t)
    ensures forall x :: x in Levels(PreOrder(t)) ==> x <= t.level + Height(t)
    decreases t, 1
  {
    LevelsAppend([t], Forest(t.children));
    assert Levels([t]) == [t.level] by {
      assert [t][..0] == [];
    }
    LevelsBoundForest(t.children, t.level + 1);
  }

  lemma {:induction false} LevelsBoundForest(cs: seq<TreeNode>, level: int)
    requires forall k :: 0 <= k < |cs| ==> cs[k].level == level && LevelsOk(cs[k])
    ensures forall x :: x in Levels(Forest(cs)) ==> x <= level + MaxHeight(cs)
    decreases cs, 0
  {
    if cs != [] {
      var init, c := cs[..|cs| - 1], cs[|cs| - 1];
      assert c.level == level && LevelsOk(c);
      LevelsBound(c);
      assert Forest(cs) == Forest(init) + PreOrder(c);
      LevelsAppend(Forest(init), PreOrder(c));
      assert forall k :: 0 <= k < |init| ==> init[k] == cs[k];
      LevelsBoundForest(init, level);
    }
  }

  /** Some node of the tree sits at the root's level plus the height. */
  lemma {:induction false} LevelsReach(t: TreeNode)
    requires LevelsOk(t)
    ensures t.level + Height(t) in Levels(PreOrder(t))
    decreases t, 1
  {
    LevelsAppend([t], Forest(t.children));
    assert Levels([t]) == [t.level] by {
      assert [t][..0] == [];
    }
    if t.children != [] {
      LevelsReachForest(t.children, t.level + 1);
    }
  }

  lemma {:induction false} LevelsReachForest(cs: seq<TreeNode>, level: int)
    requires cs != []
    requires forall k :: 0 <= k < |cs| ==> cs[k].level == level && LevelsOk(cs[k])
    ensures level + MaxHeight(cs) in Levels(Forest(cs))
    decreases cs, 0
  {
    var init, c := cs[..|cs| - 1], cs[|cs| - 1];
    assert Forest(cs) == Forest(init) + PreOrder(c);
    LevelsAppend(Forest(init), PreOrder(c));
    if init == [] || Height(c) > MaxHeight(init) {
      assert c.level == level && LevelsOk(c);
      LevelsReach(c);
    } else {
      assert forall k :: 0 <= k < |init| ==> init[k] == cs[k];
      LevelsReachForest(init, level);
    }
  }

  /** `get_max_depth` after `analyze` agrees with the builder's `_get_max_depth` from the
      root's level: the root's level plus the tree's height. */
  lemma MaxDepthSpec(t: TreeNode)
    requires LevelsOk(t)
    ensures Record(Start, PreOrder(t)).levels.Valid()
    ensures LargestKey(Record(Start, PreOrder(t)).levels) == t.level + Height(t)
  {
    var h := Record(Start, PreOrder(t)).levels;
    RecordValid(Start, PreOrder(t));
    RecordLevelKeys(Start, PreOrder(t));
    DeepestLevel(t);
    assert t.level + Height(t) in h.counts;
  }

  /** The corrected average fan-out of a tree: the children of all nodes, `n - 1` for `n`
      nodes, shared among the nodes that have children; 0.0 for a lone root. */
  lemma AvgFanoutSpec(t: TreeNode)
    ensures AvgFanout(Record(Start, PreOrder(t))) == Ratio(|PreOrder(t)| - 1, |PreOrder(t)| - LeafCount(PreOrder(t)))
  {
    AnalyzeSpec(t);
    LeafCountBound(PreOrder(t));
    AvgFanoutValue(Record(Start, PreOrder(t)), |PreOrder(t)|, LeafCount(PreOrder(t)), |PreOrder(t)| - 1);
  }

  /** The corrected average in terms of the recorded counts. */
  lemma AvgFanoutValue(st: Stats, n: int, leaves: int, total: int)
    requires |st.all| == n && |st.leaves| == leaves <= n && Total(st.fanouts, true) == total
    ensures AvgFanout(st) == Ratio(total, n - leaves)
  {
  }

  /** A tree has a node with children exactly when its root has children. */
  lemma NonLeafNodes(t: TreeNode)
    ensures t.children == [] <==> LeafCount(PreOrder(t)) == |PreOrder(t)|
  {
    LeafCountBound(PreOrder(t));
    LeafCountConcat([t], Forest(t.children));
    assert [t][..0] == [];
    LeafCountBound(Forest(t.children));
    if t.children == [] {
      assert Forest(t.children) == [];
    }
  }

  lemma {:induction false} LeafCountBound(ns: seq<TreeNode>)
    ensures LeafCount(ns) <= |ns|
  {
    if ns != [] {
      LeafCountBound(ns[..|ns| - 1]);
    }
  }

  lemma {:induction false} LeafCountConcat(a: seq<TreeNode>, b: seq<TreeNode>)
    ensures LeafCount(a + b) == LeafCount(a) + LeafCount(b)
    decreases |b|
  {
    if b == [] {
      assert a + b == a;
    } else {
      assert (a + b)[..|a + b| - 1] == a + b[..|b| - 1];
      LeafCountConcat(a, b[..|b| - 1]);
    }
  }

  /** The tree the builder makes for `A` consuming `f` from `B` and `B` consuming `g`
      from `A`: the second `A` is a cycle leaf. */
  function CycleTree(): TreeNode
  {
    TreeNode("A", None, [], 0, [TreeNode("B", Some("f"), [], 1, [TreeNode("A", Some("g"), [], 2, [])])])
  }

  /** A root `A` whose child `B` leads back to `A`, which the builder leaves as a cycle
      leaf: the ids recorded are `A, B, A` and the only leaf id is `A`, so the as-written
      average divides the two children by one id and gets 2.0, while the two nodes with
      children have one child each. */
  lemma AvgFanoutCountsIds()
    ensures AvgFanoutAsWritten(Record(Start, PreOrder(CycleTree()))) == 2.0
    ensures AvgFanout(Record(Start, PreOrder(CycleTree()))) == 1.0
  {
    CycleTreeRecord();
    CycleTreeFanouts();
    NotInCycle();
    AvgFanoutValue(Record(Start, PreOrder(CycleTree())), 3, 1, 2);
    assert Ratio(2, 1) == 2.0 && Ratio(2, 2) == 1.0;
  }

  /** The ids and leaf ids the analysis of the cycle tree records. */
  lemma CycleTreeRecord()
    ensures Record(Start, PreOrder(CycleTree())).all == ["A", "B", "A"]
    ensures Record(Start, PreOrder(CycleTree())).leaves == ["A"]
  {
    var t := CycleTree();
    var b := t.children[0];
    var leaf := b.children[0];
    assert PreOrder(leaf) == [leaf] by {
      assert Forest([]) == [];
    }
    assert Forest([leaf]) == [leaf] by {
      assert [leaf][..0] == [];
    }
    assert PreOrder(b) == [b, leaf];
    assert Forest([b]) == [b, leaf] by {
      assert [b][..0] == [];
    }
    var ns := PreOrder(t);
    assert ns == [t, b, leaf];
    var r1, r2 := Record(Start, [t]), Record(Start, [t, b]);
    assert r1 == Visit(Start, t) by {
      assert [t][..0] == [];
      assert Record(Start, []) == Start;
    }
    assert r2 == Visit(r1, b) by {
      assert [t, b][..1] == [t];
    }
    assert Record(Start, ns) == Visit(r2, leaf) by {
      assert ns[..2] == [t, b];
    }
  }

  /** The cycle tree has three nodes, hence two children in all. */
  lemma CycleTreeFanouts()
    ensures Total(Record(Start, PreOrder(CycleTree())).fanouts, true) == 2
  {
    CycleTreeRecord();
    AnalyzeSpec(CycleTree());
  }

  lemma NotInCycle()
    ensures NotIn(["A", "B", "A"], ["A"]) == ["B"]
  {
    var all := ["A", "B", "A"];
    assert all[..2] == ["A", "B"] && ["A", "B"][..1] == ["A"] && ["A"][..0] == [];
    assert "B" !in ["A"];
    assert NotIn(["A"], ["A"]) == [];
    assert NotIn(["A", "B"], ["A"]) == ["B"];
  }

  /** A root `A` whose only upstream exchange points back to `A` itself: the child `A` is
      a cycle leaf, the ids recorded are `A, A` and the only leaf id is `A`, so the
      as-written divisor drops both ids and the average falls back to 0.0, while the one
      node with children has one child. */
  lemma AvgFanoutSelfLoop()
    ensures AvgFanoutAsWritten(Record(Start, PreOrder(SelfLoopTree()))) == 0.0
    ensures AvgFanout(Record(Start, PreOrder(SelfLoopTree()))) == 1.0
  {
    SelfLoopRecord();
    AnalyzeSpec(SelfLoopTree());
    var all: seq<ProcessId> := ["A", "A"];
    assert all[..1] == ["A"] && ["A"][..0] == [];
    assert NotIn(all, ["A"]) == [];
    AvgFanoutValue(Record(Start, PreOrder(SelfLoopTree())), 2, 1, 1);
    assert Ratio(1, 1) == 1.0;
  }

  /** The tree the builder makes for `A` consuming `f` from `A`. */
  function SelfLoopTree(): TreeNode
  {
    TreeNode("A", None, [], 0, [TreeNode("A", Some("f"), [], 1, [])])
  }

  /** The ids and leaf ids the analysis of the self-loop tree records. */
  lemma SelfLoopRecord()
    ensures Record(Start, PreOrder(SelfLoopTree())).all == ["A", "A"]
    ensures Record(Start, PreOrder(SelfLoopTree())).leaves == ["A"]
  {
    var t := SelfLoopTree();
    var leaf := t.children[0];
    assert PreOrder(leaf) == [leaf] by {
      assert Forest([]) == [];
    }
    assert Forest([leaf]) == [leaf] by {
      assert [leaf][..0] == [];
    }
    var ns := PreOrder(t);
    assert ns == [t, leaf];
    var r1 := Record(Start, [t]);
    assert r1 == Visit(Start, t) by {
      assert [t][..0] == [];
      assert Record(Start, []) == Start;
    }
    assert Record(Start, ns) == Visit(r1, leaf) by {
      assert ns[..1] == [t];
    }
  }

  /** On a tree in which no id occurs twice (no process reached a second time, so no
      cycle leaf), the average as written is the corrected average. */
  lemma AvgFanoutAgrees(t: TreeNode)
    requires Distinct(PreOrderIds(t))
    ensures AvgFanoutAsWritten(Record(Start, PreOrder(t))) == AvgFanout(Record(Start, PreOrder(t)))
  {
    var ns := PreOrder(t);
    var st := Record(Start, ns);
    AnalyzeSpec(t);
    AnalyzeLeaves(t);
    DistinctNodes(ns);
    LeafIds(ns);
    NotInNodes(ns, Ids(LeafNodes(ns)));
    assert |NotIn(st.all, st.leaves)| == |st.all| - |st.leaves|;
  }

  lemma DistinctNodes(ns: seq<TreeNode>)
    requires Distinct(Ids(ns))
    ensures forall i, j :: 0 <= i < j < |ns| ==> ns[i].processId != ns[j].processId
  {
    IdsIndex(ns);
  }

  /** With no id repeated, a node's id is a leaf id exactly when the node is childless. */
  lemma LeafIds(ns: seq<TreeNode>)
    requires forall i, j :: 0 <= i < j < |ns| ==> ns[i].processId != ns[j].processId
    ensures forall i :: 0 <= i < |ns| ==> (ns[i].processId in Ids(LeafNodes(ns)) <==> ns[i].children == [])
  {
    forall i | 0 <= i < |ns|
      ensures ns[i].processId in Ids(LeafNodes(ns)) <==> ns[i].children == []
    {
      LeafIdAt(ns, i);
    }
  }

  lemma LeafIdAt(ns: seq<TreeNode>, i: nat)
    requires forall i, j :: 0 <= i < j < |ns| ==> ns[i].processId != ns[j].processId
    requires i < |ns|
    ensures ns[i].processId in Ids(LeafNodes(ns)) <==> ns[i].children == []
  {
    var leafNodes := LeafNodes(ns);
    var leaves := Ids(leafNodes);
    IdsIndex(leafNodes);
    LeafNodesSpec(ns);
    if ns[i].children == [] {
      assert ns[i] in leafNodes;
      var k :| 0 <= k < |leafNodes| && leafNodes[k] == ns[i];
      assert leaves[k] == ns[i].processId;
    }
    if ns[i].processId in leaves {
      var k :| 0 <= k < |leaves| && leaves[k] == ns[i].processId;
      var m := leafNodes[k];
      assert m in ns && m.children == [];
      var j :| 0 <= j < |ns| && ns[j] == m;
      assert i == j;
    }
  }

  /** When a node's id is among `leaves` exactly when the node is childless, the ids the
      as-written divisor keeps are one per node with children. */
  lemma {:induction false} NotInNodes(ns: seq<TreeNode>, leaves: seq<ProcessId>)
    requires forall i :: 0 <= i < |ns| ==> (ns[i].processId in leaves <==> ns[i].children == [])
    ensures |NotIn(Ids(ns), leaves)| == |ns| - LeafCount(ns)
  {
    if ns != [] {
      var init := ns[..|ns| - 1];
      NotInNodes(init, leaves);
      LeafCountBound(init);
      var all := Ids(ns);
      assert all[..|all| - 1] == Ids(init);
    }
  }
}
