/** The compact text exporter: a process tree written one block of lines per node into a
    caller-owned line buffer, indented two spaces per level. */
module CompactExport {
  import opened Common
  import opened Store
  import opened Names
  import opened ProcessTree

  /** `mode == "skeleton"`, or any other mode string, which writes the full-LCI form. */
  datatype Mode = Skeleton | FullLci

  /** The names the exporter prints: a process name and a flow name for each id. */
  datatype Naming = Naming(process: ProcessId -> string, flow: FlowId -> string)

  /** The names the tree builder resolves (`get_process_name`, `get_flow_name`). */
  function TreeNaming(s: Store): Naming
  {
    Naming(p => TreeProcessName(s, p), f => FlowName(s, f))
  }

  ghost predicate Resolves(s: Store, nm: Naming)
  {
    && (forall p :: nm.process(p) == TreeProcessName(s, p))
    && (forall f :: nm.flow(f) == FlowName(s, f))
  }

  lemma TreeNamingResolves(s: Store)
    ensures Resolves(s, TreeNaming(s))
  {
  }

  /** `"  " * level`: Python repeats a string zero times for a non-positive count. */
  function Spaces(level: int): (r: string)
    ensures level > 0 ==> r == Indent(level)
    ensures level <= 0 ==> r == ""
  {
    if level > 0 then Indent(level) else ""
  }

  /** `id | name`, or the bare id when names are left out. */
  function Named(id: string, name: string, names: bool): string
  {
    if names then id + " | " + name else id
  }

  /** The line of one flow in full-LCI mode. */
  function FlowLine(nm: Naming, level: int, fid: FlowId, names: bool): string
  {
    Spaces(level) + "  << " + Named(fid, nm.flow(fid), names)
  }

  function FlowLines(nm: Naming, level: int, fs: seq<FlowId>, names: bool): seq<string>
  {
    if fs == [] then [] else FlowLines(nm, level, fs[..|fs| - 1], names) + [FlowLine(nm, level, fs[|fs| - 1], names)]
  }

  /** One line per flow, in the order of the flows. */
  lemma {:induction false} FlowLinesIndex(nm: Naming, level: int, fs: seq<FlowId>, names: bool)
    ensures |FlowLines(nm, level, fs, names)| == |fs|
    ensures forall k :: 0 <= k < |fs| ==> FlowLines(nm, level, fs, names)[k] == FlowLine(nm, level, fs[k], names)
  {
    if fs != [] {
      FlowLinesIndex(nm, level, fs[..|fs| - 1], names);
    }
  }

  /** One more flow's line, after whatever `prefix` already held. */
  lemma FlowLinesStep(prefix: seq<string>, nm: Naming, level: int, fs: seq<FlowId>, k: nat, names: bool)
    requires k < |fs|
    ensures prefix + FlowLines(nm, level, fs[..k + 1], names) == prefix + FlowLines(nm, level, fs[..k], names) + [FlowLine(nm, level, fs[k], names)]
  {
    assert fs[..k + 1][..k] == fs[..k];
    LinesAssoc(prefix, FlowLines(nm, level, fs[..k], names), [FlowLine(nm, level, fs[k], names)]);
  }

  /** The lines `_write_compact_node` writes for `n` itself. Skeleton: the node's line,
      continued by ` << ` and its flow when it has one. Full LCI: the node's line, then one
      line per flow of `flows`, or for the single `flow_id` when `flows` is empty. */
  function NodeLines(nm: Naming, n: TreeNode, level: int, mode: Mode, names: bool): seq<string>
  {
    var head := Spaces(level) + Named(n.processId, nm.process(n.processId), names);
    match mode
    case Skeleton =>
      if Truthy(n.flowId) then [head + " << " + Named(n.flowId.value, nm.flow(n.flowId.value), names)] else [head]
    case FullLci =>
      [head] + (if n.flows != [] then FlowLines(nm, level, n.flows, names)
                else if Truthy(n.flowId) then [FlowLine(nm, level, n.flowId.value, names)]
                else [])
  }

  /** Everything written for the subtree of `n` at `level`: its own lines, then each
      child's subtree at `level + 1`. */
  function CompactLines(nm: Naming, n: TreeNode, level: int, mode: Mode, names: bool): seq<string>
    decreases n, 1
  {
    NodeLines(nm, n, level, mode, names) + ChildLines(nm, n.children, level + 1, mode, names)
  }

  function ChildLines(nm: Naming, cs: seq<TreeNode>, level: int, mode: Mode, names: bool): seq<string>
    decreases cs, 0
  {
    if cs == [] then []
    else ChildLines(nm, cs[..|cs| - 1], level, mode, names) + CompactLines(nm, cs[|cs| - 1], level, mode, names)
  }

  /** A subtree's block is its node's lines then its children's, after whatever `prefix`
      already held. */
  lemma CompactLinesSplit(prefix: seq<string>, nm: Naming, n: TreeNode, level: int, mode: Mode, names: bool)
    ensures prefix + CompactLines(nm, n, level, mode, names) == prefix + NodeLines(nm, n, level, mode, names) + ChildLines(nm, n.children, level + 1, mode, names)
  {
  }

  /** One more child's block, after whatever `prefix` already held. */
  lemma ChildLinesStep(prefix: seq<string>, nm: Naming, cs: seq<TreeNode>, i: nat, level: int, mode: Mode, names: bool)
    requires i < |cs|
    ensures prefix + ChildLines(nm, cs[..i + 1], level, mode, names) == prefix + ChildLines(nm, cs[..i], level, mode, names) + CompactLines(nm, cs[i], level, mode, names)
  {
    assert cs[..i + 1][..i] == cs[..i];
    assert ChildLines(nm, cs[..i + 1], level, mode, names)
      == ChildLines(nm, cs[..i], level, mode, names) + CompactLines(nm, cs[i], level, mode, names);
    LinesAssoc(prefix, ChildLines(nm, cs[..i], level, mode, names), CompactLines(nm, cs[i], level, mode, names));
  }

  lemma LinesAssoc(a: seq<string>, b: seq<string>, c: seq<string>)
    ensures a + (b + c) == a + b + c
  {
  }

  /** The caller-owned `lines` list. */
  class LineBuffer {
    var lines: seq<string>

    constructor()
      ensures lines == []
    {
      lines := [];
    }

    method Append(line: string)
      modifies this
      ensures lines == old(lines) + [line]
    {
      lines := lines + [line];
    }
  }

  class CompactExporter {
    const builder: ProcessTreeBuilder

    constructor(builder: ProcessTreeBuilder)
      ensures this.builder == builder
    {
      this.builder := builder;
    }

    /** The exporter's own copy of `_get_max_depth`: `currentDepth` for a leaf,
        otherwise `currentDepth` plus the subtree's height, the same value as the tree
        builder's helper. */
    method MaxDepth(node: TreeNode, currentDepth: int) returns (r: int)
      ensures r == currentDepth + Height(node)
      ensures node.children == [] ==> r == currentDepth
      ensures r >= currentDepth
      decreases node
    {
      if node.children == [] {
        return currentDepth;
      }
      var maxChildDepth := currentDepth;
      for i := 0 to |node.children|
        invariant maxChildDepth == currentDepth + (if i == 0 then 0 else 1 + MaxHeight(node.children[..i]))
      {
        var childDepth := MaxDepth(node.children[i], currentDepth + 1);
        assert node.children[..i + 1][..i] == node.children[..i];
        maxChildDepth := if childDepth > maxChildDepth then childDepth else maxChildDepth;
      }
      assert node.children[..|node.children|] == node.children;
      r := maxChildDepth;
    }

    /** `_write_compact_node`: appends the subtree's lines to `buf`, looking names up
        through the tree builder's caches when they are included. */
    method WriteCompactNode(node: TreeNode, buf: LineBuffer, level: int, mode: Mode, includeNames: bool, ghost nm: Naming)
      requires builder.CachesValid() && Resolves(builder.store, nm)
      modifies buf, builder`processNames, builder`flowNames
      ensures buf.lines == old(buf.lines) + CompactLines(nm, node, level, mode, includeNames)
      ensures builder.CachesValid() && builder.CachesGrow()
      ensures builder.visited == old(builder.visited) && builder.fullLciEdges == old(builder.fullLciEdges)
      decreases node, 1
    {
      CompactLinesSplit(old(buf.lines), nm, node, level, mode, includeNames);
      WriteOwnLines(node, buf, level, mode, includeNames, nm);
      WriteChildren(node.children, buf, level + 1, mode, includeNames, nm);
    }

    /** The loop of `_write_compact_node` over the children, one level deeper. */
    method WriteChildren(cs: seq<TreeNode>, buf: LineBuffer, level: int, mode: Mode, includeNames: bool, ghost nm: Naming)
      requires builder.CachesValid() && Resolves(builder.store, nm)
      modifies buf, builder`processNames, builder`flowNames
      ensures buf.lines == old(buf.lines) + ChildLines(nm, cs, level, mode, includeNames)
      ensures builder.CachesValid() && builder.CachesGrow()
      decreases cs, 0
    {
      for i := 0 to |cs|
        invariant builder.CachesValid() && builder.CachesGrow()
        invariant buf.lines == old(buf.lines) + ChildLines(nm, cs[..i], level, mode, includeNames)
      {
        ChildLinesStep(old(buf.lines), nm, cs, i, level, mode, includeNames);
        ghost var pn, fn := builder.processNames, builder.flowNames;
        WriteCompactNode(cs[i], buf, level, mode, includeNames, nm);
        ExtendsTransitive(old(builder.processNames), pn, builder.processNames);
        ExtendsTransitive(old(builder.flowNames), fn, builder.flowNames);
      }
      assert cs[..|cs|] == cs;
    }

    /** The part of `_write_compact_node` before the recursion: the node's own lines. */
    method WriteOwnLines(node: TreeNode, buf: LineBuffer, level: int, mode: Mode, includeNames: bool, ghost nm: Naming)
      requires builder.CachesValid() && Resolves(builder.store, nm)
      modifies buf, builder`processNames, builder`flowNames
      ensures buf.lines == old(buf.lines) + NodeLines(nm, node, level, mode, includeNames)
      ensures builder.CachesValid() && builder.CachesGrow()
    {
      var indent := Spaces(level);
      var pLabel := ProcessLabel(node.processId, includeNames, nm);
      match mode {
        case Skeleton =>
          if Truthy(node.flowId) {
            var flowLabel := FlowLabel(node.flowId.value, includeNames, nm);
            buf.Append(indent + pLabel + " << " + flowLabel);
          } else {
            buf.Append(indent + pLabel);
          }
        case FullLci =>
          WriteFullLines(node, buf, level, indent + pLabel, includeNames, nm);
      }
    }

    /** Full-LCI mode: the node's line, then its flows, or its single flow id. */
    method WriteFullLines(node: TreeNode, buf: LineBuffer, level: int, head: string, includeNames: bool, ghost nm: Naming)
      requires builder.CachesValid() && Resolves(builder.store, nm)
      requires head == Spaces(level) + Named(node.processId, nm.process(node.processId), includeNames)
      modifies buf, builder`processNames, builder`flowNames
      ensures buf.lines == old(buf.lines) + NodeLines(nm, node, level, FullLci, includeNames)
      ensures builder.CachesValid() && builder.CachesGrow()
    {
      buf.Append(head);
      if node.flows != [] {
        WriteFlowLines(node.flows, buf, level, includeNames, nm);
      } else if Truthy(node.flowId) {
        var flowLabel := FlowLabel(node.flowId.value, includeNames, nm);
        buf.Append(Spaces(level) + "  << " + flowLabel);
      }
    }

    /** `process_id | process_name`, with the name looked up only when names are
        included, or the bare id. */
    method ProcessLabel(pid: ProcessId, includeNames: bool, ghost nm: Naming) returns (text: string)
      requires builder.CachesValid() && Resolves(builder.store, nm)
      modifies builder`processNames, builder`flowNames
      ensures text == Named(pid, nm.process(pid), includeNames)
      ensures builder.CachesValid() && builder.CachesGrow()
    {
      if includeNames {
        var name := builder.GetProcessName(pid);
        text := pid + " | " + name;
      } else {
        text := pid;
      }
    }

    /** `flow_id | flow_name`, or the bare flow id. */
    method FlowLabel(fid: FlowId, includeNames: bool, ghost nm: Naming) returns (text: string)
      requires builder.CachesValid() && Resolves(builder.store, nm)
      modifies builder`processNames, builder`flowNames
      ensures text == Named(fid, nm.flow(fid), includeNames)
      ensures builder.CachesValid() && builder.CachesGrow()
    {
      if includeNames {
        var name := builder.GetFlowName(fid);
        text := fid + " | " + name;
      } else {
        text := fid;
      }
    }

    /** The loop over `node.flows` in full-LCI mode: one line per flow, in order. */
    method WriteFlowLines(flows: seq<FlowId>, buf: LineBuffer, level: int, includeNames: bool, ghost nm: Naming)
      requires builder.CachesValid() && Resolves(builder.store, nm)
      modifies buf, builder`processNames, builder`flowNames
      ensures buf.lines == old(buf.lines) + FlowLines(nm, level, flows, includeNames)
      ensures builder.CachesValid() && builder.CachesGrow()
    {
      var indent := Spaces(level);
      for k := 0 to |flows|
        invariant builder.CachesValid() && builder.CachesGrow()
        invariant buf.lines == old(buf.lines) + FlowLines(nm, level, flows[..k], includeNames)
      {
        ghost var pn, fn := builder.processNames, builder.flowNames;
        var flowLabel := FlowLabel(flows[k], includeNames, nm);
        ExtendsTransitive(old(builder.processNames), pn, builder.processNames);
        ExtendsTransitive(old(builder.flowNames), fn, builder.flowNames);
        FlowLinesStep(old(buf.lines), nm, level, flows, k, includeNames);
        buf.Append(indent + "  << " + flowLabel);
      }
      assert flows[..|flows|] == flows;
    }
  }

  // ---------------------------------------------------------------------------
  // What the written lines satisfy

  /** The bare skeleton line: the indented id, followed by ` << ` and the flow id when the
      node has a (non-empty) flow. */
  lemma SkeletonIdOnly(nm: Naming, n: TreeNode, level: int)
    ensures NodeLines(nm, n, level, Skeleton, false)
      == [Spaces(level) + n.processId + (if Truthy(n.flowId) then " << " + n.flowId.value else "")]
  {
    var head := Spaces(level) + n.processId;
    if Truthy(n.flowId) {
      assert head + " << " + n.flowId.value == head + (" << " + n.flowId.value);
    } else {
      assert head + "" == head;
    }
  }

  /** Full-LCI mode writes the node's line and one line per flow, or one for the single
      flow id when there is no flow list. */
  lemma FullNodeLineCount(nm: Naming, n: TreeNode, level: int, names: bool)
    ensures |NodeLines(nm, n, level, FullLci, names)| == FullCount(n)
    ensures NodeLines(nm, n, level, FullLci, names)[0] == Spaces(level) + Named(n.processId, nm.process(n.processId), names)
  {
    FlowLinesIndex(nm, level, n.flows, names);
  }

  function FullCount(n: TreeNode): nat
  {
    1 + if n.flows != [] then |n.flows| else if Truthy(n.flowId) then 1 else 0
  }

  /** The number of full-LCI lines of every node of `ns`. */
  function FullCounts(ns: seq<TreeNode>): nat
  {
    if ns == [] then 0 else FullCounts(ns[..|ns| - 1]) + FullCount(ns[|ns| - 1])
  }

  lemma {:induction false} FullCountsAppend(a: seq<TreeNode>, b: seq<TreeNode>)
    ensures FullCounts(a + b) == FullCounts(a) + FullCounts(b)
    decreases |b|
  {
    if b == [] {
      assert a + b == a;
    } else {
      assert (a + b)[..|a + b| - 1] == a + b[..|b| - 1];
      FullCountsAppend(a, b[..|b| - 1]);
    }
  }

  /** In full-LCI mode the subtree takes the lines of all its nodes, and in skeleton mode
      exactly one line per node. */
  lemma {:induction false} LineCounts(nm: Naming, t: TreeNode, level: int, names: bool)
    ensures |CompactLines(nm, t, level, FullLci, names)| == FullCounts(PreOrder(t))
    ensures |CompactLines(nm, t, level, Skeleton, names)| == |PreOrder(t)|
    decreases t, 1
  {
    FullNodeLineCount(nm, t, level, names);
    ChildLineCounts(nm, t.children, level + 1, names);
    FullCountsAppend([t], Forest(t.children));
    assert [t][..0] == [];
  }

  lemma {:induction false} ChildLineCounts(nm: Naming, cs: seq<TreeNode>, level: int, names: bool)
    ensures |ChildLines(nm, cs, level, FullLci, names)| == FullCounts(Forest(cs))
    ensures |ChildLines(nm, cs, level, Skeleton, names)| == |Forest(cs)|
    decreases cs, 0
  {
    if cs != [] {
      var init, c := cs[..|cs| - 1], cs[|cs| - 1];
      ChildLineCounts(nm, init, level, names);
      LineCounts(nm, c, level, names);
      FullCountsAppend(Forest(init), PreOrder(c));
    }
  }

  /** The skeleton line of a node written at its own tree level. */
  function SkeletonLine(nm: Naming, n: TreeNode, names: bool): string
  {
    NodeLines(nm, n, n.level, Skeleton, names)[0]
  }

  function SkeletonLines(nm: Naming, ns: seq<TreeNode>, names: bool): (r: seq<string>)
    ensures |r| == |ns|
    ensures forall k :: 0 <= k < |ns| ==> r[k] == SkeletonLine(nm, ns[k], names)
  {
    if ns == [] then [] else SkeletonLines(nm, ns[..|ns| - 1], names) + [SkeletonLine(nm, ns[|ns| - 1], names)]
  }

  lemma {:induction false} SkeletonLinesAppend(nm: Naming, a: seq<TreeNode>, b: seq<TreeNode>, names: bool)
    ensures SkeletonLines(nm, a + b, names) == SkeletonLines(nm, a, names) + SkeletonLines(nm, b, names)
  {
    assert |SkeletonLines(nm, a + b, names)| == |a + b|;
  }

  /** A tree the builder made (levels rising by one from parent to child), written from
      its root's level, gives in skeleton mode one line per node in pre-order, each
      indented by that node's level. */
  lemma {:induction false} SkeletonPreOrder(nm: Naming, t: TreeNode, names: bool)
    requires LevelsOk(t)
    ensures CompactLines(nm, t, t.level, Skeleton, names) == SkeletonLines(nm, PreOrder(t), names)
    decreases t, 1
  {
    assert CompactLines(nm, t, t.level, Skeleton, names)
      == NodeLines(nm, t, t.level, Skeleton, names) + ChildLines(nm, t.children, t.level + 1, Skeleton, names);
    assert NodeLines(nm, t, t.level, Skeleton, names) == [SkeletonLine(nm, t, names)];
    SkeletonChildren(nm, t.children, t.level + 1, names);
    assert PreOrder(t) == [t] + Forest(t.children);
    SkeletonLinesAppend(nm, [t], Forest(t.children), names);
    assert SkeletonLines(nm, [t], names) == [SkeletonLine(nm, t, names)] by {
      assert [t][..0] == [];
    }
  }

  lemma {:induction false} SkeletonChildren(nm: Naming, cs: seq<TreeNode>, level: int, names: bool)
    requires forall k :: 0 <= k < |cs| ==> cs[k].level == level && LevelsOk(cs[k])
    ensures ChildLines(nm, cs, level, Skeleton, names) == SkeletonLines(nm, Forest(cs), names)
    decreases cs, 0
  {
    if cs != [] {
      var init, c := cs[..|cs| - 1], cs[|cs| - 1];
      SkeletonChildren(nm, init, level, names);
      SkeletonPreOrder(nm, c, names);
      SkeletonLinesAppend(nm, Forest(init), PreOrder(c), names);
    }
  }

  /** Every line written for a subtree at a non-negative level starts with that level's
      indentation: its own lines at `2 * level` spaces, its descendants' deeper. */
  lemma {:induction false} Indented(nm: Naming, t: TreeNode, level: nat, mode: Mode, names: bool)
    ensures forall k :: 0 <= k < |CompactLines(nm, t, level, mode, names)| ==> Indent(level) <= CompactLines(nm, t, level, mode, names)[k]
    decreases t, 1
  {
    OwnIndented(nm, t, level, mode, names);
    ChildIndented(nm, t.children, level + 1, mode, names);
    assert Indent(level + 1) == Indent(level) + "  ";
  }

  /** The node's own lines start with its level's indentation. */
  lemma OwnIndented(nm: Naming, n: TreeNode, level: nat, mode: Mode, names: bool)
    ensures forall k :: 0 <= k < |NodeLines(nm, n, level, mode, names)| ==> Indent(level) <= NodeLines(nm, n, level, mode, names)[k]
  {
    var ind := Spaces(level);
    assert ind == Indent(level);
    var head := ind + Named(n.processId, nm.process(n.processId), names);
    assert ind <= head;
    FlowLinesIndex(nm, level, n.flows, names);
    forall k | 0 <= k < |n.flows|
      ensures ind <= FlowLine(nm, level, n.flows[k], names)
    {
      PrefixOfConcat(ind, "  << ", Named(n.flows[k], nm.flow(n.flows[k]), names));
    }
    if Truthy(n.flowId) {
      PrefixOfConcat(ind, "  << ", Named(n.flowId.value, nm.flow(n.flowId.value), names));
      PrefixOfConcat(head, " << ", Named(n.flowId.value, nm.flow(n.flowId.value), names));
    }
  }

  lemma PrefixOfConcat(a: string, b: string, c: string)
    ensures a <= a + b + c
  {
    assert (a + b + c)[..|a|] == a;
  }

  lemma {:induction false} ChildIndented(nm: Naming, cs: seq<TreeNode>, level: nat, mode: Mode, names: bool)
    ensures forall k :: 0 <= k < |ChildLines(nm, cs, level, mode, names)| ==> Indent(level) <= ChildLines(nm, cs, level, mode, names)[k]
    decreases cs, 0
  {
    if cs != [] {
      var init, c := cs[..|cs| - 1], cs[|cs| - 1];
      ChildIndented(nm, init, level, mode, names);
      Indented(nm, c, level, mode, names);
    }
  }
}
