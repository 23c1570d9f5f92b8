/** The exhaustive upstream traversal: the tree node, the grouping of a process's
    upstream exchanges by provider, the traversal as a specification function, and the
    builder object whose recursive method performs it on its shared `visited` set. */
module ProcessTree {
  import opened Common
  import opened Store
  import Names

  /** A node of the process tree: the process, the flow it was reached by (none for the
      root), every flow of that edge in full-LCI mode, its level and its children. */
  datatype TreeNode = TreeNode(
    processId: ProcessId,
    flowId: Option<FlowId>,
    flows: seq<FlowId>,
    level: int,
    children: seq<TreeNode>)
  {
    /** `add_child`: append a child. */
    function AddChild(child: TreeNode): (r: TreeNode)
      ensures r.processId == processId && r.flowId == flowId && r.flows == flows && r.level == level
      ensures r.children == children + [child]
      ensures PreOrderIds(r) == PreOrderIds(this) + PreOrderIds(child)
    {
      PreOrderAddChild(this, child);
      this.(children := children + [child])
    }

    /** `add_flow`: record one more flow of the edge, ignoring empty ids and repeats. */
    function AddFlow(fid: FlowId): (r: TreeNode)
      ensures r.processId == processId && r.flowId == flowId && r.level == level && r.children == children
      ensures Distinct(flows) ==> Distinct(r.flows)
      ensures flows <= r.flows && |r.flows| <= |flows| + 1
      ensures forall x :: x in r.flows <==> x in flows || (x == fid && fid != "")
    {
      this.(flows := FlowsAfter(flows, fid))
    }
  }

  /** The flows list after one `add_flow(fid)`: `fid` is appended unless it is empty or already listed. */
  function FlowsAfter(flows: seq<FlowId>, fid: FlowId): (r: seq<FlowId>)
    ensures Distinct(flows) ==> Distinct(r)
    ensures flows <= r && |r| <= |flows| + 1
    ensures forall x :: x in r <==> x in flows || (x == fid && fid != "")
  {
    if fid != "" && fid !in flows then flows + [fid] else flows
  }

  /** The flows list after `add_flow` was called with each id of `fids` in turn. */
  function AddFlows(flows: seq<FlowId>, fids: seq<FlowId>): seq<FlowId>
  {
    if fids == [] then flows
    else FlowsAfter(AddFlows(flows, fids[..|fids| - 1]), fids[|fids| - 1])
  }

  // ---------------------------------------------------------------------------
  // Shape of a tree

  /** The nodes of a tree in pre-order: a node, then its children's subtrees in order. */
  function PreOrder(t: TreeNode): seq<TreeNode>
    decreases t
  {
    [t] + Forest(t.children)
  }

  function Forest(cs: seq<TreeNode>): seq<TreeNode>
    decreases cs
  {
    if cs == [] then [] else Forest(cs[..|cs| - 1]) + PreOrder(cs[|cs| - 1])
  }

  function Ids(ns: seq<TreeNode>): (r: seq<ProcessId>)
    ensures |r| == |ns|
  {
    if ns == [] then [] else Ids(ns[..|ns| - 1]) + [ns[|ns| - 1].processId]
  }

  function PreOrderIds(t: TreeNode): seq<ProcessId>
  {
    Ids(PreOrder(t))
  }

  /** `Ids` lists the id of every node, position by position. */
  lemma {:induction false} IdsIndex(ns: seq<TreeNode>)
    ensures forall k :: 0 <= k < |ns| ==> Ids(ns)[k] == ns[k].processId
  {
    if ns != [] {
      IdsIndex(ns[..|ns| - 1]);
    }
  }

  lemma {:induction false} IdsAppend(a: seq<TreeNode>, b: seq<TreeNode>)
    ensures Ids(a + b) == Ids(a) + Ids(b)
    decreases |b|
  {
    if b == [] {
      assert a + b == a;
    } else {
      var b0 := b[..|b| - 1];
      IdsAppend(a, b0);
      assert (a + b)[..|a + b| - 1] == a + b0;
    }
  }

  lemma ForestAppend(cs: seq<TreeNode>, c: TreeNode)
    ensures Forest(cs + [c]) == Forest(cs) + PreOrder(c)
  {
    assert (cs + [c])[..|cs|] == cs;
  }

  /** Appending a child appends its subtree to the pre-order of the parent. */
  lemma PreOrderAddChild(t: TreeNode, c: TreeNode)
    ensures PreOrderIds(t.(children := t.children + [c])) == PreOrderIds(t) + PreOrderIds(c)
  {
    var r := t.(children := t.children + [c]);
    var f, pc := Forest(t.children), PreOrder(c);
    assert PreOrder(r) == [r] + (f + pc) by {
      ForestAppend(t.children, c);
    }
    assert Ids([r] + (f + pc)) == Ids([t]) + Ids(f) + Ids(pc) by {
      IdsAppend([r], f + pc);
      IdsAppend(f, pc);
      assert [r][..0] == [] && [t][..0] == [];
    }
    assert Ids(PreOrder(t)) == Ids([t]) + Ids(f) by {
      IdsAppend([t], f);
    }
  }

  /** The number of edges on the longest downward path. */
  function Height(t: TreeNode): (h: nat)
    decreases t
  {
    if t.children == [] then 0 else 1 + MaxHeight(t.children)
  }

  /** The largest height among `cs`, 0 for none. */
  function MaxHeight(cs: seq<TreeNode>): (h: nat)
    decreases cs
  {
    if cs == [] then 0
    else
      var m := MaxHeight(cs[..|cs| - 1]);
      var h := Height(cs[|cs| - 1]);
      if h > m then h else m
  }

  /** Every child sits one level below its parent, all the way down. */
  predicate LevelsOk(t: TreeNode)
    decreases t
  {
    forall k :: 0 <= k < |t.children| ==> t.children[k].level == t.level + 1 && LevelsOk(t.children[k])
  }

  /** `_get_max_depth(node, current_depth)`: the recursion with a running maximum over the
      children. The same helper is also written out in the compact and JSON exporters. */
  method MaxDepth(node: TreeNode, currentDepth: int) returns (r: int)
    ensures r == currentDepth + Height(node)
    ensures node.children == [] ==> r == currentDepth
    ensures r >= currentDepth
    decreases node
  {
    if node.children == [] {
      return currentDepth;
    }
    var maxChildDepth := currentDepth;
    for i := 0 to |node.children|
      invariant maxChildDepth == currentDepth + (if i == 0 then 0 else 1 + MaxHeight(node.children[..i]))
    {
      var childDepth := MaxDepth(node.children[i], currentDepth + 1);
      assert node.children[..i + 1][..i] == node.children[..i];
      maxChildDepth := if childDepth > maxChildDepth then childDepth else maxChildDepth;
    }
    assert node.children[..|node.children|] == node.children;
    r := maxChildDepth;
  }

  // ---------------------------------------------------------------------------
  // Grouping upstream exchanges by provider (full-LCI mode)

  /** A dictionary from provider to its flow ids that remembers the order in which the
      providers were first inserted, as Python's dicts do. */
  datatype ProviderFlows = ProviderFlows(order: seq<ProcessId>, flows: map<ProcessId, seq<FlowId>>)
  {
    ghost predicate Valid()
    {
      && Distinct(order)
      && (forall p :: p in flows <==> p in order)
      && (forall p :: p in flows ==> |flows[p]| > 0)
    }

    /** Every provider in the order has a non-empty list of flows. */
    predicate Covers()
    {
      forall k :: 0 <= k < |order| ==> order[k] in flows && |flows[order[k]]| > 0
    }
  }

  /** `provider_flows[provider].append(flow)` on a defaultdict of lists. */
  function Put(g: ProviderFlows, p: ProcessId, f: FlowId): ProviderFlows
  {
    if p in g.flows then g.(flows := g.flows[p := g.flows[p] + [f]])
    else ProviderFlows(g.order + [p], g.flows[p := [f]])
  }


  /** The grouping of `ex` by provider, exchange by exchange. */
  function GroupByProvider(ex: seq<Row>): (g: ProviderFlows)
    requires HaveProviders(ex)
    ensures g.Valid() && g.Covers()
  {
    if ex == [] then ProviderFlows([], map[])
    else
      var g0 := GroupByProvider(ex[..|ex| - 1]);
      var p := ex[|ex| - 1].providerId.value;
      var g := Put(g0, p, ex[|ex| - 1].flowId);
      assert Distinct(g.order) by {
        if p !in g0.flows { assert p !in g0.order; }
      }
      g
  }

  /** The loop that fills `provider_flows`. */
  method GroupProviderFlows(ex: seq<Row>) returns (g: ProviderFlows)
    requires HaveProviders(ex)
    ensures g == GroupByProvider(ex)
  {
    g := ProviderFlows([], map[]);
    for i := 0 to |ex|
      invariant g == GroupByProvider(ex[..i])
    {
      ghost var g0 := g;
      var p := ex[i].providerId.value;
      if p !in g.flows {
        g := ProviderFlows(g.order + [p], g.flows[p := []]);
      }
      g := g.(flows := g.flows[p := g.flows[p] + [ex[i].flowId]]);
      assert g == Put(g0, p, ex[i].flowId) by {
        if p !in g0.flows {
          assert [] + [ex[i].flowId] == [ex[i].flowId];
          assert g0.flows[p := []][p := [ex[i].flowId]] == g0.flows[p := [ex[i].flowId]];
        }
      }
      assert GroupByProvider(ex[..i + 1]) == Put(g0, p, ex[i].flowId) by {
        assert ex[..i + 1][..i] == ex[..i];
      }
    }
    assert ex[..|ex|] == ex;
  }

  // ---------------------------------------------------------------------------
  // The traversal as a specification

  /** What one traversal run changes: the visited set and the full-LCI edge table. */
  datatype BuildState = BuildState(visited: set<ProcessId>, edges: map<(ProcessId, ProcessId), seq<FlowId>>)

  /** `full_lci_edges[key].extend(fids)`, creating the entry when it is missing. */
  function ExtendEdge(edges: map<(ProcessId, ProcessId), seq<FlowId>>, key: (ProcessId, ProcessId), fids: seq<FlowId>)
    : (r: map<(ProcessId, ProcessId), seq<FlowId>>)
    ensures r.Keys == edges.Keys + {key}
    ensures r[key] == (if key in edges then edges[key] else []) + fids
    ensures forall k :: k in edges && k != key ==> r[k] == edges[k]
  {
    edges[key := (if key in edges then edges[key] else []) + fids]
  }

  /** `build_tree_recursive(pid, fid, level, full)` started in state `st`: the node it
      returns and the state it leaves. */
  function Build(s: Store, st: BuildState, pid: ProcessId, fid: Option<FlowId>, level: int, full: bool)
    : (r: (TreeNode, BuildState))
    ensures st.visited <= r.1.visited
    ensures pid in r.1.visited
    decreases Unvisited(s, st.visited), 1
  {
    var node := TreeNode(pid, fid, [], level, []);
    if pid in st.visited then (node, st)
    else
      var ex := s.Upstream(pid);
      UpstreamInIds(s, pid);
      var st1 := st.(visited := st.visited + {pid});
      assert ex != [] ==> Unvisited(s, st1.visited) < Unvisited(s, st.visited) by {
        if ex != [] { UnvisitedStrict(s, st.visited, pid); }
      }
      if full && ex != [] then
        var built := BuildGroups(s, st1, pid, GroupByProvider(ex), 0, level, Unvisited(s, st.visited));
        (node.(children := built.0), built.1)
      else
        var built := BuildEach(s, st1, ex, 0, level, Unvisited(s, st.visited));
        (node.(children := built.0), built.1)
  }

  /** Skeleton mode: one child per exchange `ex[i..]`, each built in the state the
      previous one left. */
  function BuildEach(s: Store, st: BuildState, ex: seq<Row>, i: nat, level: int, bound: nat)
    : (r: (seq<TreeNode>, BuildState))
    requires i <= |ex| && HaveProviders(ex)
    requires i < |ex| ==> Unvisited(s, st.visited) < bound
    ensures st.visited <= r.1.visited
    decreases bound, 0, |ex| - i
  {
    if i == |ex| then ([], st)
    else
      var child := Build(s, st, ex[i].providerId.value, Some(ex[i].flowId), level + 1, false);
      UnvisitedMono(s, st.visited, child.1.visited);
      var rest := BuildEach(s, child.1, ex, i + 1, level, bound);
      ([child.0] + rest.0, rest.1)
  }

  /** Full-LCI mode: one child per provider `g.order[i..]`, carrying all of the provider's
      flows, with the edge table extended for each. */
  function BuildGroups(s: Store, st: BuildState, pid: ProcessId, g: ProviderFlows, i: nat, level: int, bound: nat)
    : (r: (seq<TreeNode>, BuildState))
    requires g.Covers() && i <= |g.order|
    requires i < |g.order| ==> Unvisited(s, st.visited) < bound
    ensures st.visited <= r.1.visited
    decreases bound, 0, |g.order| - i
  {
    if i == |g.order| then ([], st)
    else
      var p := g.order[i];
      var c := ProviderChild(s, st, pid, p, g.flows[p], level);
      UnvisitedMono(s, st.visited, c.1.visited);
      var rest := BuildGroups(s, c.1, pid, g, i + 1, level, bound);
      ([c.0] + rest.0, rest.1)
  }

  /** The child for provider `p` with all of its flows `fids`, and the state left after the
      edge `(p, pid)` was extended by them. */
  function ProviderChild(s: Store, st: BuildState, pid: ProcessId, p: ProcessId, fids: seq<FlowId>, level: int)
    : (r: (TreeNode, BuildState))
    requires fids != []
    ensures st.visited <= r.1.visited
    decreases Unvisited(s, st.visited), 2
  {
    var c := Build(s, st, p, Some(fids[0]), level + 1, true);
    (c.0.(flows := AddFlows(c.0.flows, fids)), c.1.(edges := ExtendEdge(c.1.edges, (p, pid), fids)))
  }

  /** Loop invariant of the skeleton loop: `done` followed by what is left to build from
      state `st` is the whole result `total`. */
  ghost predicate EachLeft(s: Store, st: BuildState, ex: seq<Row>, i: nat, level: int, bound: nat,
                           done: seq<TreeNode>, total: (seq<TreeNode>, BuildState))
    requires i <= |ex| && HaveProviders(ex)
    requires i < |ex| ==> Unvisited(s, st.visited) < bound
  {
    var rest := BuildEach(s, st, ex, i, level, bound);
    done + rest.0 == total.0 && rest.1 == total.1
  }

  lemma EachAdvance(s: Store, st: BuildState, ex: seq<Row>, i: nat, level: int, bound: nat,
                    done: seq<TreeNode>, total: (seq<TreeNode>, BuildState))
    requires i < |ex| && HaveProviders(ex) && Unvisited(s, st.visited) < bound
    requires EachLeft(s, st, ex, i, level, bound, done, total)
    ensures var c := Build(s, st, ex[i].providerId.value, Some(ex[i].flowId), level + 1, false);
      && Unvisited(s, c.1.visited) <= Unvisited(s, st.visited)
      && EachLeft(s, c.1, ex, i + 1, level, bound, done + [c.0], total)
  {
    var c := Build(s, st, ex[i].providerId.value, Some(ex[i].flowId), level + 1, false);
    UnvisitedMono(s, st.visited, c.1.visited);
    var rest := BuildEach(s, c.1, ex, i + 1, level, bound);
    assert BuildEach(s, st, ex, i, level, bound) == ([c.0] + rest.0, rest.1);
    assert done + ([c.0] + rest.0) == (done + [c.0]) + rest.0;
  }

  lemma EachFinish(s: Store, st: BuildState, ex: seq<Row>, level: int, bound: nat,
                   done: seq<TreeNode>, total: (seq<TreeNode>, BuildState))
    requires HaveProviders(ex)
    requires EachLeft(s, st, ex, |ex|, level, bound, done, total)
    ensures (done, st) == total
  {
    assert BuildEach(s, st, ex, |ex|, level, bound) == ([], st);
    assert done + [] == done;
  }

  /** Loop invariant of the full-LCI loop, in the same form. */
  ghost predicate GroupsLeft(s: Store, st: BuildState, pid: ProcessId, g: ProviderFlows, i: nat, level: int, bound: nat,
                             done: seq<TreeNode>, total: (seq<TreeNode>, BuildState))
    requires g.Covers() && i <= |g.order|
    requires i < |g.order| ==> Unvisited(s, st.visited) < bound
  {
    var rest := BuildGroups(s, st, pid, g, i, level, bound);
    done + rest.0 == total.0 && rest.1 == total.1
  }

  lemma GroupsAdvance(s: Store, st: BuildState, pid: ProcessId, g: ProviderFlows, i: nat, level: int, bound: nat,
                      done: seq<TreeNode>, total: (seq<TreeNode>, BuildState))
    requires g.Covers() && i < |g.order| && Unvisited(s, st.visited) < bound
    requires GroupsLeft(s, st, pid, g, i, level, bound, done, total)
    ensures g.order[i] in g.flows && g.flows[g.order[i]] != []
    ensures var c := ProviderChild(s, st, pid, g.order[i], g.flows[g.order[i]], level);
      && Unvisited(s, c.1.visited) <= Unvisited(s, st.visited)
      && GroupsLeft(s, c.1, pid, g, i + 1, level, bound, done + [c.0], total)
  {
    var c := ProviderChild(s, st, pid, g.order[i], g.flows[g.order[i]], level);
    UnvisitedMono(s, st.visited, c.1.visited);
    var rest := BuildGroups(s, c.1, pid, g, i + 1, level, bound);
    assert BuildGroups(s, st, pid, g, i, level, bound) == ([c.0] + rest.0, rest.1);
    assert done + ([c.0] + rest.0) == (done + [c.0]) + rest.0;
  }

  lemma GroupsFinish(s: Store, st: BuildState, pid: ProcessId, g: ProviderFlows, level: int, bound: nat,
                     done: seq<TreeNode>, total: (seq<TreeNode>, BuildState))
    requires g.Covers()
    requires GroupsLeft(s, st, pid, g, |g.order|, level, bound, done, total)
    ensures (done, st) == total
  {
    assert BuildGroups(s, st, pid, g, |g.order|, level, bound) == ([], st);
    assert done + [] == done;
  }

  // ---------------------------------------------------------------------------
  // The builder object

  class ProcessTreeBuilder {
    const store: Store
    var visited: set<ProcessId>
    var processNames: map<ProcessId, string>
    var flowNames: map<FlowId, string>
    var fullLciEdges: map<(ProcessId, ProcessId), seq<FlowId>>

    /** Every cached name is the name the store resolves the id to. */
    ghost predicate CachesValid()
      reads this
    {
      && (forall p :: p in processNames ==> processNames[p] == Names.TreeProcessName(store, p))
      && (forall f :: f in flowNames ==> flowNames[f] == Names.FlowName(store, f))
    }

    /** Between two states the name caches only gained entries. */
    twostate predicate CachesGrow()
      reads this
    {
      Extends(old(processNames), processNames) && Extends(old(flowNames), flowNames)
    }

    constructor(store: Store)
      ensures this.store == store
      ensures visited == {} && processNames == map[] && flowNames == map[] && fullLciEdges == map[]
      ensures CachesValid()
    {
      this.store := store;
      visited := {};
      processNames := map[];
      flowNames := map[];
      fullLciEdges := map[];
    }

    /** `get_process_name`: a cache hit returns the cached name; a miss resolves the name,
        caches it and returns it. */
    method GetProcessName(pid: ProcessId) returns (name: string)
      requires CachesValid()
      modifies this`processNames
      ensures CachesValid() && CachesGrow()
      ensures name == Names.TreeProcessName(store, pid)
      ensures pid in old(processNames) ==> processNames == old(processNames)
      ensures pid !in old(processNames) ==> processNames == old(processNames)[pid := name]
    {
      if pid in processNames {
        return processNames[pid];
      }
      name := Names.TreeProcessName(store, pid);
      processNames := processNames[pid := name];
    }

    /** `get_flow_name`, with the same caching discipline. */
    method GetFlowName(fid: FlowId) returns (name: string)
      requires CachesValid()
      modifies this`flowNames
      ensures CachesValid() && CachesGrow()
      ensures name == Names.FlowName(store, fid)
      ensures fid in old(flowNames) ==> flowNames == old(flowNames)
      ensures fid !in old(flowNames) ==> flowNames == old(flowNames)[fid := name]
    {
      if fid in flowNames {
        return flowNames[fid];
      }
      name := Names.FlowName(store, fid);
      flowNames := flowNames[fid := name];
    }

    /** `build_tree_recursive`: the node it returns and the visited set and edge table it
        leaves are those of the specification `Build`. */
    method BuildTreeRecursive(pid: ProcessId, fid: Option<FlowId>, level: int, full: bool) returns (node: TreeNode)
      modifies this`visited, this`fullLciEdges
      ensures (node, BuildState(visited, fullLciEdges)) == Build(store, BuildState(old(visited), old(fullLciEdges)), pid, fid, level, full)
      decreases Unvisited(store, visited), 1
    {
      node := TreeNode(pid, fid, [], level, []);
      if pid in visited {
        return;
      }
      ghost var bound := Unvisited(store, visited);
      visited := visited + {pid};
      var ex := store.Upstream(pid);
      UpstreamInIds(store, pid);
      if ex != [] {
        UnvisitedStrict(store, old(visited), pid);
      }
      var children;
      if full && ex != [] {
        var groups := GroupProviderFlows(ex);
        children := BuildGroupChildren(pid, groups, level, bound);
      } else {
        children := BuildEachChild(ex, level, bound);
      }
      node := node.(children := children);
    }

    /** The skeleton-mode loop of `build_tree_recursive`: one recursive call per upstream
        exchange, each child appended to the node's children as `add_child` does. */
    method BuildEachChild(ex: seq<Row>, level: int, ghost bound: nat) returns (children: seq<TreeNode>)
      requires HaveProviders(ex)
      requires ex != [] ==> Unvisited(store, visited) < bound
      modifies this`visited, this`fullLciEdges
      ensures (children, BuildState(visited, fullLciEdges)) == BuildEach(store, BuildState(old(visited), old(fullLciEdges)), ex, 0, level, bound)
      decreases bound, 0
    {
      ghost var total := BuildEach(store, BuildState(visited, fullLciEdges), ex, 0, level, bound);
      assert EachLeft(store, BuildState(visited, fullLciEdges), ex, 0, level, bound, [], total);
      children := [];
      for i := 0 to |ex|
        invariant old(visited) <= visited
        invariant Unvisited(store, visited) <= Unvisited(store, old(visited))
        invariant EachLeft(store, BuildState(visited, fullLciEdges), ex, i, level, bound, children, total)
      {
        EachAdvance(store, BuildState(visited, fullLciEdges), ex, i, level, bound, children, total);
        var child := BuildTreeRecursive(ex[i].providerId.value, Some(ex[i].flowId), level + 1, false);
        children := children + [child];
      }
      EachFinish(store, BuildState(visited, fullLciEdges), ex, level, bound, children, total);
    }

    /** `for fid in flow_ids: child_node.add_flow(fid)`. */
    static method AddEachFlow(node: TreeNode, fids: seq<FlowId>) returns (r: TreeNode)
      ensures r == node.(flows := AddFlows(node.flows, fids))
    {
      r := node;
      for j := 0 to |fids|
        invariant r == node.(flows := AddFlows(node.flows, fids[..j]))
      {
        assert fids[..j + 1][..j] == fids[..j];
        r := r.AddFlow(fids[j]);
      }
      assert fids[..|fids|] == fids;
    }

    /** Extend the edge table's entry for `key` by `fids`, creating it empty first. */
    method RecordEdge(key: (ProcessId, ProcessId), fids: seq<FlowId>)
      modifies this`fullLciEdges
      ensures fullLciEdges == ExtendEdge(old(fullLciEdges), key, fids)
    {
      if key !in fullLciEdges {
        fullLciEdges := fullLciEdges[key := []];
      }
      fullLciEdges := fullLciEdges[key := fullLciEdges[key] + fids];
    }

    /** One round of the full-LCI loop: build the provider's subtree from its first flow,
        add all of its flows to the child, and record them on the edge table. */
    method BuildProviderChild(pid: ProcessId, p: ProcessId, fids: seq<FlowId>, level: int) returns (child: TreeNode)
      requires fids != []
      modifies this`visited, this`fullLciEdges
      ensures (child, BuildState(visited, fullLciEdges)) == ProviderChild(store, BuildState(old(visited), old(fullLciEdges)), pid, p, fids, level)
      decreases Unvisited(store, visited), 2
    {
      child := BuildTreeRecursive(p, Some(fids[0]), level + 1, true);
      child := AddEachFlow(child, fids);
      RecordEdge((p, pid), fids);
    }

    /** The full-LCI loop of `build_tree_recursive`: one recursive call per provider, then
        every flow of the provider added to the child and to the edge table. */
    method BuildGroupChildren(pid: ProcessId, g: ProviderFlows, level: int, ghost bound: nat) returns (children: seq<TreeNode>)
      requires g.Covers()
      requires g.order != [] ==> Unvisited(store, visited) < bound
      modifies this`visited, this`fullLciEdges
      ensures (children, BuildState(visited, fullLciEdges)) == BuildGroups(store, BuildState(old(visited), old(fullLciEdges)), pid, g, 0, level, bound)
      decreases bound, 0
    {
      ghost var total := BuildGroups(store, BuildState(visited, fullLciEdges), pid, g, 0, level, bound);
      assert GroupsLeft(store, BuildState(visited, fullLciEdges), pid, g, 0, level, bound, [], total);
      children := [];
      for i := 0 to |g.order|
        invariant old(visited) <= visited
        invariant Unvisited(store, visited) <= Unvisited(store, old(visited))
        invariant GroupsLeft(store, BuildState(visited, fullLciEdges), pid, g, i, level, bound, children, total)
      {
        GroupsAdvance(store, BuildState(visited, fullLciEdges), pid, g, i, level, bound, children, total);
        var child := BuildProviderChild(pid, g.order[i], g.flows[g.order[i]], level);
        children := children + [child];
      }
      GroupsFinish(store, BuildState(visited, fullLciEdges), pid, g, level, bound, children, total);
    }
  }
}
