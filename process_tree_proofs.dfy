/** What the exhaustive traversal guarantees, proved about the specification functions
    `Build`, `BuildEach` and `BuildGroups` the builder method is tied to. */
module ProcessTreeProofs {
  import opened Common
  import opened Store
  import opened ProcessTree

  // ---------------------------------------------------------------------------
  // Reference definitions for the grouping

  /** The provider of every exchange, in order. */
  function Providers(ex: seq<Row>): (r: seq<ProcessId>)
    requires HaveProviders(ex)
    ensures |r| == |ex|
    ensures forall k :: 0 <= k < |ex| ==> r[k] == ex[k].providerId.value
  {
    if ex == [] then [] else Providers(ex[..|ex| - 1]) + [ex[|ex| - 1].providerId.value]
  }

  /** The flows of the exchanges whose provider is `p`, in order, repeats kept. */
  function FlowsFrom(ex: seq<Row>, p: ProcessId): (r: seq<FlowId>)
    ensures |r| <= |ex|
  {
    if ex == [] then []
    else if ex[|ex| - 1].providerId == Some(p) then FlowsFrom(ex[..|ex| - 1], p) + [ex[|ex| - 1].flowId]
    else FlowsFrom(ex[..|ex| - 1], p)
  }

  /** Grouping by provider lists each provider once, in order of first occurrence, with
      all the flows it provides, in exchange order. */
  lemma GroupByProviderSpec(ex: seq<Row>)
    requires HaveProviders(ex)
    ensures GroupByProvider(ex).order == Dedup(Providers(ex))
    ensures forall p :: p in GroupByProvider(ex).flows ==> GroupByProvider(ex).flows[p] == FlowsFrom(ex, p)
  {
    GroupOrder(ex);
    GroupFlows(ex);
  }

  lemma {:induction false} GroupOrder(ex: seq<Row>)
    requires HaveProviders(ex)
    ensures GroupByProvider(ex).order == Dedup(Providers(ex))
  {
    if ex != [] {
      var init := ex[..|ex| - 1];
      GroupOrder(init);
      assert Providers(ex)[..|ex| - 1] == Providers(init);
    }
  }

  lemma {:induction false} GroupFlows(ex: seq<Row>)
    requires HaveProviders(ex)
    ensures forall p :: p in GroupByProvider(ex).flows ==> GroupByProvider(ex).flows[p] == FlowsFrom(ex, p)
  {
    if ex != [] {
      var init := ex[..|ex| - 1];
      GroupFlows(init);
      var g0 := GroupByProvider(init);
      var q := ex[|ex| - 1].providerId.value;
      assert ex == init + [ex[|ex| - 1]];
      forall p | p in GroupByProvider(ex).flows ensures GroupByProvider(ex).flows[p] == FlowsFrom(ex, p) {
        if p == q && q !in g0.flows {
          GroupOrder(init);
          DedupSpec(Providers(init));
          FlowsFromAbsent(init, p);
        }
      }
    }
  }

  /** A process that provides none of the exchanges gets no flows. */
  lemma {:induction false} FlowsFromAbsent(ex: seq<Row>, p: ProcessId)
    requires HaveProviders(ex) && p !in Providers(ex)
    ensures FlowsFrom(ex, p) == []
  {
    if ex != [] {
      var init := ex[..|ex| - 1];
      assert Providers(ex) == Providers(init) + [ex[|ex| - 1].providerId.value];
      FlowsFromAbsent(init, p);
    }
  }

  /** A provider is in the grouping exactly when some exchange names it. */
  lemma GroupByProviderKeys(ex: seq<Row>)
    requires HaveProviders(ex)
    ensures forall p :: p in GroupByProvider(ex).flows <==> p in Providers(ex)
  {
    GroupByProviderSpec(ex);
    DedupSpec(Providers(ex));
  }

  /** Adding flows one at a time to an empty list keeps the non-empty ids, each once, in
      order of first occurrence. */
  lemma {:induction false} AddFlowsFromEmpty(fids: seq<FlowId>)
    ensures AddFlows([], fids) == Dedup(NonEmpty(fids))
  {
    if fids != [] {
      var init := fids[..|fids| - 1];
      var x := fids[|fids| - 1];
      AddFlowsFromEmpty(init);
      assert fids == init + [x];
      if x != "" {
        assert NonEmpty(fids) == NonEmpty(init) + [x];
        assert (NonEmpty(init) + [x])[..|NonEmpty(init) + [x]| - 1] == NonEmpty(init);
      } else {
        assert NonEmpty(fids) == NonEmpty(init);
      }
    }
  }

  // ---------------------------------------------------------------------------
  // Shape of the built tree

  /** The node `Build` returns is for `pid`, reached by `fid`, at `level`, with no flows of
      its own yet, and every level below it is one more than its parent's. A process that
      was already visited gives a childless node and changes nothing; so does a process
      without upstream exchanges, apart from being marked visited. */
  lemma {:induction false} BuildShape(s: Store, st: BuildState, pid: ProcessId, fid: Option<FlowId>, level: int, full: bool)
    ensures var r := Build(s, st, pid, fid, level, full);
      && r.0.processId == pid && r.0.flowId == fid && r.0.level == level && r.0.flows == []
      && LevelsOk(r.0)
    ensures pid in st.visited ==> Build(s, st, pid, fid, level, full) == (TreeNode(pid, fid, [], level, []), st)
    ensures s.Upstream(pid) == [] ==> Build(s, st, pid, fid, level, full).0.children == []
    decreases Unvisited(s, st.visited), 1
  {
    if pid !in st.visited {
      var ex := s.Upstream(pid);
      UpstreamInIds(s, pid);
      var st1 := st.(visited := st.visited + {pid});
      if ex != [] {
        UnvisitedStrict(s, st.visited, pid);
      }
      var r := Build(s, st, pid, fid, level, full);
      if full && ex != [] {
        var g := GroupByProvider(ex);
        BuildGroupsShape(s, st1, pid, g, 0, level, Unvisited(s, st.visited));
        assert r.0.children == BuildGroups(s, st1, pid, g, 0, level, Unvisited(s, st.visited)).0;
        forall k | 0 <= k < |r.0.children| ensures r.0.children[k].level == level + 1 && LevelsOk(r.0.children[k]) {
          assert GroupChild(r.0.children[k], g.order[k], g.flows[g.order[k]], level);
        }
      } else {
        BuildEachShape(s, st1, ex, 0, level, Unvisited(s, st.visited));
        assert r.0.children == BuildEach(s, st1, ex, 0, level, Unvisited(s, st.visited)).0;
        forall k | 0 <= k < |r.0.children| ensures r.0.children[k].level == level + 1 && LevelsOk(r.0.children[k]) {
          assert EachChild(r.0.children[k], ex[k], level);
        }
      }
    }
  }

  /** What `BuildEach` promises of the child it builds for one exchange. */
  predicate EachChild(t: TreeNode, x: Row, level: int)
    requires x.providerId.Some?
  {
    t.processId == x.providerId.value && t.flowId == Some(x.flowId) && t.level == level + 1 && t.flows == [] && LevelsOk(t)
  }

  /** `cs` holds one child per exchange of `ex[i..]`, in order. */
  predicate EachChildren(cs: seq<TreeNode>, ex: seq<Row>, i: nat, level: int)
    requires i <= |ex| && HaveProviders(ex)
  {
    |cs| == |ex| - i && forall k :: 0 <= k < |cs| ==> EachChild(cs[k], ex[i + k], level)
  }

  /** Skeleton mode: one child per exchange, in exchange order, each for the exchange's
      provider and flow. */
  lemma {:induction false} BuildEachShape(s: Store, st: BuildState, ex: seq<Row>, i: nat, level: int, bound: nat)
    requires i <= |ex| && HaveProviders(ex)
    requires i < |ex| ==> Unvisited(s, st.visited) < bound
    ensures EachChildren(BuildEach(s, st, ex, i, level, bound).0, ex, i, level)
    decreases bound, 0, |ex| - i
  {
    if i < |ex| {
      var x := ex[i];
      var c := Build(s, st, x.providerId.value, Some(x.flowId), level + 1, false);
      assert EachChild(c.0, x, level) && Unvisited(s, c.1.visited) <= Unvisited(s, st.visited) by {
        BuildShape(s, st, x.providerId.value, Some(x.flowId), level + 1, false);
        UnvisitedMono(s, st.visited, c.1.visited);
      }
      var rest := BuildEach(s, c.1, ex, i + 1, level, bound);
      BuildEachShape(s, c.1, ex, i + 1, level, bound);
      var r := BuildEach(s, st, ex, i, level, bound);
      assert r.0 == [c.0] + rest.0;
      forall k | 0 < k < |r.0| ensures EachChild(r.0[k], ex[i + k], level) {
        var m := k - 1;
        assert r.0[k] == rest.0[m] && ex[i + k] == ex[(i + 1) + m];
      }
    }
  }

  /** The provider of `ex[j]` is in `seen` or already named by an exchange of `ex[i..j]`. */
  predicate Repeats(ex: seq<Row>, i: nat, j: nat, seen: set<ProcessId>)
    requires HaveProviders(ex) && i <= j < |ex|
  {
    ex[j].providerId.value in seen || ex[j].providerId.value in Providers(ex)[i..j]
  }

  /** Every child of `cs` (built for `ex[i..]`) whose provider repeats is a leaf. */
  predicate RepeatsAreLeaves(cs: seq<TreeNode>, ex: seq<Row>, i: nat, seen: set<ProcessId>)
    requires i <= |ex| && HaveProviders(ex)
  {
    forall k :: 0 <= k < |cs| && i + k < |ex| && Repeats(ex, i, i + k, seen) ==> cs[k].children == []
  }

  /** Skeleton mode: a child whose provider was visited before, or that repeats the
      provider of an earlier exchange, is a childless cycle leaf. */
  lemma {:induction false} BuildEachLeaves(s: Store, st: BuildState, ex: seq<Row>, i: nat, level: int, bound: nat)
    requires i <= |ex| && HaveProviders(ex)
    requires i < |ex| ==> Unvisited(s, st.visited) < bound
    ensures RepeatsAreLeaves(BuildEach(s, st, ex, i, level, bound).0, ex, i, st.visited)
    decreases bound, 0, |ex| - i
  {
    if i < |ex| {
      var x := ex[i];
      var c := Build(s, st, x.providerId.value, Some(x.flowId), level + 1, false);
      assert x.providerId.value in c.1.visited && st.visited <= c.1.visited
        && (x.providerId.value in st.visited ==> c.0.children == [])
        && Unvisited(s, c.1.visited) <= Unvisited(s, st.visited) by {
        BuildShape(s, st, x.providerId.value, Some(x.flowId), level + 1, false);
        UnvisitedMono(s, st.visited, c.1.visited);
      }
      BuildEachLeaves(s, c.1, ex, i + 1, level, bound);
      assert BuildEach(s, st, ex, i, level, bound).0 == [c.0] + BuildEach(s, c.1, ex, i + 1, level, bound).0;
      LeavesCons(c.0, BuildEach(s, c.1, ex, i + 1, level, bound).0, ex, i, st.visited, c.1.visited);
    }
  }

  /** The children for `ex[i..]` are the child for `ex[i]` followed by those for
      `ex[i + 1..]`, built once the provider of `ex[i]` is visited. */
  lemma LeavesCons(c: TreeNode, rest: seq<TreeNode>, ex: seq<Row>, i: nat, seen: set<ProcessId>, seen': set<ProcessId>)
    requires i < |ex| && HaveProviders(ex)
    requires ex[i].providerId.value in seen' && seen <= seen'
    requires ex[i].providerId.value in seen ==> c.children == []
    requires RepeatsAreLeaves(rest, ex, i + 1, seen')
    ensures RepeatsAreLeaves([c] + rest, ex, i, seen)
  {
    var r := [c] + rest;
    forall k | 0 <= k < |r| && i + k < |ex| && Repeats(ex, i, i + k, seen)
      ensures r[k].children == []
    {
      if k == 0 {
        assert Providers(ex)[i..i] == [];
      } else {
        assert r[k] == rest[k - 1] && i + k == (i + 1) + (k - 1);
        RepeatsShift(ex, i, i + k, seen, seen');
      }
    }
  }

  /** Moving the window start past exchange `i` keeps a repeat a repeat once the provider
      of `ex[i]` is in the visited set. */
  lemma RepeatsShift(ex: seq<Row>, i: nat, j: nat, seen: set<ProcessId>, seen': set<ProcessId>)
    requires HaveProviders(ex) && i < j < |ex|
    requires seen <= seen' && ex[i].providerId.value in seen'
    requires Repeats(ex, i, j, seen)
    ensures Repeats(ex, i + 1, j, seen')
  {
    var ps := Providers(ex);
    assert ps[i..j] == [ps[i]] + ps[i + 1..j];
  }

  /** What `BuildGroups` promises of the child it builds for one provider. */
  predicate GroupChild(t: TreeNode, p: ProcessId, fids: seq<FlowId>, level: int)
  {
    fids != [] && t.processId == p && t.flowId == Some(fids[0]) && t.flows == AddFlows([], fids) && t.level == level + 1 && LevelsOk(t)
  }

  /** `cs` holds one child per provider of `g.order[i..]`, in order. */
  predicate GroupChildren(cs: seq<TreeNode>, g: ProviderFlows, i: nat, level: int)
    requires g.Covers() && i <= |g.order|
  {
    |cs| == |g.order| - i && forall k :: 0 <= k < |cs| ==> GroupChild(cs[k], g.order[i + k], g.flows[g.order[i + k]], level)
  }

  /** Levels do not depend on a node's flows. */
  lemma LevelsOkFlows(t: TreeNode, flows: seq<FlowId>)
    requires LevelsOk(t)
    ensures LevelsOk(t.(flows := flows))
  {
    var u := t.(flows := flows);
    assert u.children == t.children && u.level == t.level;
  }

  /** The child built for one provider in full-LCI mode. */
  lemma ProviderChildShape(s: Store, st: BuildState, pid: ProcessId, p: ProcessId, fids: seq<FlowId>, level: int)
    requires fids != []
    ensures GroupChild(ProviderChild(s, st, pid, p, fids, level).0, p, fids, level)
    decreases Unvisited(s, st.visited), 2
  {
    var c := Build(s, st, p, Some(fids[0]), level + 1, true);
    BuildShape(s, st, p, Some(fids[0]), level + 1, true);
    LevelsOkFlows(c.0, AddFlows([], fids));
  }

  /** Full-LCI mode: one child per provider, in the grouping's order, reached by the
      provider's first flow and carrying all of its flows as `add_flow` leaves them. */
  lemma {:induction false} BuildGroupsShape(s: Store, st: BuildState, pid: ProcessId, g: ProviderFlows, i: nat, level: int, bound: nat)
    requires g.Covers() && i <= |g.order|
    requires i < |g.order| ==> Unvisited(s, st.visited) < bound
    ensures GroupChildren(BuildGroups(s, st, pid, g, i, level, bound).0, g, i, level)
    decreases bound, 0, |g.order| - i
  {
    if i < |g.order| {
      var p := g.order[i];
      var c := ProviderChild(s, st, pid, p, g.flows[p], level);
      assert GroupChild(c.0, p, g.flows[p], level) && Unvisited(s, c.1.visited) <= Unvisited(s, st.visited) by {
        ProviderChildShape(s, st, pid, p, g.flows[p], level);
        UnvisitedMono(s, st.visited, c.1.visited);
      }
      BuildGroupsShape(s, c.1, pid, g, i + 1, level, bound);
      assert BuildGroups(s, st, pid, g, i, level, bound).0 == [c.0] + BuildGroups(s, c.1, pid, g, i + 1, level, bound).0;
      GroupChildrenCons(c.0, BuildGroups(s, c.1, pid, g, i + 1, level, bound).0, g, i, level);
    }
  }

  /** The child for provider `g.order[i]` followed by the children for the providers
      after it. */
  lemma GroupChildrenCons(c: TreeNode, rest: seq<TreeNode>, g: ProviderFlows, i: nat, level: int)
    requires g.Covers() && i < |g.order|
    requires GroupChild(c, g.order[i], g.flows[g.order[i]], level)
    requires GroupChildren(rest, g, i + 1, level)
    ensures GroupChildren([c] + rest, g, i, level)
  {
    var r := [c] + rest;
    forall k | 0 < k < |r| ensures GroupChild(r[k], g.order[i + k], g.flows[g.order[i + k]], level) {
      assert r[k] == rest[k - 1] && g.order[i + k] == g.order[(i + 1) + (k - 1)];
    }
  }

  /** The root of a traversal started from a fresh builder is the root process at level 0
      with no flow, and every child is one level below its parent. */
  lemma RootShape(s: Store, root: ProcessId, full: bool)
    ensures var t := Build(s, BuildState({}, map[]), root, None, 0, full).0;
      t.processId == root && t.level == 0 && t.flowId == None && LevelsOk(t)
  {
    BuildShape(s, BuildState({}, map[]), root, None, 0, full);
  }

  /** Build at a process not yet visited, in terms of the children loops. */
  lemma BuildUnvisited(s: Store, st: BuildState, pid: ProcessId, fid: Option<FlowId>, level: int, full: bool)
    requires pid !in st.visited
    ensures s.Upstream(pid) != [] ==> Unvisited(s, st.visited + {pid}) < Unvisited(s, st.visited)
    ensures var ex := s.Upstream(pid);
      !(full && ex != []) ==>
        Build(s, st, pid, fid, level, full).0.children
          == BuildEach(s, st.(visited := st.visited + {pid}), ex, 0, level, Unvisited(s, st.visited)).0
    ensures var ex := s.Upstream(pid);
      full && ex != [] ==>
        Build(s, st, pid, fid, level, full).0.children
          == BuildGroups(s, st.(visited := st.visited + {pid}), pid, GroupByProvider(ex), 0, level, Unvisited(s, st.visited)).0
  {
    UpstreamInIds(s, pid);
    if s.Upstream(pid) != [] {
      UnvisitedStrict(s, st.visited, pid);
    }
  }

  /** Skeleton mode at a newly visited process: its children are exactly one per upstream
      exchange, in the store's order, at the next level; a child for a provider already
      visited, for the process itself, or for a provider an earlier exchange already named
      is a childless cycle leaf. */
  lemma SkeletonChildren(s: Store, st: BuildState, pid: ProcessId, fid: Option<FlowId>, level: int)
    requires pid !in st.visited
    ensures EachChildren(Build(s, st, pid, fid, level, false).0.children, s.Upstream(pid), 0, level)
    ensures RepeatsAreLeaves(Build(s, st, pid, fid, level, false).0.children, s.Upstream(pid), 0, st.visited + {pid})
  {
    var ex := s.Upstream(pid);
    BuildUnvisited(s, st, pid, fid, level, false);
    BuildEachShape(s, st.(visited := st.visited + {pid}), ex, 0, level, Unvisited(s, st.visited));
    BuildEachLeaves(s, st.(visited := st.visited + {pid}), ex, 0, level, Unvisited(s, st.visited));
  }

  /** Full-LCI mode at a newly visited process with upstream exchanges: one child per
      distinct provider in order of first occurrence, reached by that provider's first
      flow and listing its non-empty flows once each, in exchange order. */
  lemma FullChildren(s: Store, st: BuildState, pid: ProcessId, fid: Option<FlowId>, level: int)
    requires pid !in st.visited && s.Upstream(pid) != []
    ensures |Build(s, st, pid, fid, level, true).0.children| == |Dedup(Providers(s.Upstream(pid)))|
    ensures forall k :: 0 <= k < |Build(s, st, pid, fid, level, true).0.children| ==>
      ProvidedChild(Build(s, st, pid, fid, level, true).0.children[k], s.Upstream(pid), Dedup(Providers(s.Upstream(pid)))[k], level)
  {
    var ex := s.Upstream(pid);
    var g := GroupByProvider(ex);
    var cs := Build(s, st, pid, fid, level, true).0.children;
    BuildUnvisited(s, st, pid, fid, level, true);
    GroupByProviderSpec(ex);
    BuildGroupsShape(s, st.(visited := st.visited + {pid}), pid, g, 0, level, Unvisited(s, st.visited));
    forall k | 0 <= k < |cs| ensures ProvidedChild(cs[k], ex, g.order[k], level) {
      var p := g.order[k];
      assert GroupChild(cs[k], p, g.flows[p], level);
      assert g.flows[p] == FlowsFrom(ex, p);
      AddFlowsFromEmpty(FlowsFrom(ex, p));
    }
  }

  /** The child for provider `p` in full-LCI mode, stated against the exchanges. */
  predicate ProvidedChild(t: TreeNode, ex: seq<Row>, p: ProcessId, level: int)
  {
    && t.processId == p
    && FlowsFrom(ex, p) != []
    && t.flowId == Some(FlowsFrom(ex, p)[0])
    && t.flows == Dedup(NonEmpty(FlowsFrom(ex, p)))
    && t.level == level + 1
  }

  // ---------------------------------------------------------------------------
  // The visited set and the edge table

  /** The visited set only grows, always gains the process built, and only ever gains the
      process itself and ids of the store. */
  lemma {:induction false} BuildVisited(s: Store, st: BuildState, pid: ProcessId, fid: Option<FlowId>, level: int, full: bool)
    ensures st.visited <= Build(s, st, pid, fid, level, full).1.visited
    ensures pid in Build(s, st, pid, fid, level, full).1.visited
    ensures Build(s, st, pid, fid, level, full).1.visited <= st.visited + {pid} + s.Ids()
    decreases Unvisited(s, st.visited), 1
  {
    if pid !in st.visited {
      var ex := s.Upstream(pid);
      UpstreamInIds(s, pid);
      var st1 := st.(visited := st.visited + {pid});
      if ex != [] {
        UnvisitedStrict(s, st.visited, pid);
      }
      if full && ex != [] {
        var g := GroupByProvider(ex);
        assert forall k :: 0 <= k < |g.order| ==> g.order[k] in s.Ids() by {
          GroupByProviderKeys(ex);
          forall k | 0 <= k < |g.order| ensures g.order[k] in s.Ids() {
            assert g.order[k] in g.flows;
            var j :| 0 <= j < |ex| && Providers(ex)[j] == g.order[k];
          }
        }
        BuildGroupsVisited(s, st1, pid, g, 0, level, Unvisited(s, st.visited));
      } else {
        BuildEachVisited(s, st1, ex, 0, level, Unvisited(s, st.visited));
      }
    }
  }

  lemma {:induction false} BuildEachVisited(s: Store, st: BuildState, ex: seq<Row>, i: nat, level: int, bound: nat)
    requires i <= |ex| && HaveProviders(ex)
    requires i < |ex| ==> Unvisited(s, st.visited) < bound
    requires forall k :: 0 <= k < |ex| ==> ex[k].providerId.value in s.Ids()
    ensures st.visited <= BuildEach(s, st, ex, i, level, bound).1.visited <= st.visited + s.Ids()
    decreases bound, 0, |ex| - i
  {
    if i < |ex| {
      var c := Build(s, st, ex[i].providerId.value, Some(ex[i].flowId), level + 1, false);
      BuildVisited(s, st, ex[i].providerId.value, Some(ex[i].flowId), level + 1, false);
      UnvisitedMono(s, st.visited, c.1.visited);
      BuildEachVisited(s, c.1, ex, i + 1, level, bound);
    }
  }

  lemma {:induction false} BuildGroupsVisited(s: Store, st: BuildState, pid: ProcessId, g: ProviderFlows, i: nat, level: int, bound: nat)
    requires g.Covers() && i <= |g.order|
    requires i < |g.order| ==> Unvisited(s, st.visited) < bound
    requires forall k :: 0 <= k < |g.order| ==> g.order[k] in s.Ids()
    ensures st.visited <= BuildGroups(s, st, pid, g, i, level, bound).1.visited <= st.visited + s.Ids()
    decreases bound, 0, |g.order| - i
  {
    if i < |g.order| {
      var p := g.order[i];
      var c := ProviderChild(s, st, pid, p, g.flows[p], level);
      BuildVisited(s, st, p, Some(g.flows[p][0]), level + 1, true);
      UnvisitedMono(s, st.visited, c.1.visited);
      BuildGroupsVisited(s, c.1, pid, g, i + 1, level, bound);
    }
  }

  /** Skeleton mode never touches the edge table. */
  lemma {:induction false} SkeletonEdges(s: Store, st: BuildState, pid: ProcessId, fid: Option<FlowId>, level: int)
    ensures Build(s, st, pid, fid, level, false).1.edges == st.edges
    decreases Unvisited(s, st.visited), 1
  {
    if pid !in st.visited {
      var ex := s.Upstream(pid);
      UpstreamInIds(s, pid);
      if ex != [] {
        UnvisitedStrict(s, st.visited, pid);
      }
      BuildEachEdges(s, st.(visited := st.visited + {pid}), ex, 0, level, Unvisited(s, st.visited));
    }
  }

  lemma {:induction false} BuildEachEdges(s: Store, st: BuildState, ex: seq<Row>, i: nat, level: int, bound: nat)
    requires i <= |ex| && HaveProviders(ex)
    requires i < |ex| ==> Unvisited(s, st.visited) < bound
    ensures BuildEach(s, st, ex, i, level, bound).1.edges == st.edges
    decreases bound, 0, |ex| - i
  {
    if i < |ex| {
      var c := Build(s, st, ex[i].providerId.value, Some(ex[i].flowId), level + 1, false);
      SkeletonEdges(s, st, ex[i].providerId.value, Some(ex[i].flowId), level + 1);
      UnvisitedMono(s, st.visited, c.1.visited);
      BuildEachEdges(s, c.1, ex, i + 1, level, bound);
    }
  }

  type Edges = map<(ProcessId, ProcessId), seq<FlowId>>

  /** Every entry of `b` whose downstream process is in `seen` is an unchanged entry of
      `a`, except the entries from providers `ps` into `pid`. */
  predicate FrameOn(a: Edges, b: Edges, seen: set<ProcessId>, pid: ProcessId, ps: seq<ProcessId>)
  {
    forall k :: k in b && k.1 in seen && !(k.1 == pid && k.0 in ps) ==> k in a && b[k] == a[k]
  }

  /** The entry of each provider of `g.order[i..]` into `pid` is its entry in `a` (empty
      when missing) extended by that provider's flows. */
  predicate Extended(a: Edges, b: Edges, pid: ProcessId, g: ProviderFlows, i: nat)
  {
    forall j :: i <= j < |g.order| ==>
      && g.order[j] in g.flows && (g.order[j], pid) in b
      && b[(g.order[j], pid)] == (if (g.order[j], pid) in a then a[(g.order[j], pid)] else []) + g.flows[g.order[j]]
  }

  /** The edge table only gains entries, and an entry whose downstream process was already
      visited is never changed: each edge is recorded only by the call that expands its
      downstream process. In full-LCI mode, that call extends the entry of each provider
      by exactly the provider's flows. */
  lemma {:induction false} BuildEdges(s: Store, st: BuildState, pid: ProcessId, fid: Option<FlowId>, level: int, full: bool)
    ensures st.edges.Keys <= Build(s, st, pid, fid, level, full).1.edges.Keys
    ensures FrameOn(st.edges, Build(s, st, pid, fid, level, full).1.edges, st.visited, pid, [])
    ensures full && pid !in st.visited && s.Upstream(pid) != [] ==>
      Extended(st.edges, Build(s, st, pid, fid, level, full).1.edges, pid, GroupByProvider(s.Upstream(pid)), 0)
    decreases Unvisited(s, st.visited), 1
  {
    if pid !in st.visited {
      var ex := s.Upstream(pid);
      UpstreamInIds(s, pid);
      var st1 := st.(visited := st.visited + {pid});
      if ex != [] {
        UnvisitedStrict(s, st.visited, pid);
      }
      if full && ex != [] {
        var g := GroupByProvider(ex);
        BuildGroupsEdges(s, st1, pid, g, 0, level, Unvisited(s, st.visited));
      } else {
        BuildEachEdges(s, st1, ex, 0, level, Unvisited(s, st.visited));
      }
    }
  }

  lemma {:induction false} BuildGroupsEdges(s: Store, st: BuildState, pid: ProcessId, g: ProviderFlows, i: nat, level: int, bound: nat)
    requires g.Valid() && g.Covers() && i <= |g.order|
    requires i < |g.order| ==> Unvisited(s, st.visited) < bound
    requires pid in st.visited
    ensures st.edges.Keys <= BuildGroups(s, st, pid, g, i, level, bound).1.edges.Keys
    ensures FrameOn(st.edges, BuildGroups(s, st, pid, g, i, level, bound).1.edges, st.visited, pid, g.order[i..])
    ensures Extended(st.edges, BuildGroups(s, st, pid, g, i, level, bound).1.edges, pid, g, i)
    decreases bound, 0, |g.order| - i
  {
    if i < |g.order| {
      var p := g.order[i];
      var fids := g.flows[p];
      var b := Build(s, st, p, Some(fids[0]), level + 1, true);
      var c := ProviderChild(s, st, pid, p, fids, level);
      assert c.1.visited == b.1.visited && c.1.edges == ExtendEdge(b.1.edges, (p, pid), fids);
      assert st.edges.Keys <= b.1.edges.Keys && FrameOn(st.edges, b.1.edges, st.visited, p, [])
        && st.visited <= b.1.visited
        && Unvisited(s, c.1.visited) <= Unvisited(s, st.visited) by {
        BuildEdges(s, st, p, Some(fids[0]), level + 1, true);
        UnvisitedMono(s, st.visited, c.1.visited);
      }
      var r := BuildGroups(s, st, pid, g, i, level, bound);
      var rest := BuildGroups(s, c.1, pid, g, i + 1, level, bound);
      assert r.1 == rest.1;
      BuildGroupsEdges(s, c.1, pid, g, i + 1, level, bound);
      assert p !in g.order[i + 1..] by {
        forall k | i + 1 <= k < |g.order| ensures g.order[k] != p {
        }
      }
      GroupStepEdges(st.edges, b.1.edges, c.1.edges, r.1.edges, st.visited, c.1.visited, pid, g, i);
    }
  }

  /** One full-LCI round of `BuildGroups` on the edge table: `e0` before the provider's
      subtree, `eb` after it, `e1` after recording the provider's edge, `e2` after the
      remaining providers. */
  lemma GroupStepEdges(e0: Edges, eb: Edges, e1: Edges, e2: Edges, seen: set<ProcessId>, seen1: set<ProcessId>,
                       pid: ProcessId, g: ProviderFlows, i: nat)
    requires i < |g.order| && g.order[i] in g.flows && g.order[i] !in g.order[i + 1..]
    requires pid in seen && seen <= seen1
    requires e0.Keys <= eb.Keys && FrameOn(e0, eb, seen, g.order[i], [])
    requires e1 == ExtendEdge(eb, (g.order[i], pid), g.flows[g.order[i]])
    requires e1.Keys <= e2.Keys && FrameOn(e1, e2, seen1, pid, g.order[i + 1..]) && Extended(e1, e2, pid, g, i + 1)
    ensures FrameOn(e0, e2, seen, pid, g.order[i..])
    ensures Extended(e0, e2, pid, g, i)
  {
    var p := g.order[i];
    assert g.order[i..] == [p] + g.order[i + 1..];
    assert FrameOn(e0, e1, seen, pid, [p]) by {
      forall k | k in e1 && k.1 in seen && !(k.1 == pid && k.0 in [p]) ensures k in e0 && e1[k] == e0[k] {
        assert k != (p, pid);
      }
    }
    forall k | k in e2 && k.1 in seen && !(k.1 == pid && k.0 in g.order[i..]) ensures k in e0 && e2[k] == e0[k] {
      assert k.1 in seen1 && !(k.1 == pid && k.0 in g.order[i + 1..]);
    }
    forall j | i <= j < |g.order|
      ensures g.order[j] in g.flows && (g.order[j], pid) in e2
      ensures e2[(g.order[j], pid)] == (if (g.order[j], pid) in e0 then e0[(g.order[j], pid)] else []) + g.flows[g.order[j]]
    {
      var q := g.order[j];
      if j == i {
        assert (p, pid) in e1 && !(pid == pid && p in g.order[i + 1..]);
        assert pid in seen1;
        assert ((p, pid) in eb) == ((p, pid) in e0);
      } else {
        assert q != p;
        assert ((q, pid) in e1) == ((q, pid) in e0);
      }
    }
  }
}
