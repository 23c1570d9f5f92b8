/** The main-chain builder: from a root process, follow at every step the single
    qualifying input exchange of largest value upstream. The result is a linked list of
    nodes that ends at a process without qualifying inputs or at a process already
    visited. */
module MainChain {
  import opened Common
  import opened Store
  import Names

  /** Production reads the background database; editor mode also restricts the inputs to
      the exchanges of one category of the editor database. */
  datatype Mode = Production | Editor(categoryFilter: string)

  /** `MainChainNode`: one process of the chain, the exchange that led to it, and the
      next node upstream. */
  datatype ChainNode = ChainNode(
    processId: ProcessId,
    flowId: Option<FlowId>,
    value: real,
    level: int,
    unitId: Option<string>,
    gwp: Option<real>,
    gwpContribution: Option<real>,
    next: Option<ChainNode>)
  {
    /** `set_next`: link `node` as the next node upstream; nothing else changes. */
    function SetNext(node: ChainNode): (r: ChainNode)
      ensures r.next == Some(node)
      ensures r.(next := next) == this
      ensures ChainIds(r) == [processId] + ChainIds(node)
    {
      this.(next := Some(node))
    }
  }

  /** The process ids along the chain starting at `n`, head first. */
  function ChainIds(n: ChainNode): (r: seq<ProcessId>)
    ensures |r| >= 1 && r[0] == n.processId
  {
    [n.processId] + (if n.next.Some? then ChainIds(n.next.value) else [])
  }

  /** Every node of the chain is one level above the node before it. */
  predicate Consecutive(n: ChainNode)
  {
    n.next.Some? ==> n.next.value.level == n.level + 1 && Consecutive(n.next.value)
  }

  // ---------------------------------------------------------------------------
  // Selecting the exchange to follow

  /** A row of the editor database passes its category filter for `pid`. The filter of
      the chain step also demands a provider; the one of the root dump does not. */
  predicate Passes(f: FilterRow, pid: ProcessId, cat: string, needProvider: bool)
  {
    f.processId == pid && f.isInput && (f.hasProvider || !needProvider) && !f.isDeleted && f.categoryId == cat
  }

  /** The exchange ids an editor-mode category filter lets through. */
  function ValidIds(fs: seq<FilterRow>, pid: ProcessId, cat: string, needProvider: bool): set<ExchangeId>
  {
    if fs == [] then {}
    else
      var f := fs[|fs| - 1];
      ValidIds(fs[..|fs| - 1], pid, cat, needProvider) + (if Passes(f, pid, cat, needProvider) then {f.id} else {})
  }

  /** A row the query of `get_max_value_exchange` ranks: an input row of `pid` with a
      provider, not deleted, at the configured version, in editor mode also let through
      by the category filter. */
  predicate Qualifies(s: Store, mode: Mode, pid: ProcessId, x: Row)
  {
    Upstream1(x, pid, s.version) && (mode.Editor? ==> x.id in ValidIds(s.filterRows, pid, mode.categoryFilter, true))
  }

  /** The qualifying rows of `rs`, in order. */
  function CandidateRows(s: Store, mode: Mode, pid: ProcessId, rs: seq<Row>): (r: seq<Row>)
    ensures forall k :: 0 <= k < |r| ==> Qualifies(s, mode, pid, r[k])
  {
    if rs == [] then []
    else
      var init := rs[..|rs| - 1];
      if Qualifies(s, mode, pid, rs[|rs| - 1]) then CandidateRows(s, mode, pid, init) + [rs[|rs| - 1]]
      else CandidateRows(s, mode, pid, init)
  }

  function Candidates(s: Store, mode: Mode, pid: ProcessId): (r: seq<Row>)
    ensures forall k :: 0 <= k < |r| ==> Qualifies(s, mode, pid, r[k])
  {
    CandidateRows(s, mode, pid, s.rows)
  }

  lemma {:induction false} CandidateRowsSpec(s: Store, mode: Mode, pid: ProcessId, rs: seq<Row>)
    ensures forall x :: x in CandidateRows(s, mode, pid, rs) <==> x in rs && Qualifies(s, mode, pid, x)
  {
    if rs != [] {
      var init := rs[..|rs| - 1];
      CandidateRowsSpec(s, mode, pid, init);
      assert rs == init + [rs[|rs| - 1]];
    }
  }

  /** Exactly the qualifying rows of the table are candidates; a process with candidates
      is an id of the store. */
  lemma CandidatesSpec(s: Store, mode: Mode, pid: ProcessId)
    ensures forall x :: x in Candidates(s, mode, pid) <==> x in s.rows && Qualifies(s, mode, pid, x)
    ensures Candidates(s, mode, pid) != [] ==> pid in s.Ids()
  {
    CandidateRowsSpec(s, mode, pid, s.rows);
    if Candidates(s, mode, pid) != [] {
      assert Candidates(s, mode, pid)[0] in Candidates(s, mode, pid);
      RowIdsHas(s.rows, Candidates(s, mode, pid)[0]);
    }
  }

  /** An editor-mode filter that lets nothing through leaves no candidate. */
  lemma {:induction false} NoValidIds(s: Store, cat: string, pid: ProcessId, rs: seq<Row>)
    requires ValidIds(s.filterRows, pid, cat, true) == {}
    ensures CandidateRows(s, Editor(cat), pid, rs) == []
  {
    if rs != [] {
      NoValidIds(s, cat, pid, rs[..|rs| - 1]);
    }
  }

  /** `ORDER BY value DESC NULLS LAST`: value `a` sorts strictly before value `b`. */
  predicate Before(a: Option<real>, b: Option<real>)
  {
    a.Some? && (b.None? || a.value > b.value)
  }

  /** The position `LIMIT 1` keeps: the first row of the largest value, a missing value
      ranking below every present one. */
  function MaxIndex(cs: seq<Row>): (r: nat)
    requires cs != []
    ensures r < |cs|
    ensures forall j :: 0 <= j < |cs| ==> !Before(cs[j].value, cs[r].value)
    ensures forall j :: 0 <= j < r ==> Before(cs[r].value, cs[j].value)
  {
    if |cs| == 1 then 0
    else
      var m := MaxIndex(cs[..|cs| - 1]);
      if Before(cs[|cs| - 1].value, cs[m].value) then |cs| - 1 else m
  }

  /** `x` is what the selection rule picks from `cs`: a row of `cs` that no row outranks,
      placed before every other row of equal rank. */
  predicate Selected(cs: seq<Row>, x: Row)
  {
    exists i :: 0 <= i < |cs| && cs[i] == x && Top(cs, i)
  }

  predicate Top(cs: seq<Row>, i: nat)
    requires i < |cs|
  {
    && (forall j :: 0 <= j < |cs| ==> !Before(cs[j].value, cs[i].value))
    && (forall j :: 0 <= j < i ==> Before(cs[i].value, cs[j].value))
  }

  /** The selection rule is deterministic: at most one row is selected. */
  lemma SelectedUnique(cs: seq<Row>, x: Row, y: Row)
    requires Selected(cs, x) && Selected(cs, y)
    ensures x == y
  {
    var i :| 0 <= i < |cs| && cs[i] == x && Top(cs, i);
    var j :| 0 <= j < |cs| && cs[j] == y && Top(cs, j);
    assert !(i < j) && !(j < i);
  }

  // ---------------------------------------------------------------------------
  // The connections

  /** The builder's two database connections: `main` to the exchange database and, in
      editor mode, `filter` to the editor database. A flag is set once a query on that
      connection has raised. The builder never commits or rolls back, so the connection
      stays in its failed transaction and every later query on it raises as well. */
  datatype Session = Session(main: bool, filter: bool)

  /** Both connections as a builder opens them. */
  const Fresh := Session(false, false)

  /** Every query the builder can still make starts on a failed connection: the main one,
      or in editor mode the filter one. */
  predicate Broken(mode: Mode, c: Session)
  {
    c.main || (mode.Editor? && c.filter)
  }

  /** A query's outcome together with the connections it leaves behind. */
  datatype Answer<+T> = Answer(result: Result<T>, session: Session)

  /** A name query about `id` on the main connection. It raises when the connection has
      already failed or `id` is failing, and then leaves the connection failed; the name
      lookups swallow that error. */
  function Lookup(s: Store, c: Session, id: string): Session
  {
    c.(main := c.main || id in s.failing)
  }

  /** The name queries for `ids`, one after the other. */
  function LookupAll(s: Store, c: Session, ids: seq<string>): Session
    decreases ids
  {
    if ids == [] then c else LookupAll(s, Lookup(s, c, ids[0]), ids[1..])
  }

  /** Some id of `ids` is failing. */
  predicate Touches(s: Store, ids: seq<string>)
  {
    exists k :: 0 <= k < |ids| && ids[k] in s.failing
  }

  /** A run of name queries fails the main connection exactly when it was failed already
      or one of the ids is failing; the filter connection is never touched. */
  lemma {:induction false} LookupAllSpec(s: Store, c: Session, ids: seq<string>)
    ensures LookupAll(s, c, ids) == c.(main := c.main || Touches(s, ids))
    decreases ids
  {
    if ids != [] {
      LookupAllSpec(s, Lookup(s, c, ids[0]), ids[1..]);
      if ids[0] !in s.failing && Touches(s, ids) {
        var k :| 0 <= k < |ids| && ids[k] in s.failing;
        assert ids[1..][k - 1] == ids[k];
      }
      if Touches(s, ids[1..]) {
        var k :| 0 <= k < |ids[1..]| && ids[1..][k] in s.failing;
        assert ids[k + 1] in s.failing;
      }
    }
  }

  /** Running the queries of `a + b` is running those of `a`, then those of `b`. */
  lemma {:induction false} LookupAllAppend(s: Store, c: Session, a: seq<string>, b: seq<string>)
    ensures LookupAll(s, c, a + b) == LookupAll(s, LookupAll(s, c, a), b)
    decreases a
  {
    if a != [] {
      assert (a + b)[0] == a[0] && (a + b)[1..] == a[1..] + b;
      LookupAllAppend(s, Lookup(s, c, a[0]), a[1..], b);
    } else {
      assert a + b == b;
    }
  }

  /** The selected candidate among `cs`, `None` for no candidate. */
  function Pick(cs: seq<Row>): Option<Row>
  {
    if cs == [] then None else Some(cs[MaxIndex(cs)])
  }

  /** `get_max_value_exchange`: the selected candidate, `None` when there is none (at
      once in editor mode when the category filter lets no exchange through), or the id
      whose query raised. In editor mode the filter query runs on the filter connection
      before the ranking query runs on the main one. */
  function GetMaxValueExchange(s: Store, mode: Mode, pid: ProcessId, c: Session): Answer<Option<Row>>
  {
    if mode.Production? && (c.main || pid in s.failing) then Answer(Err(pid), c.(main := true))
    else if mode.Editor? && (c.filter || pid in s.failing) then Answer(Err(pid), c.(filter := true))
    else if mode.Editor? && ValidIds(s.filterRows, pid, mode.categoryFilter, true) == {} then Answer(Ok(None), c)
    else if c.main then Answer(Err(pid), c)
    else Answer(Ok(Pick(Candidates(s, mode, pid))), c)
  }

  /** The selection raises exactly for a failing process, for a failed connection its
      first query needs, and in editor mode for a failed main connection once the filter
      lets some exchange through; the connection that raised stays failed and nothing
      else changes. Otherwise the result is `None` iff there is no candidate, and else
      the selected candidate, which qualifies. */
  lemma GetMaxValueExchangeSpec(s: Store, mode: Mode, pid: ProcessId, c: Session)
    ensures GetMaxValueExchange(s, mode, pid, c).result.Err? <==>
      || pid in s.failing
      || (mode.Editor? && c.filter)
      || (c.main && (mode.Production? || ValidIds(s.filterRows, pid, mode.categoryFilter, true) != {}))
    ensures GetMaxValueExchange(s, mode, pid, c).result.Err? ==>
      && GetMaxValueExchange(s, mode, pid, c).result.failedId == pid
      && Broken(mode, GetMaxValueExchange(s, mode, pid, c).session)
      && GetMaxValueExchange(s, mode, pid, c).session
         == if mode.Editor? && (c.filter || pid in s.failing) then c.(filter := true) else c.(main := true)
    ensures GetMaxValueExchange(s, mode, pid, c).result.Ok? ==> GetMaxValueExchange(s, mode, pid, c).session == c
    ensures GetMaxValueExchange(s, mode, pid, c).result.Ok? ==>
      (GetMaxValueExchange(s, mode, pid, c).result.value.None? <==> Candidates(s, mode, pid) == [])
    ensures GetMaxValueExchange(s, mode, pid, c).result.Ok? && GetMaxValueExchange(s, mode, pid, c).result.value.Some? ==>
      Selected(Candidates(s, mode, pid), GetMaxValueExchange(s, mode, pid, c).result.value.value)
      && Qualifies(s, mode, pid, GetMaxValueExchange(s, mode, pid, c).result.value.value)
    ensures mode.Editor? && !c.filter && pid !in s.failing && ValidIds(s.filterRows, pid, mode.categoryFilter, true) == {} ==>
      GetMaxValueExchange(s, mode, pid, c) == Answer(Ok(None), c)
  {
    if mode.Editor? && ValidIds(s.filterRows, pid, mode.categoryFilter, true) == {} {
      NoValidIds(s, mode.categoryFilter, pid, s.rows);
    } else {
      var cs := Candidates(s, mode, pid);
      if cs != [] {
        var i := MaxIndex(cs);
        CandidatesSpec(s, mode, pid);
        assert Top(cs, i) && Qualifies(s, mode, pid, cs[i]);
      }
    }
  }

  /** A selected exchange names its provider, and a process with a selected exchange is
      an id of the store. */
  lemma SelectedProvider(s: Store, mode: Mode, pid: ProcessId, c: Session)
    requires GetMaxValueExchange(s, mode, pid, c).result.Ok? && GetMaxValueExchange(s, mode, pid, c).result.value.Some?
    ensures pid in s.Ids() && GetMaxValueExchange(s, mode, pid, c).result.value.value.providerId.Some?
  {
    GetMaxValueExchangeSpec(s, mode, pid, c);
    CandidatesSpec(s, mode, pid);
  }

  /** `float(value) if value else 0.0` */
  function ValueOf(x: Option<real>): real
  {
    x.GetOr(0.0)
  }

  /** `float(x) if x else None`: a zero becomes `None` as well. */
  function OrNone(x: Option<real>): Option<real>
  {
    if TruthyReal(x) then x else None
  }

  // ---------------------------------------------------------------------------
  // The chain

  /** The node `build_chain_recursive` makes for the provider of the selected exchange
      `x`: one level up, carrying the exchange's flow, its value (a missing one as 0.0),
      its unit and its GWP figures with zero suppressed. */
  function Follow(x: Row, level: int): ChainNode
    requires x.providerId.Some?
  {
    ChainNode(x.providerId.value, Some(x.flowId), ValueOf(x.value), level + 1, x.unitId, OrNone(x.gwp), OrNone(x.gwpContribution), None)
  }
  /** The optional unit lookup of `get_unit_name`: a missing or empty unit id is not
      queried. */
  function UnitIds(uid: Option<string>): seq<string>
  {
    if Truthy(uid) then [uid.value] else []
  }

  /** The name queries `build_chain_recursive` makes to trace the selected exchange `x`
      of `pid`: the process, the flow, and the unit. */
  function TraceIds(pid: ProcessId, x: Row): seq<string>
  {
    [pid] + ([x.flowId] + UnitIds(x.unitId))
  }

  /** What `build_chain_recursive` leaves behind: the chain or the id whose query raised,
      the visited set and the connections. */
  datatype Walk = Walk(chain: Result<ChainNode>, visited: set<ProcessId>, session: Session)

  /** `build_chain_recursive` as a function of the visited set and the connections it
      starts from and of the node it makes for its arguments. */
  function Chain(s: Store, mode: Mode, visited: set<ProcessId>, c: Session, node: ChainNode): (w: Walk)
    requires node.next.None?
    ensures visited <= w.visited && node.processId in w.visited
    ensures w.chain.Err? ==> Broken(mode, w.session)
    decreases Unvisited(s, visited)
  {
    var pid := node.processId;
    if pid in visited then Walk(Ok(node), visited, c)
    else
      var v1 := visited + {pid};
      var a := GetMaxValueExchange(s, mode, pid, c);
      if a.result.Err? then Walk(Err(a.result.failedId), v1, a.session)
      else if a.result.value.None? then Walk(Ok(node), v1, Lookup(s, a.session, pid))
      else
        var x := a.result.value.value;
        SelectedProvider(s, mode, pid, c);
        UnvisitedStrict(s, visited, pid);
        Link(node, Chain(s, mode, v1, LookupAll(s, a.session, TraceIds(pid, x)), Follow(x, node.level)))
  }

  /** `node.set_next` applied to the chain of the walk `up`, which a raise leaves alone. */
  function Link(node: ChainNode, up: Walk): Walk
  {
    if up.chain.Err? then up else up.(chain := Ok(node.SetNext(up.chain.value)))
  }

  /** The chain starts with the node for the arguments. A process already visited gives a
      terminal node and leaves visited set and connections alone. At a process not yet
      visited, a selection that raises fails the chain with the connections the selection
      left; no selected exchange makes a leaf, after the lookup of its name. Otherwise the
      next node is the one `Follow` makes for the selected exchange. */
  lemma {:induction false} ChainCases(s: Store, mode: Mode, visited: set<ProcessId>, c: Session, node: ChainNode)
    requires node.next.None?
    ensures Chain(s, mode, visited, c, node).chain.Ok? ==> Chain(s, mode, visited, c, node).chain.value.(next := None) == node
    ensures node.processId in visited ==> Chain(s, mode, visited, c, node) == Walk(Ok(node), visited, c)
    ensures node.processId !in visited && GetMaxValueExchange(s, mode, node.processId, c).result.Err? ==>
      Chain(s, mode, visited, c, node)
      == Walk(Err(node.processId), visited + {node.processId}, GetMaxValueExchange(s, mode, node.processId, c).session)
    ensures node.processId !in visited && GetMaxValueExchange(s, mode, node.processId, c).result == Ok(None) ==>
      Chain(s, mode, visited, c, node) == Walk(Ok(node), visited + {node.processId}, Lookup(s, c, node.processId))
    ensures (&& node.processId !in visited && Chain(s, mode, visited, c, node).chain.Ok?
             && GetMaxValueExchange(s, mode, node.processId, c).result.Ok?
             && GetMaxValueExchange(s, mode, node.processId, c).result.value.Some?) ==>
      && GetMaxValueExchange(s, mode, node.processId, c).result.value.value.providerId.Some?
      && Chain(s, mode, visited, c, node).chain.value.next.Some?
      && Chain(s, mode, visited, c, node).chain.value.next.value.(next := None)
         == Follow(GetMaxValueExchange(s, mode, node.processId, c).result.value.value, node.level)
    decreases Unvisited(s, visited)
  {
    GetMaxValueExchangeSpec(s, mode, node.processId, c);
    var pid := node.processId;
    var a := GetMaxValueExchange(s, mode, pid, c);
    if pid !in visited && a.result.Ok? && a.result.value.Some? {
      var x := a.result.value.value;
      CandidatesSpec(s, mode, pid);
      UnvisitedStrict(s, visited, pid);
      ChainCases(s, mode, visited + {pid}, LookupAll(s, a.session, TraceIds(pid, x)), Follow(x, node.level));
    }
  }

  /** Once a connection the walk needs has failed, the walk goes no further than the
      first process it has not visited: it raises there, or it ends there in a leaf (in
      editor mode, when only the main connection failed and the filter lets nothing
      through), and the connections stay failed. */
  lemma ChainBroken(s: Store, mode: Mode, visited: set<ProcessId>, c: Session, node: ChainNode)
    requires node.next.None? && node.processId !in visited && Broken(mode, c)
    ensures Chain(s, mode, visited, c, node).chain in {Err(node.processId), Ok(node)}
    ensures Broken(mode, Chain(s, mode, visited, c, node).session)
  {
    GetMaxValueExchangeSpec(s, mode, node.processId, c);
  }

  /** A name query that raises while tracing fails the walk one step later, although the
      lookup itself only yields a placeholder: in production mode, when the flow of the
      exchange selected at an unvisited process is failing and its provider `q` has not
      been visited, the walk raises for `q`. */
  lemma TraceFailure(s: Store, visited: set<ProcessId>, c: Session, node: ChainNode, q: ProcessId)
    requires node.next.None? && node.processId !in visited
    requires GetMaxValueExchange(s, Production, node.processId, c).result.Ok?
    requires GetMaxValueExchange(s, Production, node.processId, c).result.value.Some?
    requires GetMaxValueExchange(s, Production, node.processId, c).result.value.value.flowId in s.failing
    requires GetMaxValueExchange(s, Production, node.processId, c).result.value.value.providerId == Some(q)
    requires q !in visited && q != node.processId
    ensures Chain(s, Production, visited, c, node).chain == Err(q)
  {
    var pid := node.processId;
    var x := GetMaxValueExchange(s, Production, pid, c).result.value.value;
    SelectedProvider(s, Production, pid, c);
    UnvisitedStrict(s, visited, pid);
    var ids := TraceIds(pid, x);
    assert ids[1] == x.flowId;
    LookupAllSpec(s, c, ids);
    var up := Chain(s, Production, visited + {pid}, LookupAll(s, c, ids), Follow(x, node.level));
    assert up.chain == Err(q);
  }

  /** With no failing id and no failed connection, the walk never raises and leaves both
      connections healthy. */
  lemma {:induction false} ChainClean(s: Store, mode: Mode, visited: set<ProcessId>, node: ChainNode)
    requires node.next.None? && s.failing == {}
    ensures Chain(s, mode, visited, Fresh, node).chain.Ok?
    ensures Chain(s, mode, visited, Fresh, node).session == Fresh
    decreases Unvisited(s, visited)
  {
    var pid := node.processId;
    var a := GetMaxValueExchange(s, mode, pid, Fresh);
    if pid !in visited && a.result.Ok? && a.result.value.Some? {
      var x := a.result.value.value;
      SelectedProvider(s, mode, pid, Fresh);
      UnvisitedStrict(s, visited, pid);
      LookupAllSpec(s, Fresh, TraceIds(pid, x));
      ChainClean(s, mode, visited + {pid}, Follow(x, node.level));
    }
  }

  /** Levels rise by one from node to node along a chain that did not fail. */
  lemma {:induction false} ChainConsecutive(s: Store, mode: Mode, visited: set<ProcessId>, c: Session, node: ChainNode)
    requires node.next.None? && Chain(s, mode, visited, c, node).chain.Ok?
    ensures Consecutive(Chain(s, mode, visited, c, node).chain.value)
    decreases Unvisited(s, visited)
  {
    var pid := node.processId;
    var a := GetMaxValueExchange(s, mode, pid, c);
    if pid !in visited && a.result.Ok? && a.result.value.Some? {
      var x := a.result.value.value;
      SelectedProvider(s, mode, pid, c);
      UnvisitedStrict(s, visited, pid);
      var next := Follow(x, node.level);
      var c1 := LookupAll(s, a.session, TraceIds(pid, x));
      ChainConsecutive(s, mode, visited + {pid}, c1, next);
      ChainCases(s, mode, visited + {pid}, c1, next);
    }
  }

  /** Along a chain that did not fail every process is visited afterwards, none of them
      was visited before except possibly the last, and all but the last are distinct,
      so a chain is at most one node longer than the number of unvisited ids. */
  lemma {:induction false} ChainExpanded(s: Store, mode: Mode, visited: set<ProcessId>, c: Session, node: ChainNode)
    requires node.next.None? && Chain(s, mode, visited, c, node).chain.Ok?
    ensures Expanded(ChainIds(Chain(s, mode, visited, c, node).chain.value), visited, Chain(s, mode, visited, c, node).visited)
    ensures |ChainIds(Chain(s, mode, visited, c, node).chain.value)| <= Unvisited(s, visited) + 1
    decreases Unvisited(s, visited)
  {
    var pid := node.processId;
    var a := GetMaxValueExchange(s, mode, pid, c);
    if pid !in visited && a.result.Ok? && a.result.value.Some? {
      var x := a.result.value.value;
      SelectedProvider(s, mode, pid, c);
      UnvisitedStrict(s, visited, pid);
      var v1 := visited + {pid};
      var c1 := LookupAll(s, a.session, TraceIds(pid, x));
      var up := Chain(s, mode, v1, c1, Follow(x, node.level));
      ChainExpanded(s, mode, v1, c1, Follow(x, node.level));
      var n := up.chain.value;
      assert Chain(s, mode, visited, c, node) == Walk(Ok(node.SetNext(n)), up.visited, up.session);
      ExpandedCons(pid, ChainIds(n), visited, up.visited);
    }
  }
  /** The ids `ids` of a chain built from visited set `before`: all are in `after`, and
      all but the last are distinct and were not in `before`. */
  predicate Expanded(ids: seq<ProcessId>, before: set<ProcessId>, after: set<ProcessId>)
  {
    && (forall k :: 0 <= k < |ids| ==> ids[k] in after)
    && (forall k :: 0 <= k < |ids| - 1 ==> ids[k] !in before)
    && Distinct(ids[..if ids == [] then 0 else |ids| - 1])
  }

  lemma ExpandedCons(pid: ProcessId, ids: seq<ProcessId>, before: set<ProcessId>, after: set<ProcessId>)
    requires ids != [] && pid !in before && pid in after
    requires Expanded(ids, before + {pid}, after)
    ensures Expanded([pid] + ids, before, after)
  {
    var r := [pid] + ids;
    assert r[..|r| - 1] == [pid] + ids[..|ids| - 1];
    var pre := ids[..|ids| - 1];
    forall k | 0 <= k < |pre| ensures pre[k] != pid {
      assert pre[k] == ids[k] && ids[k] !in before + {pid};
    }
  }

  /** `get_all_exchanges` copies each row into this shape. */
  datatype ExchangeData = ExchangeData(
    flowId: FlowId,
    providerId: Option<ProcessId>,
    value: real,
    unitId: Option<string>,
    gwp: Option<real>,
    gwpContribution: Option<real>,
    description: Option<string>)

  datatype Exchanges = Exchanges(inputs: seq<ExchangeData>, outputs: seq<ExchangeData>)

  /** A missing or zero value becomes 0.0; a missing or zero GWP figure becomes `None`. */
  function ToData(x: Row): (d: ExchangeData)
    ensures d.flowId == x.flowId && d.providerId == x.providerId && d.unitId == x.unitId && d.description == x.description
    ensures d.value == if TruthyReal(x.value) then x.value.value else 0.0
    ensures d.gwp == (if TruthyReal(x.gwp) then x.gwp else None)
    ensures d.gwpContribution == (if TruthyReal(x.gwpContribution) then x.gwpContribution else None)
  {
    ExchangeData(x.flowId, x.providerId, ValueOf(x.value), x.unitId, OrNone(x.gwp), OrNone(x.gwpContribution), x.description)
  }

  /** The rows the query of `get_all_exchanges` returns: `pid`'s rows, not deleted, at the
      configured version; in editor mode an input row only when the category filter
      (which does not ask for a provider) lets it through. */
  predicate Listed(s: Store, mode: Mode, pid: ProcessId, x: Row)
  {
    && x.processId == pid && !x.isDeleted && x.version == s.version
    && (mode.Editor? && x.isInput ==> x.id in ValidIds(s.filterRows, pid, mode.categoryFilter, false))
  }

  function AllRows(s: Store, mode: Mode, pid: ProcessId, rs: seq<Row>): (r: seq<Row>)
    ensures forall k :: 0 <= k < |r| ==> Listed(s, mode, pid, r[k])
  {
    if rs == [] then []
    else
      var init := rs[..|rs| - 1];
      if Listed(s, mode, pid, rs[|rs| - 1]) then AllRows(s, mode, pid, init) + [rs[|rs| - 1]] else AllRows(s, mode, pid, init)
  }

  /** The split of `rs` into input and output data. */
  function Partition(rs: seq<Row>): Exchanges
  {
    if rs == [] then Exchanges([], [])
    else
      var p := Partition(rs[..|rs| - 1]);
      var x := rs[|rs| - 1];
      if x.isInput then p.(inputs := p.inputs + [ToData(x)]) else p.(outputs := p.outputs + [ToData(x)])
  }

  /** The partition of a concatenation is the concatenation of the partitions: each row
      lands in exactly one list, and order is kept. */
  lemma {:induction false} PartitionAppend(a: seq<Row>, b: seq<Row>)
    ensures Partition(a + b).inputs == Partition(a).inputs + Partition(b).inputs
    ensures Partition(a + b).outputs == Partition(a).outputs + Partition(b).outputs
    decreases |b|
  {
    if b == [] {
      assert a + b == a;
    } else {
      var init, x := b[..|b| - 1], b[|b| - 1];
      assert (a + b)[..|a + b| - 1] == a + init;
      assert (a + b)[|a + b| - 1] == x;
      PartitionAppend(a, init);
    }
  }

  /** A single row goes to the inputs exactly when it is an input. */
  lemma PartitionOne(x: Row)
    ensures Partition([x]) == if x.isInput then Exchanges([ToData(x)], []) else Exchanges([], [ToData(x)])
  {
    assert [x][..0] == [];
  }

  /** No row is lost or duplicated. */
  lemma {:induction false} PartitionSize(rs: seq<Row>)
    ensures |Partition(rs).inputs| + |Partition(rs).outputs| == |rs|
  {
    if rs != [] {
      PartitionSize(rs[..|rs| - 1]);
    }
  }

  // ---------------------------------------------------------------------------
  // The order of the listed exchanges

  /** `ORDER BY value DESC NULLS LAST` holds of `rs`: no row ranks strictly before an
      earlier one. */
  predicate Ranked(rs: seq<Row>)
  {
    forall i, j :: 0 <= i < j < |rs| ==> !Before(rs[j].value, rs[i].value)
  }

  lemma BeforeTransitive(a: Option<real>, b: Option<real>, c: Option<real>)
    requires Before(a, b) && Before(b, c)
    ensures Before(a, c)
  {
  }

  /** `x` placed in `rs` after every row it does not rank strictly before. */
  function Insert(x: Row, rs: seq<Row>): seq<Row>
  {
    if rs == [] then [x]
    else if Before(x.value, rs[0].value) then [x] + rs
    else [rs[0]] + Insert(x, rs[1..])
  }

  /** The rows in the order the listing query returns them: largest value first, rows
      without a value last. The database leaves the order of tied rows open; the model
      keeps them in table order. */
  function SortByValue(rs: seq<Row>): seq<Row>
  {
    if rs == [] then [] else Insert(rs[|rs| - 1], SortByValue(rs[..|rs| - 1]))
  }

  lemma RankedTail(rs: seq<Row>)
    requires rs != [] && Ranked(rs)
    ensures Ranked(rs[1..])
    ensures forall k :: 1 <= k < |rs| ==> !Before(rs[k].value, rs[0].value)
  {
    forall i, j | 0 <= i < j < |rs[1..]|
      ensures !Before(rs[1..][j].value, rs[1..][i].value)
    {
      assert rs[1..][i] == rs[i + 1] && rs[1..][j] == rs[j + 1];
    }
  }

  /** Inserting into a ranked list keeps it ranked and adds exactly the one row. */
  lemma {:induction false} InsertSpec(x: Row, rs: seq<Row>)
    requires Ranked(rs)
    ensures Ranked(Insert(x, rs))
    ensures multiset(Insert(x, rs)) == multiset(rs) + multiset{x}
  {
    if rs != [] {
      RankedTail(rs);
      if Before(x.value, rs[0].value) {
        InsertFront(x, rs);
      } else {
        InsertSpec(x, rs[1..]);
        InsertLater(x, rs, Insert(x, rs[1..]));
        assert rs == [rs[0]] + rs[1..];
      }
    }
  }

  /** A row ranked strictly before the head of a ranked list can go in front of it. */
  lemma InsertFront(x: Row, rs: seq<Row>)
    requires rs != [] && Ranked(rs) && Before(x.value, rs[0].value)
    ensures Ranked([x] + rs)
  {
    RankedTail(rs);
    var r := [x] + rs;
    forall i, j | 0 <= i < j < |r|
      ensures !Before(r[j].value, r[i].value)
    {
      assert r[j] == rs[j - 1];
      if i == 0 && Before(r[j].value, x.value) {
        BeforeTransitive(r[j].value, x.value, rs[0].value);
      }
    }
  }

  /** The head of a ranked list stays in front of `x` inserted into its tail. */
  lemma InsertLater(x: Row, rs: seq<Row>, t: seq<Row>)
    requires rs != [] && Ranked(rs) && !Before(x.value, rs[0].value)
    requires Ranked(t) && multiset(t) == multiset(rs[1..]) + multiset{x}
    ensures Ranked([rs[0]] + t)
  {
    RankedTail(rs);
    var r := [rs[0]] + t;
    forall i, j | 0 <= i < j < |r|
      ensures !Before(r[j].value, r[i].value)
    {
      if i == 0 {
        var y := t[j - 1];
        assert y in multiset(t);
        if y != x {
          assert y in multiset(rs[1..]);
          var k :| 0 <= k < |rs[1..]| && rs[1..][k] == y;
          assert rs[k + 1] == y;
        }
      } else {
        assert r[i] == t[i - 1] && r[j] == t[j - 1];
      }
    }
  }

  /** The listing order is ranked and a permutation of the listed rows. */
  lemma {:induction false} SortSpec(rs: seq<Row>)
    ensures Ranked(SortByValue(rs))
    ensures multiset(SortByValue(rs)) == multiset(rs)
  {
    if rs != [] {
      var init := rs[..|rs| - 1];
      SortSpec(init);
      InsertSpec(rs[|rs| - 1], SortByValue(init));
      assert rs == init + [rs[|rs| - 1]];
    }
  }

  /** The input rows of `rs`, in order. */
  function InputRows(rs: seq<Row>): (r: seq<Row>)
    ensures forall k :: 0 <= k < |r| ==> r[k] in rs
  {
    if rs == [] then []
    else
      var init := rs[..|rs| - 1];
      if rs[|rs| - 1].isInput then InputRows(init) + [rs[|rs| - 1]] else InputRows(init)
  }

  /** The output rows of `rs`, in order. */
  function OutputRows(rs: seq<Row>): (r: seq<Row>)
    ensures forall k :: 0 <= k < |r| ==> r[k] in rs
  {
    if rs == [] then []
    else
      var init := rs[..|rs| - 1];
      if rs[|rs| - 1].isInput then OutputRows(init) else OutputRows(init) + [rs[|rs| - 1]]
  }

  /** `exchange_data` for each row, in order. */
  function Data(rs: seq<Row>): (r: seq<ExchangeData>)
    ensures |r| == |rs|
    ensures forall k :: 0 <= k < |rs| ==> r[k] == ToData(rs[k])
  {
    if rs == [] then [] else Data(rs[..|rs| - 1]) + [ToData(rs[|rs| - 1])]
  }

  /** The split sends the input rows to `inputs` and the others to `outputs`. */
  lemma {:induction false} PartitionRows(rs: seq<Row>)
    ensures Partition(rs) == Exchanges(Data(InputRows(rs)), Data(OutputRows(rs)))
  {
    if rs != [] {
      PartitionRows(rs[..|rs| - 1]);
    }
  }

  /** Keeping the input rows, or the output rows, of a ranked list keeps it ranked. */
  lemma {:induction false} RankedRows(rs: seq<Row>)
    requires Ranked(rs)
    ensures Ranked(InputRows(rs)) && Ranked(OutputRows(rs))
  {
    if rs != [] {
      var init, x := rs[..|rs| - 1], rs[|rs| - 1];
      assert Ranked(init) by {
        forall i, j | 0 <= i < j < |init|
          ensures !Before(init[j].value, init[i].value)
        {
          assert init[i] == rs[i] && init[j] == rs[j];
        }
      }
      RankedRows(init);
      assert forall y :: y in init ==> !Before(x.value, y.value) by {
        forall y | y in init
          ensures !Before(x.value, y.value)
        {
          var k :| 0 <= k < |init| && init[k] == y;
          assert rs[k] == y;
        }
      }
    }
  }

  /** A row occurs among the input rows as often as among all rows when it is an input,
      and never otherwise; the output rows likewise. */
  lemma {:induction false} RowsCount(rs: seq<Row>, y: Row)
    ensures multiset(InputRows(rs))[y] == if y.isInput then multiset(rs)[y] else 0
    ensures multiset(OutputRows(rs))[y] == if y.isInput then 0 else multiset(rs)[y]
  {
    if rs != [] {
      var init := rs[..|rs| - 1];
      RowsCount(init, y);
      assert rs == init + [rs[|rs| - 1]];
    }
  }

  /** Rows that are a permutation of each other have input rows, and output rows, that
      are permutations of each other. */
  lemma RowsPermutation(a: seq<Row>, b: seq<Row>)
    requires multiset(a) == multiset(b)
    ensures multiset(InputRows(a)) == multiset(InputRows(b))
    ensures multiset(OutputRows(a)) == multiset(OutputRows(b))
  {
    forall y
      ensures multiset(InputRows(a))[y] == multiset(InputRows(b))[y]
      ensures multiset(OutputRows(a))[y] == multiset(OutputRows(b))[y]
    {
      RowsCount(a, y);
      RowsCount(b, y);
    }
  }

  // ---------------------------------------------------------------------------
  // The root's exchanges and the compact text file

  /** `get_all_exchanges`: the listed rows in query order, split into inputs and outputs,
      or the id whose query raised. In editor mode the filter query runs on the filter
      connection first; unlike the selection, an empty filter does not stop the listing. */
  function ListExchanges(s: Store, mode: Mode, pid: ProcessId, c: Session): Answer<Exchanges>
  {
    if mode.Production? && (c.main || pid in s.failing) then Answer(Err(pid), c.(main := true))
    else if mode.Editor? && (c.filter || pid in s.failing) then Answer(Err(pid), c.(filter := true))
    else if c.main then Answer(Err(pid), c)
    else Answer(Ok(Partition(Listing(s, mode, pid))), c)
  }

  /** The rows the listing query returns, in the order it returns them. */
  function Listing(s: Store, mode: Mode, pid: ProcessId): seq<Row>
  {
    SortByValue(AllRows(s, mode, pid, s.rows))
  }

  /** The listing returns each listed row as often as the table holds it, largest value
      first and missing values last, and so do its input rows and its output rows. */
  lemma ListingSpec(s: Store, mode: Mode, pid: ProcessId)
    ensures Ranked(Listing(s, mode, pid)) && multiset(Listing(s, mode, pid)) == multiset(AllRows(s, mode, pid, s.rows))
    ensures Ranked(InputRows(Listing(s, mode, pid))) && Ranked(OutputRows(Listing(s, mode, pid)))
    ensures multiset(InputRows(Listing(s, mode, pid))) == multiset(InputRows(AllRows(s, mode, pid, s.rows)))
    ensures multiset(OutputRows(Listing(s, mode, pid))) == multiset(OutputRows(AllRows(s, mode, pid, s.rows)))
  {
    SortSpec(AllRows(s, mode, pid, s.rows));
    RankedRows(Listing(s, mode, pid));
    RowsPermutation(Listing(s, mode, pid), AllRows(s, mode, pid, s.rows));
  }

  /** The listing raises exactly when the process is failing or a connection it needs has
      failed, and then leaves the connections broken. Otherwise the connections are
      unchanged, and the inputs and the outputs are the data of the listing's input rows
      and output rows, in the listing's order. */
  lemma ListExchangesSpec(s: Store, mode: Mode, pid: ProcessId, c: Session)
    ensures ListExchanges(s, mode, pid, c).result.Err? <==> pid in s.failing || Broken(mode, c)
    ensures ListExchanges(s, mode, pid, c).result.Err? ==>
      ListExchanges(s, mode, pid, c).result.failedId == pid && Broken(mode, ListExchanges(s, mode, pid, c).session)
    ensures ListExchanges(s, mode, pid, c).result.Ok? ==> ListExchanges(s, mode, pid, c).session == c
    ensures ListExchanges(s, mode, pid, c).result.Ok? ==>
      ListExchanges(s, mode, pid, c).result.value
      == Exchanges(Data(InputRows(Listing(s, mode, pid))), Data(OutputRows(Listing(s, mode, pid))))
  {
    PartitionRows(Listing(s, mode, pid));
  }

  /** The name queries for the listed exchanges `ds`: each one's flow, then its unit. */
  function DataIds(ds: seq<ExchangeData>): seq<string>
  {
    if ds == [] then [] else [ds[0].flowId] + UnitIds(ds[0].unitId) + DataIds(ds[1..])
  }

  /** The name queries of one node of the chain walk: its flow and unit when it was
      reached by a flow. */
  function FlowIds(n: ChainNode): seq<string>
  {
    if Truthy(n.flowId) then [n.flowId.value] + UnitIds(n.unitId) else []
  }

  /** The name queries of the chain walk from `current`: each node's process, then its
      flow and unit. */
  function WalkIds(current: Option<ChainNode>): seq<string>
    decreases current
  {
    if current.None? then [] else [current.value.processId] + FlowIds(current.value) + WalkIds(current.value.next)
  }

  /** `generate_compact_txt` without the file it writes: the root's name, the root's
      listed exchanges, the names of their flows and units, then the chain walk with its
      names. The result is the chain length it reports, or the id whose query raised. */
  function Txt(s: Store, mode: Mode, c: Session, head: ChainNode): Answer<nat>
  {
    var a := ListExchanges(s, mode, head.processId, Lookup(s, c, head.processId));
    if a.result.Err? then Answer(Err(a.result.failedId), a.session)
    else
      var ex := a.result.value;
      Answer(Ok(|ChainIds(head)|), LookupAll(s, a.session, DataIds(ex.inputs) + (DataIds(ex.outputs) + WalkIds(Some(head)))))
  }

  /** Writing the text file raises exactly when the root is failing or a connection it
      needs has failed, and then leaves the connections broken; otherwise it reports the
      number of nodes of the chain. With no failing id it leaves the connections alone. */
  lemma TxtSpec(s: Store, mode: Mode, c: Session, head: ChainNode)
    ensures Txt(s, mode, c, head).result.Err? <==> head.processId in s.failing || Broken(mode, c)
    ensures Txt(s, mode, c, head).result.Err? ==>
      Txt(s, mode, c, head).result.failedId == head.processId && Broken(mode, Txt(s, mode, c, head).session)
    ensures Txt(s, mode, c, head).result.Ok? ==> Txt(s, mode, c, head).result.value == |ChainIds(head)|
    ensures s.failing == {} && !Broken(mode, c) ==> Txt(s, mode, c, head) == Answer(Ok(|ChainIds(head)|), c)
  {
    var c1 := Lookup(s, c, head.processId);
    ListExchangesSpec(s, mode, head.processId, c1);
    var a := ListExchanges(s, mode, head.processId, c1);
    if a.result.Ok? {
      var ex := a.result.value;
      LookupAllSpec(s, a.session, DataIds(ex.inputs) + (DataIds(ex.outputs) + WalkIds(Some(head))));
    }
  }

  /** The queries for `ds[i..]` followed by `rest` are those of `ds[i]`, then those for
      `ds[i + 1..]` followed by `rest`. */
  lemma DataStep(s: Store, c: Session, ds: seq<ExchangeData>, i: nat, rest: seq<string>)
    requires i < |ds|
    ensures LookupAll(s, c, DataIds(ds[i..]) + rest)
      == LookupAll(s, LookupAll(s, c, [ds[i].flowId] + UnitIds(ds[i].unitId)), DataIds(ds[i + 1..]) + rest)
  {
    assert ds[i..][0] == ds[i] && ds[i..][1..] == ds[i + 1..];
    var head := [ds[i].flowId] + UnitIds(ds[i].unitId);
    assert DataIds(ds[i..]) + rest == head + (DataIds(ds[i + 1..]) + rest);
    LookupAllAppend(s, c, head, DataIds(ds[i + 1..]) + rest);
  }

  /** The queries of the walk from node `n` are its process, then its flow and unit,
      then those of the walk from the next node. */
  lemma WalkStep(s: Store, c: Session, n: ChainNode)
    ensures LookupAll(s, c, WalkIds(Some(n))) == LookupAll(s, LookupAll(s, Lookup(s, c, n.processId), FlowIds(n)), WalkIds(n.next))
  {
    var ids := WalkIds(Some(n));
    assert ids[0] == n.processId && ids[1..] == FlowIds(n) + WalkIds(n.next);
    LookupAllAppend(s, Lookup(s, c, n.processId), FlowIds(n), WalkIds(n.next));
  }

  /** A cached name: the resolved one, or the placeholder a failed main connection gave;
      and a failing id was looked up, so the main connection has failed ever since. */
  predicate Cached(s: Store, aborted: bool, id: string, entry: string, resolved: string, placeholder: string)
  {
    (entry == resolved || (aborted && entry == placeholder)) && (id in s.failing ==> aborted)
  }

  class MainChainBuilder {
    const store: Store
    const mode: Mode
    var visited: set<ProcessId>
    var session: Session
    var processNames: map<ProcessId, string>
    var flowNames: map<FlowId, string>
    var unitNames: map<string, string>

    /** Every cached name is the one the store resolves the id to, or the placeholder of a
        failed main connection. */
    ghost predicate CachesValid()
      reads this
    {
      && (forall p :: p in processNames ==>
            Cached(store, session.main, p, processNames[p], Names.ChainProcessName(store, p), Names.ProcessPlaceholder(p)))
      && (forall f :: f in flowNames ==>
            Cached(store, session.main, f, flowNames[f], Names.FlowName(store, f), Names.FlowPlaceholder(f)))
      && (forall u :: u in unitNames ==>
            Cached(store, session.main, u, unitNames[u], Names.UnitName(store, u), "N/A"))
    }

    /** The caches only gain entries. */
    twostate predicate CachesGrow()
      reads this
    {
      Extends(old(processNames), processNames) && Extends(old(flowNames), flowNames) && Extends(old(unitNames), unitNames)
    }

    constructor(store: Store, mode: Mode)
      ensures this.store == store && this.mode == mode
      ensures visited == {} && session == Fresh
      ensures processNames == map[] && flowNames == map[] && unitNames == map[]
      ensures CachesValid()
    {
      this.store := store;
      this.mode := mode;
      visited := {};
      session := Fresh;
      processNames := map[];
      flowNames := map[];
      unitNames := map[];
    }

    /** `get_process_name`: a hit returns the cached name; a miss queries the main
        connection and caches the resolved name (row at the configured version, else
        newest row tagged with its version, else placeholder), or the placeholder when
        the connection has failed. */
    method GetProcessName(pid: ProcessId) returns (name: string)
      requires CachesValid()
      modifies this`processNames, this`session
      ensures CachesValid()
      ensures session == Lookup(store, old(session), pid)
      ensures pid in old(processNames) ==> name == old(processNames)[pid] && processNames == old(processNames)
      ensures pid !in old(processNames) ==>
        && name == (if old(session).main then Names.ProcessPlaceholder(pid) else Names.ChainProcessName(store, pid))
        && processNames == old(processNames)[pid := name]
    {
      if pid in processNames {
        return processNames[pid];
      }
      name := if session.main then Names.ProcessPlaceholder(pid) else Names.ChainProcessName(store, pid);
      session := Lookup(store, session, pid);
      processNames := processNames[pid := name];
    }

    /** `get_flow_name`, with the same caching discipline. */
    method GetFlowName(fid: FlowId) returns (name: string)
      requires CachesValid()
      modifies this`flowNames, this`session
      ensures CachesValid()
      ensures session == Lookup(store, old(session), fid)
      ensures fid in old(flowNames) ==> name == old(flowNames)[fid] && flowNames == old(flowNames)
      ensures fid !in old(flowNames) ==>
        && name == (if old(session).main then Names.FlowPlaceholder(fid) else Names.FlowName(store, fid))
        && flowNames == old(flowNames)[fid := name]
    {
      if fid in flowNames {
        return flowNames[fid];
      }
      name := if session.main then Names.FlowPlaceholder(fid) else Names.FlowName(store, fid);
      session := Lookup(store, session, fid);
      flowNames := flowNames[fid := name];
    }

    /** `get_unit_name`: a missing or empty unit id is "N/A" without a query and leaves
        the cache alone; otherwise the same caching discipline. */
    method GetUnitName(uid: Option<string>) returns (name: string)
      requires CachesValid()
      modifies this`unitNames, this`session
      ensures CachesValid()
      ensures session == LookupAll(store, old(session), UnitIds(uid))
      ensures !Truthy(uid) ==> name == "N/A" && unitNames == old(unitNames)
      ensures Truthy(uid) && uid.value in old(unitNames) ==> name == old(unitNames)[uid.value] && unitNames == old(unitNames)
      ensures Truthy(uid) && uid.value !in old(unitNames) ==>
        && name == (if old(session).main then "N/A" else Names.UnitName(store, uid.value))
        && unitNames == old(unitNames)[uid.value := name]
    {
      if !Truthy(uid) {
        return "N/A";
      }
      if uid.value in unitNames {
        return unitNames[uid.value];
      }
      name := if session.main then "N/A" else Names.UnitName(store, uid.value);
      session := Lookup(store, session, uid.value);
      unitNames := unitNames[uid.value := name];
    }

    /** The flow and unit names of one exchange, as every writer of a flow line looks
        them up. */
    method NameExchange(fid: FlowId, uid: Option<string>)
      requires CachesValid()
      modifies this`flowNames, this`unitNames, this`session
      ensures CachesValid() && CachesGrow()
      ensures session == LookupAll(store, old(session), [fid] + UnitIds(uid))
    {
      var flowName := GetFlowName(fid);
      ghost var pn, fn, un := processNames, flowNames, unitNames;
      var unitName := GetUnitName(uid);
      ExtendsTransitive(old(processNames), pn, processNames);
      ExtendsTransitive(old(flowNames), fn, flowNames);
      ExtendsTransitive(old(unitNames), un, unitNames);
      assert ([fid] + UnitIds(uid))[1..] == UnitIds(uid);
    }

    /** `get_all_exchanges`: the listing of `ListExchanges`, copied row by row into the
        input or the output list. */
    method GetAllExchanges(pid: ProcessId) returns (r: Result<Exchanges>)
      modifies this`session
      ensures Answer(r, session) == ListExchanges(store, mode, pid, old(session))
    {
      if mode.Production? && (session.main || pid in store.failing) {
        session := session.(main := true);
        return Err(pid);
      }
      if mode.Editor? && (session.filter || pid in store.failing) {
        session := session.(filter := true);
        return Err(pid);
      }
      if session.main {
        return Err(pid);
      }
      var rows := Listing(store, mode, pid);
      var inputs: seq<ExchangeData> := [];
      var outputs: seq<ExchangeData> := [];
      for i := 0 to |rows|
        invariant Exchanges(inputs, outputs) == Partition(rows[..i])
      {
        assert rows[..i + 1][..i] == rows[..i];
        var d := ToData(rows[i]);
        if rows[i].isInput {
          inputs := inputs + [d];
        } else {
          outputs := outputs + [d];
        }
      }
      assert rows[..|rows|] == rows;
      r := Ok(Exchanges(inputs, outputs));
    }

    /** `get_max_value_exchange` on the builder's connections: the outcome and
        connections of `GetMaxValueExchange`. */
    method QueryMaxValueExchange(pid: ProcessId) returns (r: Result<Option<Row>>)
      requires CachesValid()
      modifies this`session
      ensures Answer(r, session) == GetMaxValueExchange(store, mode, pid, old(session))
      ensures CachesValid()
    {
      var a := GetMaxValueExchange(store, mode, pid, session);
      GetMaxValueExchangeSpec(store, mode, pid, session);
      session := a.session;
      r := a.result;
    }

    /** `build_chain_recursive`: the chain, visited set and connections of `Chain`; the
        name lookups keep the caches valid and only add entries. */
    method BuildChainRecursive(pid: ProcessId, fid: Option<FlowId>, value: real, level: int,
                               uid: Option<string>, gwp: Option<real>, gc: Option<real>) returns (r: Result<ChainNode>)
      requires CachesValid()
      modifies this`visited, this`session, this`processNames, this`flowNames, this`unitNames
      ensures Walk(r, visited, session) == Chain(store, mode, old(visited), old(session), ChainNode(pid, fid, value, level, uid, gwp, gc, None))
      ensures CachesValid() && CachesGrow()
      decreases Unvisited(store, visited), 0
    {
      var node := ChainNode(pid, fid, value, level, uid, gwp, gc, None);
      if pid in visited {
        return Ok(node);
      }
      visited := visited + {pid};
      var mx := QueryMaxValueExchange(pid);
      if mx.Err? {
        return Err(mx.failedId);
      }
      if mx.value.None? {
        var processName := GetProcessName(pid);
        return Ok(node);
      }
      var x := mx.value.value;
      SelectedProvider(store, mode, pid, old(session));
      UnvisitedStrict(store, old(visited), pid);
      r := FollowExchange(node, x);
    }

    /** The step of `build_chain_recursive` past the process of `node`, whose selected
        exchange is `x`: trace the names, build the chain from the provider, and link it. */
    method FollowExchange(node: ChainNode, x: Row) returns (r: Result<ChainNode>)
      requires CachesValid() && node.next.None? && x.providerId.Some?
      modifies this`visited, this`session, this`processNames, this`flowNames, this`unitNames
      ensures Walk(r, visited, session)
        == Link(node, Chain(store, mode, old(visited), LookupAll(store, old(session), TraceIds(node.processId, x)), Follow(x, node.level)))
      ensures CachesValid() && CachesGrow()
      decreases Unvisited(store, visited), 1
    {
      TraceNames(node.processId, x);
      ghost var pn, fn, un, v0, c0 := processNames, flowNames, unitNames, visited, session;
      var up := BuildChainRecursive(x.providerId.value, Some(x.flowId), ValueOf(x.value), node.level + 1,
                                    x.unitId, OrNone(x.gwp), OrNone(x.gwpContribution));
      assert Walk(up, visited, session) == Chain(store, mode, v0, c0, Follow(x, node.level));
      ExtendsTransitive(old(processNames), pn, processNames);
      ExtendsTransitive(old(flowNames), fn, flowNames);
      ExtendsTransitive(old(unitNames), un, unitNames);
      if up.Err? {
        return up;
      }
      r := Ok(node.SetNext(up.value));
    }

    /** The names `build_chain_recursive` looks up to trace the selected exchange: the
        process, the flow and the unit. */
    method TraceNames(pid: ProcessId, x: Row)
      requires CachesValid()
      modifies this`processNames, this`flowNames, this`unitNames, this`session
      ensures CachesValid() && CachesGrow()
      ensures session == LookupAll(store, old(session), TraceIds(pid, x))
    {
      var processName := GetProcessName(pid);
      ghost var pn, fn, un := processNames, flowNames, unitNames;
      NameExchange(x.flowId, x.unitId);
      ExtendsTransitive(old(processNames), pn, processNames);
      ExtendsTransitive(old(flowNames), fn, flowNames);
      ExtendsTransitive(old(unitNames), un, unitNames);
      assert TraceIds(pid, x)[1..] == [x.flowId] + UnitIds(x.unitId);
    }

    /** `generate_compact_txt` without the file it writes: the outcome and connections of
        `Txt`. */
    method GenerateCompactTxt(head: ChainNode) returns (r: Result<nat>)
      requires CachesValid()
      modifies this`processNames, this`flowNames, this`unitNames, this`session
      ensures Answer(r, session) == Txt(store, mode, old(session), head)
      ensures CachesValid() && CachesGrow()
    {
      var rootName := GetProcessName(head.processId);
      var listed := GetAllExchanges(head.processId);
      if listed.Err? {
        return Err(listed.failedId);
      }
      var ex := listed.value;
      ghost var c0, pn, fn, un := session, processNames, flowNames, unitNames;
      NameExchanges(ex.inputs);
      ghost var c1, pn1, fn1, un1 := session, processNames, flowNames, unitNames;
      NameExchanges(ex.outputs);
      ExtendsTransitive(pn, pn1, processNames);
      ExtendsTransitive(fn, fn1, flowNames);
      ExtendsTransitive(un, un1, unitNames);
      ghost var pn2, fn2, un2 := processNames, flowNames, unitNames;
      var count := WalkNames(head);
      ExtendsTransitive(pn, pn2, processNames);
      ExtendsTransitive(fn, fn2, flowNames);
      ExtendsTransitive(un, un2, unitNames);
      ExtendsTransitive(old(processNames), pn, processNames);
      ExtendsTransitive(old(flowNames), fn, flowNames);
      ExtendsTransitive(old(unitNames), un, unitNames);
      LookupAllAppend(store, c1, DataIds(ex.outputs), WalkIds(Some(head)));
      LookupAllAppend(store, c0, DataIds(ex.inputs), DataIds(ex.outputs) + WalkIds(Some(head)));
      r := Ok(count);
    }

    /** The flow and unit names of each listed exchange, in order. */
    method NameExchanges(ds: seq<ExchangeData>)
      requires CachesValid()
      modifies this`flowNames, this`unitNames, this`session
      ensures CachesValid() && CachesGrow()
      ensures session == LookupAll(store, old(session), DataIds(ds))
    {
      assert ds[0..] == ds;
      for i := 0 to |ds|
        invariant CachesValid() && CachesGrow()
        invariant LookupAll(store, session, DataIds(ds[i..])) == LookupAll(store, old(session), DataIds(ds))
      {
        DataStep(store, session, ds, i, []);
        assert DataIds(ds[i..]) + [] == DataIds(ds[i..]) && DataIds(ds[i + 1..]) + [] == DataIds(ds[i + 1..]);
        ghost var pn, fn, un := processNames, flowNames, unitNames;
        NameExchange(ds[i].flowId, ds[i].unitId);
        ExtendsTransitive(old(processNames), pn, processNames);
        ExtendsTransitive(old(flowNames), fn, flowNames);
        ExtendsTransitive(old(unitNames), un, unitNames);
      }
      assert ds[|ds|..] == [];
    }

    /** The chain walk of `generate_compact_txt`: the names of every node, in order; it
        counts every linked node (the depth it reports is one less). */
    method WalkNames(head: ChainNode) returns (count: nat)
      requires CachesValid()
      modifies this`processNames, this`flowNames, this`unitNames, this`session
      ensures CachesValid() && CachesGrow()
      ensures session == LookupAll(store, old(session), WalkIds(Some(head)))
      ensures count == |ChainIds(head)|
    {
      var current := Some(head);
      count := 0;
      while current.Some?
        invariant CachesValid() && CachesGrow()
        invariant LookupAll(store, session, WalkIds(current)) == LookupAll(store, old(session), WalkIds(Some(head)))
        invariant count + Remaining(current) == |ChainIds(head)|
        decreases Remaining(current)
      {
        WalkStep(store, session, current.value);
        ghost var pn, fn, un := processNames, flowNames, unitNames;
        var processName := GetProcessName(current.value.processId);
        if Truthy(current.value.flowId) {
          NameExchange(current.value.flowId.value, current.value.unitId);
        }
        ExtendsTransitive(old(processNames), pn, processNames);
        ExtendsTransitive(old(flowNames), fn, flowNames);
        ExtendsTransitive(old(unitNames), un, unitNames);
        count := count + 1;
        current := current.value.next;
      }
    }
  }

  /** The number of nodes from `current` to the end of the chain. */
  function Remaining(current: Option<ChainNode>): nat
  {
    if current.Some? then |ChainIds(current.value)| else 0
  }
}
