/** The database the builders read, as a value: the exchange table in the order the
    store returns its rows, the editor-mode category table, and the name tables.
    Every SQL query of the builders becomes a function over this value. */
module Store {
  import opened Common

  type ProcessId = string
  type FlowId = string
  type ExchangeId = string

  /** One row of the exchange table: `process_id` consumes `flow_id` from `provider_id`
      when `is_input` holds (an output row otherwise). */
  datatype Row = Row(
    id: ExchangeId,
    processId: ProcessId,
    flowId: FlowId,
    providerId: Option<ProcessId>,
    isInput: bool,
    isDeleted: bool,
    version: string,
    value: Option<real>,
    unitId: Option<string>,
    gwp: Option<real>,
    gwpContribution: Option<real>,
    description: Option<string>)

  /** One row of the editor database's exchange table joined with its process data:
      the category an exchange belongs to. */
  datatype FilterRow = FilterRow(
    id: ExchangeId,
    processId: ProcessId,
    isInput: bool,
    hasProvider: bool,
    isDeleted: bool,
    categoryId: string)

  /** The newest row of a process, of any version. */
  datatype NamedVersion = NamedVersion(name: Option<string>, version: string)

  datatype Store = Store(
    version: string,                              // the configured data version
    rows: seq<Row>,                               // the exchange table
    filterRows: seq<FilterRow>,                   // the editor-mode category table
    processNames: map<ProcessId, Option<string>>, // process row at `version`; its name may be NULL
    latestProcess: map<ProcessId, NamedVersion>,  // newest process row of any version
    flowNames: map<FlowId, Option<string>>,       // flow row at `version`
    unitNames: map<string, Option<string>>,       // unit row
    failing: set<string>)                         // ids whose queries raise
  {
    /** Every process id the exchange table mentions, as consumer or as provider. */
    function Ids(): set<ProcessId>
    {
      RowIds(rows)
    }

    /** The upstream query of the tree builder: the input rows of `pid` that have a
        provider, are not deleted and carry the configured version, in store order. */
    function Upstream(pid: ProcessId): (r: seq<Row>)
      ensures forall k :: 0 <= k < |r| ==> Upstream1(r[k], pid, version)
      ensures HaveProviders(r)
    {
      FilterUpstream(rows, pid, version)
    }
  }

  /** The consumer and provider ids of `rs`. */
  function RowIds(rs: seq<Row>): set<ProcessId>
  {
    if rs == [] then {}
    else
      var x := rs[|rs| - 1];
      RowIds(rs[..|rs| - 1]) + {x.processId} + (if x.providerId.Some? then {x.providerId.value} else {})
  }

  /** Both ends of a row of the table are ids of the table. */
  lemma {:induction false} RowIdsHas(rs: seq<Row>, x: Row)
    requires x in rs
    ensures x.processId in RowIds(rs)
    ensures x.providerId.Some? ==> x.providerId.value in RowIds(rs)
  {
    if x != rs[|rs| - 1] {
      var init := rs[..|rs| - 1];
      assert rs == init + [rs[|rs| - 1]];
      RowIdsHas(init, x);
    }
  }

  predicate Upstream1(x: Row, pid: ProcessId, version: string)
  {
    x.processId == pid && x.isInput && x.providerId.Some? && !x.isDeleted && x.version == version
  }

  function FilterUpstream(rs: seq<Row>, pid: ProcessId, version: string): (r: seq<Row>)
    ensures forall k :: 0 <= k < |r| ==> Upstream1(r[k], pid, version)
  {
    if rs == [] then []
    else
      var init := rs[..|rs| - 1];
      if Upstream1(rs[|rs| - 1], pid, version) then FilterUpstream(init, pid, version) + [rs[|rs| - 1]]
      else FilterUpstream(init, pid, version)
  }

  /** The upstream query returns exactly the qualifying rows of the table. */
  lemma {:induction false} FilterUpstreamSpec(rs: seq<Row>, pid: ProcessId, version: string)
    ensures forall x :: x in FilterUpstream(rs, pid, version) <==> x in rs && Upstream1(x, pid, version)
  {
    if rs != [] {
      var init := rs[..|rs| - 1];
      FilterUpstreamSpec(init, pid, version);
      assert rs == init + [rs[|rs| - 1]];
    }
  }

  /** Every exchange names its provider. */
  predicate HaveProviders(ex: seq<Row>)
  {
    forall k :: 0 <= k < |ex| ==> ex[k].providerId.Some?
  }

  /** Both ends of every upstream row are ids of the store. */
  lemma UpstreamInIds(s: Store, pid: ProcessId)
    ensures s.Upstream(pid) != [] ==> pid in s.Ids()
    ensures forall k :: 0 <= k < |s.Upstream(pid)| ==> s.Upstream(pid)[k].providerId.Some? && s.Upstream(pid)[k].providerId.value in s.Ids()
  {
    FilterUpstreamSpec(s.rows, pid, s.version);
    forall k | 0 <= k < |s.Upstream(pid)|
      ensures s.Upstream(pid)[k].providerId.Some? && s.Upstream(pid)[k].providerId.value in s.Ids()
    {
      RowIdsHas(s.rows, s.Upstream(pid)[k]);
    }
    if s.Upstream(pid) != [] {
      RowIdsHas(s.rows, s.Upstream(pid)[0]);
    }
  }

  /** The measure that makes every traversal terminate: ids of the store not yet visited. */
  function Unvisited(s: Store, visited: set<ProcessId>): nat
  {
    |s.Ids() - visited|
  }

  lemma UnvisitedMono(s: Store, a: set<ProcessId>, b: set<ProcessId>)
    requires a <= b
    ensures Unvisited(s, b) <= Unvisited(s, a)
  {
    SubsetCard(s.Ids() - b, s.Ids() - a);
  }

  lemma UnvisitedStrict(s: Store, a: set<ProcessId>, pid: ProcessId)
    requires pid in s.Ids() && pid !in a
    ensures Unvisited(s, a + {pid}) < Unvisited(s, a)
  {
    var x, y := s.Ids() - (a + {pid}), s.Ids() - a;
    assert y == x + {pid};
    SubsetCard(x, y);
  }

  lemma SubsetCard<T>(x: set<T>, y: set<T>)
    requires x <= y
    ensures |x| <= |y|
    ensures x < y ==> |x| < |y|
  {
    assert y == x + (y - x);
    assert |y| == |x| + |y - x|;
  }
}
