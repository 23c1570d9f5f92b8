# Upstream process traversal, modelled in Dafny

This project models the traversal engine of the UPR supply-chain analysis tools. The
engine walks the "consumes-from-provider" graph held in the exchange table
(`tb_exchanges`) upstream from a root process. There are two walkers:

- **Process tree** (`ProcessTreeBuilder.build_tree_recursive`): a depth-first walk that
  expands every qualifying input exchange. A shared `visited` set breaks cycles.
  - *Skeleton* mode makes one child per exchange.
  - *Full-LCI* mode makes one child per distinct provider. That child carries all of the
    provider's flows, and the walk also fills the `(provider, process) -> flow ids` edge
    table.
- **Main chain** (`MainChainBuilder.build_chain_recursive`): at every process, follow the
  single input exchange of largest value. The result is a linked list that ends at a
  process without qualifying inputs or at a process already visited.

Around the walkers sit the pure consumers of their results, which the model also covers:
tree statistics (level and fan-out histograms, leaves, average fan-out, critical path), the
maximum-depth helper (written out three times in the source), the JSON conversion, the
compact text writer, and the chain-length walk. The batch driver reads the id file, keeps
only UUID-shaped lines, and builds one chain per id.

The database is a value (`Store.Store`):
- the exchange rows, in the order the store returns them;
- the editor database's category rows;
- the name tables;
- the set of ids whose queries raise.

A raised query leaves its psycopg2 connection in a failed transaction: the builders never
commit or roll back, so every later query on that connection raises too, including the
name lookups that swallow their own error. The main chain model threads the state of its
two connections (`MainChain.Session`) through every query, and the batch driver threads it
from one id to the next, since one builder serves the whole batch.

Every SQL query becomes a function over this value. The builders are classes. Their
`visited` sets, name caches and edge table are fields that the methods update. Each method
is proved equal to a specification function (`Build`, `Chain`, `Record`, `CompactLines`,
`Partition`, `IdsOf`, …). The lemmas state what the source promises about those functions.

Modules, one per source file plus shared pieces:

| module | models |
|---|---|
| `Common` | options, results, Python truthiness and slicing, deduplication |
| `Store` | the exchange table and the upstream query |
| `Names` | the name lookups behind the caches, with their placeholders |
| `ProcessTree`, `ProcessTreeProofs` | `src/build_process_tree.py` |
| `MainChain` | `src/build_main_chain.py` |
| `Statistics` | `src/analyze_statistics.py` |
| `Batch` | `batch_main_chain.py` |
| `CompactExport` | `src/export_compact.py` |
| `JsonExport` | `src/export_json.py` |

Skeleton mode appends one child per upstream exchange, although the comment at
src/build_process_tree.py:221 speaks of taking only the first flow of each provider; a second
exchange to the same provider gives a childless cycle leaf (`ProcessTreeProofs.SkeletonChildren`).
The full-LCI edge table holds flow ids only (src/build_process_tree.py:50, 213-217).

## Model

| member | source | states |
|---|---|---|
| `Store.FilterUpstreamSpec` | src/build_process_tree.py:76-106 | the upstream query returns exactly the input rows of the process that have a provider, are not deleted and carry the configured version |
| `Names.TreeProcessName` | src/build_process_tree.py:108-132 | a process name is never empty: the row's name at the configured version, or `Process-` + the first 8 characters of the id + `...` when the row is missing, unnamed or its query raised |
| `Names.ChainProcessName` | src/build_main_chain.py:312-348 | the chain builder's name: the row at the configured version, else the newest row of any version tagged ` [v<version>]`, else the placeholder; a failing query gives the placeholder; never empty |
| `Names.FlowName` | src/build_main_chain.py:350-372 | a flow name is never empty: the row's name, or `Flow-` + 8 characters + `...` |
| `Names.UnitName` | src/build_main_chain.py:374-398 | a unit name is never empty: the unit's name, or `N/A` when it is missing, unnamed or its query raised |
| `ProcessTree.TreeNode.AddChild` | src/build_process_tree.py:31-33 | the child goes after the existing children, the other fields stay, and the child's pre-order ids follow the node's old pre-order ids |
| `ProcessTree.TreeNode.AddFlow` | src/build_process_tree.py:35-38 | the old flows stay a prefix and at most one id is added; the flows gain exactly the id, and only when it is non-empty; a list without duplicates stays without duplicates |
| `ProcessTree.FlowsAfter` | src/build_process_tree.py:35-38 | the flows list after one `add_flow`: the old list stays a prefix, at most one id is added, the members gain exactly the id when it is non-empty, and a list without duplicates stays without duplicates |
| `ProcessTree.MaxDepth` | src/build_process_tree.py:370-380 | `_get_max_depth(node, d)` is `d` for a leaf and `d` plus the height of the subtree in general, so never below `d` |
| `ProcessTree.GroupProviderFlows` | src/build_process_tree.py:191-198 | the `provider_flows` loop computes the grouping of the upstream exchanges by provider |
| `ProcessTree.GroupByProvider` | src/build_process_tree.py:191-198 | the grouping lists each provider once, and every listed provider has a non-empty list of flows |
| `ProcessTree.ExtendEdge` | src/build_process_tree.py:213-217 | the edge key gains the flow ids at the end of its list (an empty list when it was missing); every other key is unchanged |
| `ProcessTree.Build` | src/build_process_tree.py:158-235 | the traversal as a function of the visited set and edge table it starts from: the visited set only grows and always contains the process afterwards |
| `ProcessTree.ProcessTreeBuilder.constructor` | src/build_process_tree.py:44-50 | a fresh builder has an empty visited set, empty caches and an empty edge table |
| `ProcessTree.ProcessTreeBuilder.GetProcessName` | src/build_process_tree.py:108-132 | a cache hit returns the cached name; a miss resolves, stores and returns it; only that key is added, so the cache only grows |
| `ProcessTree.ProcessTreeBuilder.GetFlowName` | src/build_process_tree.py:134-156 | the same caching discipline for flow names |
| `ProcessTree.ProcessTreeBuilder.BuildTreeRecursive` | src/build_process_tree.py:158-235 | the node returned and the visited set and edge table left behind are those of `Build` from the old state |
| `ProcessTree.ProcessTreeBuilder.BuildEachChild` | src/build_process_tree.py:220-233 | the skeleton loop appends one recursively built child per exchange, as `BuildEach` specifies |
| `ProcessTree.ProcessTreeBuilder.AddEachFlow` | src/build_process_tree.py:209-211 | calling `add_flow` for each flow id in turn |
| `ProcessTree.ProcessTreeBuilder.RecordEdge` | src/build_process_tree.py:213-217 | the edge table afterwards is `ExtendEdge` of the old one |
| `ProcessTree.ProcessTreeBuilder.BuildProviderChild` | src/build_process_tree.py:201-219 | one full-LCI round: the provider's subtree built from its first flow, all its flows added, its edge extended |
| `ProcessTree.ProcessTreeBuilder.BuildGroupChildren` | src/build_process_tree.py:200-219 | the full-LCI loop appends one child per provider in grouping order, as `BuildGroups` specifies |
| `ProcessTreeProofs.GroupByProviderSpec` | src/build_process_tree.py:191-201 | the providers come in order of first occurrence, each once, and each carries exactly its exchanges' flows in exchange order |
| `ProcessTreeProofs.GroupByProviderKeys` | src/build_process_tree.py:194-198 | a provider is grouped iff some exchange names it |
| `ProcessTreeProofs.AddFlowsFromEmpty` | src/build_process_tree.py:35-38 | adding flows one by one to an empty list keeps the non-empty ids, each once, in order of first occurrence |
| `ProcessTreeProofs.BuildShape` | src/build_process_tree.py:172-189 | the node is for the process at the given level and flow; every child is one level below its parent; an already visited process gives a childless node and changes nothing; a process without upstream exchanges is a leaf |
| `ProcessTreeProofs.RootShape` | src/build_process_tree.py:410 | the root built by a fresh builder has level 0 and no flow, and levels rise by one per step down the tree |
| `ProcessTreeProofs.BuildEachShape` | src/build_process_tree.py:222-233 | skeleton mode: one child per exchange, in exchange order, each for the exchange's provider and flow at the next level |
| `ProcessTreeProofs.BuildEachLeaves` | src/build_process_tree.py:222-233 | skeleton mode: a child whose provider was visited before or repeats an earlier exchange's provider is a childless cycle leaf |
| `ProcessTreeProofs.SkeletonChildren` | src/build_process_tree.py:220-233 | at a newly visited process the skeleton children are exactly one per upstream exchange in store order, and repeats are cycle leaves |
| `ProcessTreeProofs.ProviderChildShape` | src/build_process_tree.py:203-211 | the full-LCI child is for the provider, reached by its first flow, with flows as `add_flow` leaves them |
| `ProcessTreeProofs.BuildGroupsShape` | src/build_process_tree.py:201-219 | full-LCI mode: one child per provider in grouping order |
| `ProcessTreeProofs.FullChildren` | src/build_process_tree.py:191-219 | full-LCI mode at a newly visited process: one child per distinct provider in first-occurrence order, whose flow is the provider's first flow and whose flows are the provider's non-empty flows, deduplicated, in order |
| `ProcessTreeProofs.BuildVisited` | src/build_process_tree.py:176-181 | the visited set only grows, always gains the process, and gains nothing but the process and ids of the store |
| `ProcessTreeProofs.SkeletonEdges` | src/build_process_tree.py:220-233 | skeleton mode never touches the edge table |
| `ProcessTreeProofs.BuildEdges` | src/build_process_tree.py:213-217 | the edge table only gains keys; entries into already visited processes never change; in full-LCI mode each provider's entry into the process is extended by exactly that provider's flows |
| `MainChain.ChainNode.SetNext` | src/build_main_chain.py:39-41 | only the next link changes, and the chain's ids become the node's id followed by the linked chain's |
| `MainChain.CandidatesSpec` | src/build_main_chain.py:146-211 | the candidates are exactly the qualifying rows: input, with provider, not deleted, at the configured version, and in editor mode let through by the category filter |
| `MainChain.NoValidIds` | src/build_main_chain.py:156-161 | a category filter that lets no exchange through leaves no candidate |
| `MainChain.MaxIndex` | src/build_main_chain.py:184-186 | the kept row has no row ranked above it (missing values rank last) and ranks strictly above every earlier row, so the first of equal maxima wins |
| `MainChain.SelectedUnique` | src/build_main_chain.py:209-211 | the selection rule picks at most one row |
| `MainChain.LookupAllSpec` | src/build_main_chain.py:312-398 | a run of swallowed name queries fails the main connection exactly when it had failed already or one of the ids is failing, and never touches the filter connection |
| `MainChain.LookupAllAppend` | src/build_main_chain.py:439-441 | running the name queries of two runs one after the other is running those of the joined run |
| `MainChain.GetMaxValueExchangeSpec` | src/build_main_chain.py:128-215 | the selection raises exactly for a failing process, for a failed connection its first query needs, and (editor mode) for a failed main connection once the filter lets something through; the connection that raised stays failed and an answer leaves the connections alone; the answer is `None` iff there is no candidate (at once for an empty editor filter), otherwise the selected qualifying candidate |
| `MainChain.SelectedProvider` | src/build_main_chain.py:146-211 | a selected exchange names a provider, and the process is an id of the store |
| `MainChain.Chain` | src/build_main_chain.py:400-468 | the chain as a function of the visited set and connections: the set only grows and contains the process afterwards, and a walk that raised leaves a failed connection behind |
| `MainChain.ChainCases` | src/build_main_chain.py:420-466 | a chain starts with the node for its arguments; a visited process gives a terminal node and changes nothing; a selection that raises fails the walk with the connections it left; no candidate gives a leaf after its name lookup; otherwise the next node is built for the selected exchange's provider at the next level, carrying its flow and value |
| `MainChain.ChainBroken` | src/build_main_chain.py:424-432 | once a connection the walk needs has failed, the walk raises (or, editor mode, ends in a leaf) at its first unvisited process and the connection stays failed |
| `MainChain.TraceFailure` | src/build_main_chain.py:439-463 | production mode: when the flow of the selected exchange is failing and its provider is not yet visited, the swallowed name error makes the walk raise at the provider |
| `MainChain.ChainClean` | src/build_main_chain.py:400-468 | with no failing id and healthy connections the walk never raises and leaves the connections healthy |
| `MainChain.ChainConsecutive` | src/build_main_chain.py:454-463 | levels rise by exactly one along the chain |
| `MainChain.ChainExpanded` | src/build_main_chain.py:424-463 | every node but possibly the last is newly visited and has a distinct id, so the chain is at most one longer than the number of unvisited ids |
| `MainChain.ToData` | src/build_main_chain.py:295-303 | a missing or zero value becomes 0.0, a missing or zero GWP figure becomes `None`, the other fields are copied |
| `MainChain.PartitionAppend` | src/build_main_chain.py:294-308 | the split of a concatenation is the concatenation of the splits, so order is kept |
| `MainChain.PartitionOne` | src/build_main_chain.py:305-308 | a row goes to the inputs iff it is an input, and otherwise to the outputs |
| `MainChain.PartitionSize` | src/build_main_chain.py:289-310 | no row is lost or duplicated |
| `MainChain.MainChainBuilder.constructor` | src/build_main_chain.py:47-60 | a fresh builder has an empty visited set, empty caches and healthy connections |
| `MainChain.MainChainBuilder.GetProcessName` | src/build_main_chain.py:312-348 | a hit returns the cached name; a miss stores and returns the resolved name, or the placeholder when the main connection has failed; either way the query's effect on the connection is that of `Lookup` |
| `MainChain.MainChainBuilder.GetFlowName` | src/build_main_chain.py:350-372 | the same discipline for flows |
| `MainChain.MainChainBuilder.GetUnitName` | src/build_main_chain.py:374-398 | an empty unit id gives `N/A` without a query and leaves the cache alone; otherwise a hit or a stored miss, a missing name becoming `N/A` |
| `MainChain.MainChainBuilder.NameExchange` | src/build_main_chain.py:615-617 | the flow and unit lookups of one exchange: caches stay valid and only grow, and the connections are those of the two queries |
| `MainChain.MainChainBuilder.GetAllExchanges` | src/build_main_chain.py:217-310 | the outcome and connections are those of `ListExchanges` from the old connections |
| `MainChain.SortSpec` | src/build_main_chain.py:264 | the listing order is `value DESC NULLS LAST` and a permutation of the listed rows |
| `MainChain.InsertSpec` | src/build_main_chain.py:264 | inserting a row into a ranked list keeps it ranked and adds exactly that row |
| `MainChain.PartitionRows` | src/build_main_chain.py:294-308 | the split is exactly the input rows, then exactly the output rows, each in listing order |
| `MainChain.RankedRows` | src/build_main_chain.py:264 | the input rows, and the output rows, of a ranked listing are ranked, as `is_input DESC, value DESC` lists them |
| `MainChain.RowsCount` | src/build_main_chain.py:294-308 | an input row occurs among the input rows as often as among all rows, an output row never; the output rows likewise |
| `MainChain.RowsPermutation` | src/build_main_chain.py:289-310 | permuted rows have permuted input rows and permuted output rows |
| `MainChain.ListingSpec` | src/build_main_chain.py:245-286 | the listing returns each qualifying row as often as the table holds it, largest value first and missing values last, and so do its inputs and its outputs |
| `MainChain.ListExchangesSpec` | src/build_main_chain.py:217-310 | the listing raises exactly for a failing process or a failed connection it needs, and leaves a failed connection; otherwise it leaves the connections alone and gives the input rows and the output rows of the listing, in order |
| `MainChain.MainChainBuilder.QueryMaxValueExchange` | src/build_main_chain.py:128-215 | the outcome and connections are those of `GetMaxValueExchange` from the old connections |
| `MainChain.MainChainBuilder.BuildChainRecursive` | src/build_main_chain.py:400-468 | the chain, visited set and connections left behind are those of `Chain`; the name lookups keep the caches valid and only add entries |
| `MainChain.MainChainBuilder.FollowExchange` | src/build_main_chain.py:436-463 | the step past a selected exchange: the traced names, then `Chain` from the provider linked after the node |
| `MainChain.MainChainBuilder.TraceNames` | src/build_main_chain.py:439-441 | the traced lookups keep the caches valid, only add entries, and leave the connections of the three queries |
| `MainChain.TxtSpec` | src/build_main_chain.py:575-681 | writing the text raises exactly for a failing root or a failed connection, leaving a failed connection; otherwise it reports the number of chain nodes, and with no failing id it leaves the connections alone |
| `MainChain.MainChainBuilder.GenerateCompactTxt` | src/build_main_chain.py:575-681 | the outcome and connections are those of `Txt` from the old connections; caches stay valid and only grow |
| `MainChain.MainChainBuilder.NameExchanges` | src/build_main_chain.py:613-640 | the flow and unit names of each listed exchange, in order |
| `MainChain.MainChainBuilder.WalkNames` | src/build_main_chain.py:647-678 | the walk looks up each node's names in order and counts exactly the linked nodes (the reported depth is one less) |
| `Statistics.Histogram.Bump` | src/analyze_statistics.py:40-44 | `h[k] += 1` raises the count of `k` by one and leaves every other count alone |
| `Statistics.BumpTotal` | src/analyze_statistics.py:40-44 | one increment adds one to the histogram's sum, and `k` to its fan-out-weighted sum |
| `Statistics.TreeStatistics.constructor` | src/analyze_statistics.py:20-28 | fresh statistics are empty |
| `Statistics.TreeStatistics.Analyze` | src/analyze_statistics.py:30-32 | the statistics record the whole tree in pre-order |
| `Statistics.TreeStatistics.TraverseTree` | src/analyze_statistics.py:34-52 | recording a node then each child's subtree is recording the subtree's pre-order |
| `Statistics.RecordTotals` | src/analyze_statistics.py:36-48 | recording adds one count per node to each histogram, the children count to the fan-out sum, and one leaf per childless node |
| `Statistics.ChildCountTree` | src/analyze_statistics.py:68-72 | a tree of `n` nodes has `n - 1` children in all |
| `Statistics.AnalyzeSpec` | src/analyze_statistics.py:34-52 | after `analyze`, `all_nodes` is the pre-order of ids; both histograms sum to the node count; the fan-out sum is the node count less one; the leaves match the count of fan-out 0 |
| `Statistics.AnalyzeLeaves` | src/analyze_statistics.py:43-48 | `leaf_nodes` holds the ids of exactly the childless nodes, in pre-order |
| `Statistics.LargestKey` | src/analyze_statistics.py:54-58 | 0 for an empty histogram, otherwise a key of it that no key exceeds |
| `Statistics.TreeStatistics.GetMaxDepth` | src/analyze_statistics.py:54-58 | 0 when no level was recorded, otherwise the largest recorded level |
| `Statistics.MaxDepthSpec` | src/analyze_statistics.py:54-58 | for a built tree the largest recorded level is the root's level plus the tree's height, agreeing with `_get_max_depth` |
| `Statistics.AvgFanoutSpec` | src/analyze_statistics.py:60-74 | the average fan-out's numerator is the node count less one and its divisor the number of nodes with children |
| `Statistics.NonLeafNodes` | src/analyze_statistics.py:65-66 | the root has no children iff every node of the tree is a leaf, so the corrected divisor is zero (the `return 0.0` case) exactly for a lone root; the divisor as written is zero also for a root whose only child is itself (see Findings) |
| `Statistics.AvgFanoutCountsIds` | src/analyze_statistics.py:62-74 | on a root whose child leads back to the root, the divisor as written gives 2.0 where the nodes with children average 1.0 |
| `Statistics.AvgFanoutSelfLoop` | src/analyze_statistics.py:62-66 | on a root whose only upstream exchange points to itself, the divisor as written is zero and gives 0.0 where the one node with children has 1.0 |
| `Statistics.AvgFanoutAgrees` | src/analyze_statistics.py:60-74 | on a tree in which no id occurs twice, the average as written equals the corrected average |
| `Statistics.TreeStatistics.GetAvgFanout` | src/analyze_statistics.py:60-74 | `get_avg_fanout` as written; a tree without children gives 0.0 |
| `Statistics.Deepest` | src/analyze_statistics.py:84-88 | the chosen child has the largest height and every earlier child is strictly lower, so the first deepest child wins |
| `Statistics.LongestStep` | src/analyze_statistics.py:85-88 | a child's path replaces the longest so far iff it is strictly longer |
| `Statistics.TreeStatistics.FindLongestPath` | src/analyze_statistics.py:80-90 | the loop computes the critical path of the node |
| `Statistics.TreeStatistics.GetCriticalPath` | src/analyze_statistics.py:76-92 | the critical path of the root |
| `Statistics.CriticalPathSpec` | src/analyze_statistics.py:76-92 | the path starts at the root, each next id is a child's, it ends at a leaf, and its length is the height plus one |
| `Statistics.PathLength` | src/analyze_statistics.py:80-90 | no root-to-leaf path is longer than the critical path |
| `Batch.BeforeHash` | batch_main_chain.py:50 | the text before the first `#`: a prefix with no `#`, followed by `#` when shorter |
| `Batch.CountCharSpec` | batch_main_chain.py:53 | `count('-')` is the multiplicity of `-` |
| `Batch.StripSpec` | batch_main_chain.py:45 | `strip()` leaves a slice with whitespace only around it and no whitespace at either end |
| `Batch.ReadProcessIds` | batch_main_chain.py:25-58 | a missing file gives no ids; otherwise the ids the lines contribute, in file order |
| `Batch.ParseLineSpec` | batch_main_chain.py:44-56 | blank and `#` lines give nothing; an accepted id is 36 characters with four `-`, without `#` or surrounding whitespace |
| `Batch.ParseLinePadded` | batch_main_chain.py:44-56 | a well-formed id padded by whitespace and optionally followed by a `#` comment is read back exactly |
| `Batch.IdsOfSpec` | batch_main_chain.py:42-58 | an id is read iff some line gives it, and every id read is UUID-shaped |
| `Batch.IdsOfAppend` | batch_main_chain.py:43-54 | the ids of a file are those of its first lines followed by those of the rest |
| `Batch.AnalyzeMainChains` | batch_main_chain.py:61-152 | an empty list gives nothing; otherwise the two lists are those of `Run`: each id in turn on one builder, from a cleared visited set and the connections the earlier ids left, lands in `success` or `failed` |
| `Batch.AttemptSticky` | batch_main_chain.py:108-152 | one id's attempt raises whenever a connection it needs has failed, and a raised attempt leaves such a connection failed |
| `Batch.AttemptClean` | batch_main_chain.py:117-143 | with no failing id an attempt from healthy connections succeeds and leaves them healthy |
| `Batch.BatchStep` | batch_main_chain.py:117-152 | one more id adds its entry to exactly one of the two lists |
| `Batch.BatchBroken` | batch_main_chain.py:108-152 | a batch starting on a failed connection has no success, and a batch with a failure ends on a failed connection |
| `Batch.BatchOrder` | batch_main_chain.py:112-152 | the ids of `success` followed by those of `failed` are exactly the batch's ids in order: the batch succeeds up to its first failure and fails from there on |
| `Batch.FirstFailure` | batch_main_chain.py:117-152 | a batch whose first attempt raises fails for every id |
| `Batch.FirstSucceeds` | batch_main_chain.py:117-143 | a batch with a success has a first id whose attempt succeeds |
| `Batch.FailingFirstId` | batch_main_chain.py:117-152 | a batch whose first id is failing has no success: every id, failing or not, is reported failed |
| `Batch.RunClean` | batch_main_chain.py:117-143 | attempts that all succeed and keep the connections make every id succeed, in order |
| `Batch.CleanBatch` | batch_main_chain.py:117-143 | with no failing id every id of the batch succeeds, in order, and the connections stay healthy |
| `Batch.BatchAppend` | batch_main_chain.py:117-152 | a batch's results are those of its first part followed by those of the rest run from the connections the first part left |
| `CompactExport.CompactExporter.MaxDepth` | src/export_compact.py:115-125 | the exporter's copy returns the same value as the builder's: `d` for a leaf, `d` plus the height in general |
| `CompactExport.CompactExporter.WriteCompactNode` | src/export_compact.py:127-192 | the buffer gains exactly the subtree's lines after what it held; only the two name caches of the builder change, and they keep every entry and stay correct; its visited set and edge table are untouched |
| `CompactExport.CompactExporter.WriteChildren` | src/export_compact.py:190-192 | each child's block is appended in order, one level deeper; the name caches stay correct and only grow |
| `CompactExport.CompactExporter.WriteOwnLines` | src/export_compact.py:138-188 | the node's own lines are appended; the name caches stay correct and only grow |
| `CompactExport.CompactExporter.WriteFullLines` | src/export_compact.py:164-188 | full-LCI: the node's line, then its flows, or its single flow id; the name caches stay correct and only grow |
| `CompactExport.CompactExporter.ProcessLabel` | src/export_compact.py:141-145 | `id | name` when names are included, the bare id otherwise; the name caches stay correct and only grow |
| `CompactExport.CompactExporter.FlowLabel` | src/export_compact.py:150-154 | `flow_id | flow_name` or the bare flow id; the name caches stay correct and only grow |
| `CompactExport.CompactExporter.WriteFlowLines` | src/export_compact.py:173-180 | one line per flow, in order; the name caches stay correct and only grow |
| `CompactExport.FlowLinesIndex` | src/export_compact.py:173-180 | one flow line per flow, position by position |
| `CompactExport.SkeletonIdOnly` | src/export_compact.py:153-160 | the id-only skeleton line is `id << flow_id` when the flow id is set, else the bare id |
| `CompactExport.FullNodeLineCount` | src/export_compact.py:164-188 | full-LCI: a node contributes 1 + the number of its flows, or 1 + (1 if it has a flow id) |
| `CompactExport.LineCounts` | src/export_compact.py:147-192 | skeleton mode writes exactly one line per tree node; full-LCI mode the sum of the per-node counts |
| `CompactExport.SkeletonPreOrder` | src/export_compact.py:147-162 | for a built tree, skeleton mode writes the nodes' lines in pre-order, each at its own level |
| `CompactExport.Indented` | src/export_compact.py:138 | every line of a subtree written at level `L` starts with `2·L` spaces; children are written one level deeper |
| `JsonExport.MaxDepth` | src/export_json.py:74-84 | the exporter's copy: `d` for a leaf, `d` plus the height in general |
| `JsonExport.Converted` | src/export_json.py:39-41 | the children list converts each child in order, one entry per child |
| `JsonExport.NodeToDictKeys` | src/export_json.py:28-45 | the keys in insertion order, the flow keys exactly when the flow id is truthy, none repeated |
| `JsonExport.NodeToDictFields` | src/export_json.py:28-45 | id and level copied, the resolved process and flow names, flow entries iff the flow id is truthy, `children` one converted entry per child and `children_count` the number of children |
| `JsonExport.DictRoundTrip` | src/export_json.py:38-41 | reading the dict back gives the node tree's shape, ids, levels and (non-empty) flow ids |

## Left out

- The PostgreSQL connections, cursors and SQL text are left out. The database is the value
  `Store.Store`. A query that raises is modelled by its id being in `Store.failing`. What a
  raised query does to its connection is modelled for the main chain builder and the batch
  driver (`MainChain.Session`), not for the tree builder (next lines).
- The `ORDER BY flow_id` of `get_upstream_exchanges` is not modelled: the upstream rows
  come in the order of `Store.rows`, because that text order depends on the database's
  collation, which lies outside the model. The `ORDER BY value DESC NULLS LAST LIMIT 1` of
  `get_max_value_exchange` is modelled (`MainChain.MaxIndex`), and so is the
  `ORDER BY is_input DESC, value DESC NULLS LAST` of `get_all_exchanges`
  (`MainChain.ListingSpec`). Rows of equal value keep their table order there, an order
  PostgreSQL leaves unspecified.
- Store failures in the tree builder's upstream query are left out. There they propagate
  to the caller's outer handler and end the run; the tree builder's model has no error path.
- ProcessTree.ProcessTreeBuilder.GetProcessName: gives the placeholder for a failing id
  only. In the source the tree builder's one connection then stays in its failed
  transaction, so every later name of that builder is a placeholder too and its next
  upstream query raises. The tree model resolves each name on its own, and the exporters'
  lines (`CompactExport.CompactLines`, `JsonExport.NodeToDict`) rest on that.
- ProcessTree.ProcessTreeBuilder.GetFlowName: the same per-id placeholder for flow names.
- Printing, trace output, timestamps, file writing, `os.makedirs` and `os.path.getsize` are
  left out, and so are the `[:50]` truncations used only in trace output.
- The Markdown writers (`generate_markdown`, `_write_tree_node`), the file writing of
  `generate_compact_txt` (only its chain walk is modelled), `export` and `generate_report`
  are left out: they are string formatting over the same traversals.
- Floating-point formatting is left out. Values are `real`, and only their order and their
  zeroness matter.
- `analyze_main_chains` prints its results and returns nothing. The model returns the
  `success`/`failed` lists it builds, and a failure's `str(e)` is the failing id.
- `JsonExport.NodeToDict` resolves names with the pure functions of `Names`, not through
  the builder's caches. `ProcessTree.ProcessTreeBuilder.GetProcessName` and `GetFlowName`
  prove that the caches return exactly those names.
- `MainChain.ChainCases` states the next node's identity, flow and value for a chain that
  did not fail. After a failure deeper in the chain, no node is returned at all.
- `argparse`, `main`, `run`, the CLI menu, the Graphviz wrapper, the ad-hoc database probes,
  `config` and `batch_analysis.py` are not part of this model.

## Findings

| source | as written | input that shows it | evidently intended | confidence | as-written member | corrected member |
|---|---|---|---|---|---|---|
| src/analyze_statistics.py:62-74 | the divisor of `get_avg_fanout` counts the recorded ids that do not occur among the leaf ids, so an expanded process whose id also appears as a cycle leaf is dropped from it | root `A` with child `B`, whose only upstream exchange points back to `A`: ids `A, B, A`, leaves `A`, giving 2 children / 1 = 2.0; root `A` whose only upstream exchange points to `A` itself: ids `A, A`, leaves `A`, no id left, giving 0.0 | the number of nodes with children: 2, giving 1.0; and 1, giving 1.0 | not executed; high | `Statistics.AvgFanoutAsWritten`, `Statistics.TreeStatistics.GetAvgFanout`, `Statistics.AvgFanoutCountsIds`, `Statistics.AvgFanoutSelfLoop` | `Statistics.AvgFanout`, `Statistics.AvgFanoutSpec`, `Statistics.AvgFanoutAgrees` |
