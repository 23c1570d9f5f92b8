/** The JSON exporter's conversion of a process tree into nested dictionaries. A Python
    dict becomes an object whose fields keep their insertion order. */
module JsonExport {
  import opened Common
  import opened Store
  import opened Names
  import opened ProcessTree

  datatype Json = JStr(str: string) | JInt(num: int) | JArr(items: seq<Json>) | JObj(fields: seq<(string, Json)>)

  /** The position of the first field named `k`, or `|fs|` when there is none. */
  function Find(fs: seq<(string, Json)>, k: string): (r: nat)
    ensures r <= |fs|
    ensures r < |fs| ==> fs[r].0 == k
    ensures forall i :: 0 <= i < r ==> fs[i].0 != k
  {
    if fs == [] then 0 else if fs[0].0 == k then 0 else 1 + Find(fs[1..], k)
  }

  /** The value of key `k` of an object, as Python's `d.get(k)`. */
  function Get(j: Json, k: string): Option<Json>
  {
    if j.JObj? && Find(j.fields, k) < |j.fields| then Some(j.fields[Find(j.fields, k)].1) else None
  }

  function Keys(fs: seq<(string, Json)>): seq<string>
  {
    if fs == [] then [] else [fs[0].0] + Keys(fs[1..])
  }

  /** `node_to_dict`: the id, name and level; the flow id and name when the node has a
      (non-empty) flow; the converted children and their number. */
  function NodeToDict(s: Store, n: TreeNode): Json
    decreases n, 1
  {
    JObj([("process_id", JStr(n.processId)), ("process_name", JStr(TreeProcessName(s, n.processId))), ("level", JInt(n.level))]
      + (if Truthy(n.flowId) then [("flow_id", JStr(n.flowId.value)), ("flow_name", JStr(FlowName(s, n.flowId.value)))] else [])
      + (if n.children != [] then
           [("children", JArr(Converted(s, n.children))),
            ("children_count", JInt(|n.children|))]
         else [("children", JArr([])), ("children_count", JInt(0))]))
  }

  /** The keys of the dict, in insertion order: the flow keys appear exactly when the
      node's flow id is truthy, and no key appears twice. */
  lemma NodeToDictKeys(s: Store, n: TreeNode)
    ensures Keys(NodeToDict(s, n).fields) == ["process_id", "process_name", "level"]
      + (if Truthy(n.flowId) then ["flow_id", "flow_name"] else []) + ["children", "children_count"]
    ensures Distinct(Keys(NodeToDict(s, n).fields))
  {
    var fs := NodeToDict(s, n).fields;
    var ks := ["process_id", "process_name", "level"] + (if Truthy(n.flowId) then ["flow_id", "flow_name"] else []) + ["children", "children_count"];
    assert Keys(fs) == ks by {
      KeysIndex(fs);
    }
    assert Distinct(ks) by {
      DistinctKeys(n);
    }
  }

  lemma {:induction false} KeysIndex(fs: seq<(string, Json)>)
    ensures |Keys(fs)| == |fs|
    ensures forall i :: 0 <= i < |fs| ==> Keys(fs)[i] == fs[i].0
  {
    if fs != [] {
      KeysIndex(fs[1..]);
    }
  }

  lemma DistinctKeys(n: TreeNode)
    ensures Distinct(["process_id", "process_name", "level"] + (if Truthy(n.flowId) then ["flow_id", "flow_name"] else []) + ["children", "children_count"])
  {
    var ks := ["process_id", "process_name", "level"] + (if Truthy(n.flowId) then ["flow_id", "flow_name"] else []) + ["children", "children_count"];
    forall i, j | 0 <= i < j < |ks|
      ensures ks[i] != ks[j]
    {
      assert |ks[i]| != |ks[j]|;
    }
  }

  /** The values of the dict: id and level copied, the tree builder's names, the flow
      entries exactly for a truthy flow id, and the children converted in order with
      their count. */
  lemma NodeToDictFields(s: Store, n: TreeNode)
    ensures Get(NodeToDict(s, n), "process_id") == Some(JStr(n.processId))
    ensures Get(NodeToDict(s, n), "process_name") == Some(JStr(TreeProcessName(s, n.processId)))
    ensures Get(NodeToDict(s, n), "level") == Some(JInt(n.level))
    ensures Get(NodeToDict(s, n), "flow_id") == if Truthy(n.flowId) then Some(JStr(n.flowId.value)) else None
    ensures Get(NodeToDict(s, n), "flow_name") == if Truthy(n.flowId) then Some(JStr(FlowName(s, n.flowId.value))) else None
    ensures Get(NodeToDict(s, n), "children_count") == Some(JInt(|n.children|))
    ensures Get(NodeToDict(s, n), "children") == Some(JArr(Converted(s, n.children)))
  {
    NodeToDictFixed(s, n);
    NodeToDictFlow(s, n);
  }

  lemma NodeToDictFixed(s: Store, n: TreeNode)
    ensures Get(NodeToDict(s, n), "process_id") == Some(JStr(n.processId))
    ensures Get(NodeToDict(s, n), "process_name") == Some(JStr(TreeProcessName(s, n.processId)))
    ensures Get(NodeToDict(s, n), "level") == Some(JInt(n.level))
    ensures Get(NodeToDict(s, n), "children_count") == Some(JInt(|n.children|))
    ensures Get(NodeToDict(s, n), "children") == Some(JArr(Converted(s, n.children)))
  {
    var fs := NodeToDict(s, n).fields;
    NodeToDictKeys(s, n);
    KeysIndex(fs);
    var off := if Truthy(n.flowId) then 2 else 0;
    FindAt(fs, 0);
    FindAt(fs, 1);
    FindAt(fs, 2);
    FindAt(fs, 3 + off);
    FindAt(fs, 4 + off);
    if n.children == [] {
      assert Converted(s, n.children) == [];
    }
  }

  lemma NodeToDictFlow(s: Store, n: TreeNode)
    ensures Get(NodeToDict(s, n), "flow_id") == if Truthy(n.flowId) then Some(JStr(n.flowId.value)) else None
    ensures Get(NodeToDict(s, n), "flow_name") == if Truthy(n.flowId) then Some(JStr(FlowName(s, n.flowId.value))) else None
  {
    var fs := NodeToDict(s, n).fields;
    NodeToDictKeys(s, n);
    KeysIndex(fs);
    if Truthy(n.flowId) {
      FindAt(fs, 3);
      FindAt(fs, 4);
    } else {
      FindMissing(fs, "flow_id");
      FindMissing(fs, "flow_name");
    }
  }

  /** Each child converted by `node_to_dict`, in order. */
  function Converted(s: Store, cs: seq<TreeNode>): (r: seq<Json>)
    ensures |r| == |cs|
    ensures forall i :: 0 <= i < |cs| ==> r[i] == NodeToDict(s, cs[i])
    decreases cs, 0
  {
    seq(|cs|, i requires 0 <= i < |cs| => NodeToDict(s, cs[i]))
  }

  /** With distinct keys, the key at position `i` is found at `i`. */
  lemma FindAt(fs: seq<(string, Json)>, i: nat)
    requires i < |fs|
    requires |Keys(fs)| == |fs| && (forall k :: 0 <= k < |fs| ==> Keys(fs)[k] == fs[k].0)
    requires Distinct(Keys(fs))
    ensures Find(fs, fs[i].0) == i
  {
    var r := Find(fs, fs[i].0);
    assert r <= i;
    assert Keys(fs)[r] == Keys(fs)[i];
  }

  lemma {:induction false} FindMissing(fs: seq<(string, Json)>, k: string)
    requires forall i :: 0 <= i < |fs| ==> fs[i].0 != k
    ensures Find(fs, k) == |fs|
  {
    if fs != [] {
      FindMissing(fs[1..], k);
    }
  }

  /** The exporter's own copy of `_get_max_depth`, used for the `max_depth` metadata:
      `currentDepth` for a leaf, otherwise `currentDepth` plus the subtree's height, the
      same value as the tree builder's helper. */
  method MaxDepth(node: TreeNode, currentDepth: int) returns (r: int)
    ensures r == currentDepth + Height(node)
    ensures node.children == [] ==> r == currentDepth
    ensures r >= currentDepth
    decreases node
  {
    if node.children == [] {
      return currentDepth;
    }
    var maxChildDepth := currentDepth;
    for i := 0 to |node.children|
      invariant maxChildDepth == currentDepth + (if i == 0 then 0 else 1 + MaxHeight(node.children[..i]))
    {
      var childDepth := MaxDepth(node.children[i], currentDepth + 1);
      assert node.children[..i + 1][..i] == node.children[..i];
      maxChildDepth := if childDepth > maxChildDepth then childDepth else maxChildDepth;
    }
    assert node.children[..|node.children|] == node.children;
    r := maxChildDepth;
  }

  // ---------------------------------------------------------------------------
  // Reading a dict back

  /** The node a dict describes: its id, its flow id when present, its level and its
      children read back the same way; `None` for anything `node_to_dict` never makes. */
  function DictToNode(j: Json): Option<TreeNode>
    decreases j
  {
    if !j.JObj? then None
    else
      var fs := j.fields;
      var p, l, c, f := Find(fs, "process_id"), Find(fs, "level"), Find(fs, "children"), Find(fs, "flow_id");
      if p < |fs| && fs[p].1.JStr? && l < |fs| && fs[l].1.JInt? && c < |fs| && fs[c].1.JArr?
         && (f < |fs| ==> fs[f].1.JStr?)
         && (forall i :: 0 <= i < |fs[c].1.items| ==> DictToNode(fs[c].1.items[i]).Some?)
      then
        var items := fs[c].1.items;
        Some(TreeNode(fs[p].1.str, if f < |fs| then Some(fs[f].1.str) else None, [], fs[l].1.num,
                      seq(|items|, i requires 0 <= i < |items| => DictToNode(items[i]).value)))
      else None
  }

  /** What the dict of a node records: the node without its flow list, with an empty flow
      id dropped, and so on down the tree. */
  function Exported(n: TreeNode): (r: TreeNode)
    ensures r.processId == n.processId && r.level == n.level && |r.children| == |n.children|
    decreases n
  {
    TreeNode(n.processId, if Truthy(n.flowId) then n.flowId else None, [], n.level,
             seq(|n.children|, i requires 0 <= i < |n.children| => Exported(n.children[i])))
  }

  /** `DictToNode` on an object, in terms of the values of its keys. */
  lemma ReadBack(j: Json, items: seq<Json>)
    requires j.JObj? && Get(j, "process_id").Some? && Get(j, "process_id").value.JStr?
    requires Get(j, "level").Some? && Get(j, "level").value.JInt?
    requires Get(j, "children") == Some(JArr(items))
    requires Get(j, "flow_id").Some? ==> Get(j, "flow_id").value.JStr?
    requires forall i :: 0 <= i < |items| ==> DictToNode(items[i]).Some?
    ensures DictToNode(j).Some?
    ensures var r := DictToNode(j).value;
      && r.processId == Get(j, "process_id").value.str
      && r.flowId == (if Get(j, "flow_id").Some? then Some(Get(j, "flow_id").value.str) else None)
      && r.flows == [] && r.level == Get(j, "level").value.num
      && |r.children| == |items| && forall i :: 0 <= i < |items| ==> r.children[i] == DictToNode(items[i]).value
  {
  }

  /** Reading back the dict of a node gives the node as exported: the dict tree has the
      node tree's shape, ids, levels and flows. */
  lemma {:induction false} DictRoundTrip(s: Store, n: TreeNode)
    ensures DictToNode(NodeToDict(s, n)) == Some(Exported(n))
    decreases n
  {
    var items := Converted(s, n.children);
    forall i | 0 <= i < |items|
      ensures DictToNode(items[i]) == Some(Exported(n.children[i]))
    {
      DictRoundTrip(s, n.children[i]);
    }
    NodeToDictFields(s, n);
    ReadBack(NodeToDict(s, n), items);
    var back := DictToNode(NodeToDict(s, n)).value;
    assert back.children == Exported(n).children by {
      assert forall i :: 0 <= i < |items| ==> back.children[i] == Exported(n).children[i];
    }
  }
}
