/** Display-name resolution as the builders perform it on a cache miss. Each function
    is the value a name cache stores for an id; a failing query degrades to the
    placeholder instead of raising. */
module Names {
  import opened Common
  import opened Store

  function ProcessPlaceholder(pid: ProcessId): string
  {
    "Process-" + Take(pid, 8) + "..."
  }

  function FlowPlaceholder(fid: FlowId): string
  {
    "Flow-" + Take(fid, 8) + "..."
  }

  /** Python's f-string rendering of an optional name. */
  function Text(name: Option<string>): string
  {
    match name
    case Some(n) => n
    case None => "None"
  }

  /** The tree builder's process name: the row at the configured version, or the placeholder. */
  function TreeProcessName(s: Store, pid: ProcessId): (r: string)
    ensures r != ""
    ensures r == ProcessPlaceholder(pid) || (pid in s.processNames && Truthy(s.processNames[pid]) && r == s.processNames[pid].value)
    ensures pid !in s.failing && pid in s.processNames && Truthy(s.processNames[pid]) ==> r == s.processNames[pid].value
  {
    if pid !in s.failing && pid in s.processNames && Truthy(s.processNames[pid]) then s.processNames[pid].value
    else ProcessPlaceholder(pid)
  }

  /** The chain builder's process name: the row at the configured version; when there is
      none, the newest row of any version tagged with that version; else the placeholder.
      A row at the configured version whose name is empty gives the placeholder. */
  function ChainProcessName(s: Store, pid: ProcessId): (r: string)
    ensures r != ""
    ensures pid in s.failing ==> r == ProcessPlaceholder(pid)
    ensures pid !in s.failing && pid !in s.processNames && pid in s.latestProcess ==>
      r == Text(s.latestProcess[pid].name) + " [v" + s.latestProcess[pid].version + "]"
    ensures pid !in s.failing && pid !in s.processNames && pid !in s.latestProcess ==> r == ProcessPlaceholder(pid)
    ensures pid !in s.failing && pid in s.processNames ==>
      r == if Truthy(s.processNames[pid]) then s.processNames[pid].value else ProcessPlaceholder(pid)
  {
    if pid in s.failing then ProcessPlaceholder(pid)
    else if pid in s.processNames then
      (if Truthy(s.processNames[pid]) then s.processNames[pid].value else ProcessPlaceholder(pid))
    else if pid in s.latestProcess then
      Text(s.latestProcess[pid].name) + " [v" + s.latestProcess[pid].version + "]"
    else ProcessPlaceholder(pid)
  }

  /** A flow's name at the configured version, or the placeholder (both builders). */
  function FlowName(s: Store, fid: FlowId): (r: string)
    ensures r != ""
    ensures r == FlowPlaceholder(fid) || (fid in s.flowNames && Truthy(s.flowNames[fid]) && r == s.flowNames[fid].value)
    ensures fid !in s.failing && fid in s.flowNames && Truthy(s.flowNames[fid]) ==> r == s.flowNames[fid].value
  {
    if fid !in s.failing && fid in s.flowNames && Truthy(s.flowNames[fid]) then s.flowNames[fid].value
    else FlowPlaceholder(fid)
  }

  /** A unit's name, or "N/A" when the unit is missing, empty or unnamed. */
  function UnitName(s: Store, uid: string): (r: string)
    ensures r != ""
    ensures r == "N/A" || (uid in s.unitNames && Truthy(s.unitNames[uid]) && r == s.unitNames[uid].value)
    ensures uid !in s.failing && uid in s.unitNames && Truthy(s.unitNames[uid]) ==> r == s.unitNames[uid].value
  {
    if uid !in s.failing && uid in s.unitNames && Truthy(s.unitNames[uid]) then s.unitNames[uid].value
    else "N/A"
  }
}
