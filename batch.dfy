/** The batch driver: reading process ids from an id file, then building and reporting
    the main chain of each id in turn on one builder. */
module Batch {
  import opened Common
  import opened Store
  import opened MainChain

  // ---------------------------------------------------------------------------
  // Reading the id file

  /** Python's `str.isspace`: the characters `str.strip()` removes. */
  predicate IsSpace(c: char)
  {
    || c == ' ' || c == '\t' || c == '\n' || c == '\r' || c == '\U{0B}' || c == '\U{0C}'
    || c == '\U{1C}' || c == '\U{1D}' || c == '\U{1E}' || c == '\U{1F}'
    || c == '\U{85}' || c == '\U{A0}' || c == '\U{1680}'
    || ('\U{2000}' <= c <= '\U{200A}')
    || c == '\U{2028}' || c == '\U{2029}' || c == '\U{202F}' || c == '\U{205F}' || c == '\U{3000}'
  }

  predicate AllSpace(s: string)
  {
    forall k :: 0 <= k < |s| ==> IsSpace(s[k])
  }

  /** The number of leading whitespace characters. */
  function Lead(s: string): (n: nat)
    ensures n <= |s|
  {
    if s != [] && IsSpace(s[0]) then 1 + Lead(s[1..]) else 0
  }

  /** `s.lstrip()`: the suffix left after the leading whitespace. */
  function TrimStart(s: string): string
  {
    s[Lead(s)..]
  }

  lemma {:induction false} LeadSpec(s: string)
    ensures AllSpace(s[..Lead(s)])
    ensures Lead(s) < |s| ==> !IsSpace(s[Lead(s)])
  {
    if s != [] && IsSpace(s[0]) {
      LeadSpec(s[1..]);
      var n := Lead(s);
      forall k | 0 <= k < n
        ensures IsSpace(s[..n][k])
      {
        if k > 0 {
          assert s[..n][k] == s[1..][..n - 1][k - 1];
        }
      }
    }
  }

  /** `s.rstrip()`: the prefix left before the trailing whitespace. */
  function TrimEnd(s: string): string
  {
    if s != [] && IsSpace(s[|s| - 1]) then TrimEnd(s[..|s| - 1]) else s
  }

  lemma {:induction false} TrimEndSpec(s: string)
    ensures TrimEnd(s) <= s
    ensures AllSpace(s[|TrimEnd(s)|..])
    ensures TrimEnd(s) != [] ==> !IsSpace(TrimEnd(s)[|TrimEnd(s)| - 1])
  {
    if s != [] && IsSpace(s[|s| - 1]) {
      TrimEndSpec(s[..|s| - 1]);
      var n := |TrimEnd(s)|;
      forall k | 0 <= k < |s| - n
        ensures IsSpace(s[n..][k])
      {
        if k < |s| - 1 - n {
          assert s[n..][k] == s[..|s| - 1][n..][k];
        }
      }
    }
  }

  /** `s.strip()`. */
  function Strip(s: string): string
  {
    TrimEnd(TrimStart(s))
  }

  /** Stripping leaves a piece of `s` with whitespace only around it, and neither end of
      the piece is whitespace. */
  lemma StripSpec(s: string)
    ensures Lead(s) + |Strip(s)| <= |s|
    ensures Strip(s) == s[Lead(s)..Lead(s) + |Strip(s)|]
    ensures AllSpace(s[..Lead(s)]) && AllSpace(s[Lead(s) + |Strip(s)|..])
    ensures Strip(s) != [] ==> !IsSpace(Strip(s)[0]) && !IsSpace(Strip(s)[|Strip(s)| - 1])
  {
    StripSlice(s);
    StripTail(s);
    StripEnds(s);
  }

  lemma StripSlice(s: string)
    ensures Lead(s) + |Strip(s)| <= |s|
    ensures Strip(s) == s[Lead(s)..Lead(s) + |Strip(s)|]
  {
    TrimEndSpec(TrimStart(s));
    assert Strip(s) == TrimStart(s)[..|Strip(s)|];
    SliceOfSuffix(s, Lead(s), |Strip(s)|);
  }

  lemma StripTail(s: string)
    ensures Lead(s) + |Strip(s)| <= |s|
    ensures AllSpace(s[Lead(s) + |Strip(s)|..])
  {
    TrimEndSpec(TrimStart(s));
    SliceOfSuffix(s, Lead(s), |Strip(s)|);
  }

  lemma StripEnds(s: string)
    ensures AllSpace(s[..Lead(s)])
    ensures Strip(s) != [] ==> !IsSpace(Strip(s)[0]) && !IsSpace(Strip(s)[|Strip(s)| - 1])
  {
    LeadSpec(s);
    TrimEndSpec(TrimStart(s));
    if Strip(s) != [] {
      assert Strip(s)[0] == TrimStart(s)[0] == s[Lead(s)];
    }
  }

  lemma SliceOfSuffix(s: string, i: nat, m: nat)
    requires i + m <= |s|
    ensures s[i..][..m] == s[i..i + m] && s[i..][m..] == s[i + m..]
  {
  }

  /** `s.split('#')[0]`: everything before the first `#`. */
  function BeforeHash(s: string): (r: string)
    ensures r <= s
    ensures '#' !in r
    ensures |r| < |s| ==> s[|r|] == '#'
  {
    if s == [] || s[0] == '#' then [] else [s[0]] + BeforeHash(s[1..])
  }

  /** `s.count(c)`: the number of occurrences of `c`. */
  function CountChar(s: string, c: char): nat
  {
    if s == [] then 0 else (if s[0] == c then 1 else 0) + CountChar(s[1..], c)
  }

  /** The count is the multiplicity of `c` in `s`. */
  lemma {:induction false} CountCharSpec(s: string, c: char)
    ensures CountChar(s, c) == multiset(s)[c]
  {
    if s != [] {
      assert s == [s[0]] + s[1..];
      CountCharSpec(s[1..], c);
    }
  }

  /** The UUID shape test: 36 characters, four of them `-`. */
  predicate Shaped(id: string)
  {
    |id| == 36 && CountChar(id, '-') == 4
  }

  /** The id one line of the file contributes: nothing for a blank line or one starting
      with `#`; otherwise the text before an inline `#`, stripped, when it looks like a
      UUID. */
  function ParseLine(line: string): Option<ProcessId>
  {
    var t := Strip(line);
    if t == [] || t[0] == '#' then None
    else
      var id := Strip(BeforeHash(t));
      if Shaped(id) then Some(id) else None
  }

  /** The ids `parse` accepts from the lines, in line order. */
  function Collect(parse: string -> Option<ProcessId>, lines: seq<string>): seq<ProcessId>
  {
    if lines == [] then []
    else Collect(parse, lines[..|lines| - 1]) + (match parse(lines[|lines| - 1]) case Some(id) => [id] case None => [])
  }

  /** The ids of a file: those its lines contribute, in file order. */
  function IdsOf(lines: seq<string>): seq<ProcessId>
  {
    Collect(ParseLine, lines)
  }

  /** `read_process_ids`: a missing file gives no ids; otherwise one id per accepted line,
      in order. */
  method ReadProcessIds(file: Option<seq<string>>) returns (ids: seq<ProcessId>)
    ensures file.None? ==> ids == []
    ensures file.Some? ==> ids == IdsOf(file.value)
  {
    if file.None? {
      return [];
    }
    var lines := file.value;
    ids := [];
    for i := 0 to |lines|
      invariant ids == IdsOf(lines[..i])
    {
      assert lines[..i + 1][..i] == lines[..i];
      var line := Strip(lines[i]);
      if line == [] || line[0] == '#' {
        continue;
      }
      var processId := Strip(BeforeHash(line));
      if |processId| == 36 && CountChar(processId, '-') == 4 {
        ids := ids + [processId];
      }
    }
    assert lines[..|lines|] == lines;
  }

  /** Every accepted id is UUID-shaped, carries no `#` and no surrounding whitespace. */
  lemma ParseLineSpec(line: string)
    ensures Strip(line) == [] || Strip(line)[0] == '#' ==> ParseLine(line).None?
    ensures ParseLine(line).Some? ==>
      var id := ParseLine(line).value;
      Shaped(id) && '#' !in id && !IsSpace(id[0]) && !IsSpace(id[|id| - 1])
  {
    var t := Strip(line);
    if t != [] && t[0] != '#' {
      var b := BeforeHash(t);
      var id := Strip(b);
      StripSpec(b);
      if id != [] {
        forall k | 0 <= k < |id|
          ensures id[k] != '#'
        {
          assert id[k] == b[Lead(b) + k];
          assert b[Lead(b) + k] in b;
        }
      }
    }
  }

  /** A line holding an id padded by whitespace, optionally followed by a `#` comment,
      contributes exactly that id. */
  lemma ParseLinePadded(pad1: string, id: string, pad2: string, comment: string)
    requires Shaped(id) && '#' !in id && !IsSpace(id[0]) && !IsSpace(id[|id| - 1])
    requires AllSpace(pad1) && AllSpace(pad2)
    requires comment == [] || comment[0] == '#'
    ensures ParseLine(pad1 + id + pad2 + comment) == Some(id)
  {
    var rest := id + pad2 + comment;
    TrimStartPadded(pad1, rest);
    assert pad1 + id + pad2 + comment == pad1 + rest;
    var t := Strip(pad1 + rest);
    assert '#' !in pad2 by {
      forall k | 0 <= k < |pad2|
        ensures pad2[k] != '#'
      {
        assert IsSpace(pad2[k]);
      }
    }
    if comment == [] {
      assert rest == id + pad2;
      TrimEndPadded(id, pad2);
      assert t == id;
      BeforeHashAt(id, []);
      assert id + [] == id;
    } else {
      TrimEndAppend(id + pad2, comment);
      TrimEndStart(comment);
      var c := TrimEnd(comment);
      assert t == id + pad2 + c;
      BeforeHashAt(id + pad2, c);
      TrimStartPadded([], id + pad2);
      assert [] + (id + pad2) == id + pad2;
      TrimEndPadded(id, pad2);
    }
  }

  lemma {:induction false} TrimStartPadded(pad: string, s: string)
    requires AllSpace(pad)
    requires s != [] && !IsSpace(s[0])
    ensures TrimStart(pad + s) == s
  {
    LeadPadded(pad, s);
    assert (pad + s)[|pad|..] == s;
  }

  lemma {:induction false} LeadPadded(pad: string, s: string)
    requires AllSpace(pad)
    requires s != [] && !IsSpace(s[0])
    ensures Lead(pad + s) == |pad|
  {
    if pad != [] {
      assert (pad + s)[1..] == pad[1..] + s;
      LeadPadded(pad[1..], s);
    } else {
      assert pad + s == s;
    }
  }

  lemma {:induction false} TrimEndPadded(s: string, pad: string)
    requires AllSpace(pad)
    requires s != [] && !IsSpace(s[|s| - 1])
    ensures TrimEnd(s + pad) == s
    decreases |pad|
  {
    if pad != [] {
      assert (s + pad)[..|s + pad| - 1] == s + pad[..|pad| - 1];
      TrimEndPadded(s, pad[..|pad| - 1]);
    } else {
      assert s + pad == s;
    }
  }

  /** Trailing whitespace trimmed after a non-space character stays behind it. */
  lemma {:induction false} TrimEndAppend(p: string, s: string)
    requires s != [] && !IsSpace(s[0])
    ensures TrimEnd(p + s) == p + TrimEnd(s)
    decreases |s|
  {
    if IsSpace(s[|s| - 1]) {
      assert (p + s)[..|p + s| - 1] == p + s[..|s| - 1];
      TrimEndAppend(p, s[..|s| - 1]);
    }
  }

  lemma TrimEndStart(s: string)
    requires s != [] && !IsSpace(s[0])
    ensures TrimEnd(s) != [] && TrimEnd(s)[0] == s[0]
  {
    TrimEndSpec(s);
  }

  lemma {:induction false} BeforeHashAt(a: string, b: string)
    requires '#' !in a
    requires b == [] || b[0] == '#'
    ensures BeforeHash(a + b) == a
  {
    if a == [] {
      assert a + b == b;
    } else {
      assert (a + b)[0] == a[0] && (a + b)[1..] == a[1..] + b;
      assert a[0] in a;
      BeforeHashAt(a[1..], b);
      assert a == [a[0]] + a[1..];
    }
  }

  /** The ids of a file are the ids of its first part followed by those of the rest. */
  lemma {:induction false} CollectAppend(parse: string -> Option<ProcessId>, a: seq<string>, b: seq<string>)
    ensures Collect(parse, a + b) == Collect(parse, a) + Collect(parse, b)
    decreases |b|
  {
    if b == [] {
      assert a + b == a;
    } else {
      assert (a + b)[..|a + b| - 1] == a + b[..|b| - 1];
      CollectAppend(parse, a, b[..|b| - 1]);
    }
  }

  /** An id is collected iff some line yields it. */
  lemma {:induction false} CollectSpec(parse: string -> Option<ProcessId>, lines: seq<string>)
    ensures forall x :: x in Collect(parse, lines) <==> exists i :: 0 <= i < |lines| && parse(lines[i]) == Some(x)
  {
    if lines != [] {
      var init := lines[..|lines| - 1];
      CollectSpec(parse, init);
      forall x
        ensures x in Collect(parse, lines) <==> exists i :: 0 <= i < |lines| && parse(lines[i]) == Some(x)
      {
        if x in Collect(parse, lines) {
          if x in Collect(parse, init) {
            var i :| 0 <= i < |init| && parse(init[i]) == Some(x);
            assert lines[i] == init[i];
          } else {
            assert parse(lines[|lines| - 1]) == Some(x);
          }
        }
        if exists i :: 0 <= i < |lines| && parse(lines[i]) == Some(x) {
          var i :| 0 <= i < |lines| && parse(lines[i]) == Some(x);
          if i < |init| {
            assert parse(init[i]) == Some(x);
          }
        }
      }
    }
  }

  /** Every id read from a file is UUID-shaped, and it is read iff one of the lines gives
      it; the ids of concatenated files are concatenated. */
  lemma IdsOfSpec(lines: seq<string>)
    ensures forall x :: x in IdsOf(lines) <==> exists i :: 0 <= i < |lines| && ParseLine(lines[i]) == Some(x)
    ensures forall x :: x in IdsOf(lines) ==> Shaped(x)
  {
    CollectSpec(ParseLine, lines);
    forall x | x in IdsOf(lines)
      ensures Shaped(x)
    {
      var i :| 0 <= i < |lines| && ParseLine(lines[i]) == Some(x);
      ParseLineSpec(lines[i]);
    }
  }

  lemma IdsOfAppend(a: seq<string>, b: seq<string>)
    ensures IdsOf(a + b) == IdsOf(a) + IdsOf(b)
  {
    CollectAppend(ParseLine, a, b);
  }

  // ---------------------------------------------------------------------------
  // The batch loop

  /** One entry of `results['success']`: the id and the TXT file written for it. */
  datatype Success = Success(processId: ProcessId, txt: string)

  /** One entry of `results['failed']`: the id and the error; the error is modelled by
      the id whose query raised. */
  datatype Failure = Failure(processId: ProcessId, error: string)

  datatype BatchResults = BatchResults(success: seq<Success>, failed: seq<Failure>)

  /** The output directory: the given one, or `output/steel` in editor mode and `output`
      otherwise. */
  function OutputDir(mode: Mode, outputDir: Option<string>): string
  {
    if outputDir.Some? then outputDir.value else if mode.Editor? then "output/steel" else "output"
  }

  /** `os.path.join(dir, name)` for a relative `name`. */
  function Join(dir: string, name: string): string
  {
    if dir == [] || dir[|dir| - 1] == '/' then dir + name else dir + "/" + name
  }

  /** `main_chain_<first eight characters of the id>.txt` in the output directory. */
  function TxtFile(dir: string, pid: ProcessId): string
  {
    Join(dir, "main_chain_" + Take(pid, 8) + ".txt")
  }

  /** The node `analyze_main_chains` starts each chain from. */
  function Root(pid: ProcessId): ChainNode
  {
    ChainNode(pid, None, 0.0, 0, None, None, None, None)
  }

  /** One id of the batch on the shared builder: its chain, built from a cleared visited
      set and the connections the earlier ids left, then its compact text file. The
      result is the chain length, or the id whose query raised in either. */
  function Attempt(s: Store, mode: Mode): (ProcessId, Session) -> Answer<nat>
  {
    (pid, c) =>
      var w := Chain(s, mode, {}, c, Root(pid));
      if w.chain.Err? then Answer(Err(w.chain.failedId), w.session) else Txt(s, mode, w.session, w.chain.value)
  }

  /** The two result lists so far and the connections the ids so far left. */
  datatype Tally = Tally(success: seq<Success>, failed: seq<Failure>, session: Session)

  /** One more id: an entry in exactly one of the two lists, and the connections its
      attempt left. */
  function Step(attempt: (ProcessId, Session) -> Answer<nat>, dir: string, t: Tally, pid: ProcessId): Tally
  {
    var a := attempt(pid, t.session);
    if a.result.Ok? then Tally(t.success + [Success(pid, TxtFile(dir, pid))], t.failed, a.session)
    else Tally(t.success, t.failed + [Failure(pid, a.result.failedId)], a.session)
  }

  /** The ids of `ids` in turn, starting from the connections `c`. */
  function Run(attempt: (ProcessId, Session) -> Answer<nat>, dir: string, c: Session, ids: seq<ProcessId>): Tally
  {
    if ids == [] then Tally([], [], c) else Step(attempt, dir, Run(attempt, dir, c, ids[..|ids| - 1]), ids[|ids| - 1])
  }

  /** `analyze_main_chains`: nothing for an empty list; otherwise one fresh builder, and
      for each id in turn a cleared visited set, the chain, the text file, and an entry in
      exactly one of the two result lists. */
  method AnalyzeMainChains(store: Store, mode: Mode, ids: seq<ProcessId>, outputDir: Option<string>)
    returns (r: Option<BatchResults>)
    ensures ids == [] <==> r.None?
    ensures ids != [] ==> r == Some(BatchResults(
      Run(Attempt(store, mode), OutputDir(mode, outputDir), Fresh, ids).success,
      Run(Attempt(store, mode), OutputDir(mode, outputDir), Fresh, ids).failed))
  {
    if ids == [] {
      return None;
    }
    var dir := OutputDir(mode, outputDir);
    var success: seq<Success> := [];
    var failed: seq<Failure> := [];
    var builder := new MainChainBuilder(store, mode);
    for i := 0 to |ids|
      invariant builder.store == store && builder.mode == mode && builder.CachesValid()
      invariant Tally(success, failed, builder.session) == Run(Attempt(store, mode), dir, Fresh, ids[..i])
    {
      var processId := ids[i];
      BatchStep(Attempt(store, mode), dir, Fresh, ids, i);
      builder.visited := {};
      var head := builder.BuildChainRecursive(processId, None, 0.0, 0, None, None, None);
      if head.Ok? {
        var length := builder.GenerateCompactTxt(head.value);
        if length.Ok? {
          success := success + [Success(processId, TxtFile(dir, processId))];
        } else {
          failed := failed + [Failure(processId, length.failedId)];
        }
      } else {
        failed := failed + [Failure(processId, head.failedId)];
      }
    }
    assert ids[..|ids|] == ids;
    r := Some(BatchResults(success, failed));
  }

  /** One more id of the batch is one more step. */
  lemma BatchStep(attempt: (ProcessId, Session) -> Answer<nat>, dir: string, c: Session, ids: seq<ProcessId>, i: nat)
    requires i < |ids|
    ensures Run(attempt, dir, c, ids[..i + 1]) == Step(attempt, dir, Run(attempt, dir, c, ids[..i]), ids[i])
  {
    assert ids[..i + 1][..i] == ids[..i];
  }

  function SuccessIds(ss: seq<Success>): seq<ProcessId>
  {
    if ss == [] then [] else SuccessIds(ss[..|ss| - 1]) + [ss[|ss| - 1].processId]
  }

  function FailureIds(fs: seq<Failure>): seq<ProcessId>
  {
    if fs == [] then [] else FailureIds(fs[..|fs| - 1]) + [fs[|fs| - 1].processId]
  }

  /** The ids of the success list followed by those of the failed list are `ids`. */
  predicate InOrder(t: Tally, ids: seq<ProcessId>)
  {
    SuccessIds(t.success) + FailureIds(t.failed) == ids
  }

  /** Attempts on a shared builder: once a connection the mode needs has failed every
      attempt raises, and an attempt that raises leaves such a connection failed. */
  ghost predicate Sticky(attempt: (ProcessId, Session) -> Answer<nat>, mode: Mode)
  {
    && (forall pid, c :: Broken(mode, c) ==> attempt(pid, c).result.Err?)
    && (forall pid, c :: attempt(pid, c).result.Err? ==> Broken(mode, attempt(pid, c).session))
  }

  /** The batch's attempts are sticky: the builders never roll a failed transaction back. */
  lemma AttemptSticky(s: Store, mode: Mode)
    ensures Sticky(Attempt(s, mode), mode)
  {
    forall pid, c
      ensures Broken(mode, c) ==> Attempt(s, mode)(pid, c).result.Err?
      ensures Attempt(s, mode)(pid, c).result.Err? ==> Broken(mode, Attempt(s, mode)(pid, c).session)
    {
      var w := Chain(s, mode, {}, c, Root(pid));
      if Broken(mode, c) {
        ChainBroken(s, mode, {}, c, Root(pid));
      }
      if w.chain.Ok? {
        TxtSpec(s, mode, w.session, w.chain.value);
      }
    }
  }

  /** With no failing id, every attempt from healthy connections succeeds and leaves them
      healthy. */
  lemma AttemptClean(s: Store, mode: Mode)
    requires s.failing == {}
    ensures forall pid :: Attempt(s, mode)(pid, Fresh).result.Ok? && Attempt(s, mode)(pid, Fresh).session == Fresh
  {
    forall pid
      ensures Attempt(s, mode)(pid, Fresh).result.Ok? && Attempt(s, mode)(pid, Fresh).session == Fresh
    {
      ChainClean(s, mode, {}, Root(pid));
      var w := Chain(s, mode, {}, Fresh, Root(pid));
      TxtSpec(s, mode, w.session, w.chain.value);
    }
  }

  /** With sticky attempts a batch that starts on a failed connection has no success,
      and one with a failure ends on a failed connection. */
  lemma {:induction false} BatchBroken(attempt: (ProcessId, Session) -> Answer<nat>, mode: Mode, dir: string, c: Session, ids: seq<ProcessId>)
    requires Sticky(attempt, mode)
    ensures Broken(mode, c) ==> Run(attempt, dir, c, ids).success == []
    ensures Broken(mode, c) || Run(attempt, dir, c, ids).failed != [] ==> Broken(mode, Run(attempt, dir, c, ids).session)
  {
    if ids != [] {
      var init, pid := ids[..|ids| - 1], ids[|ids| - 1];
      BatchBroken(attempt, mode, dir, c, init);
      var t := Run(attempt, dir, c, init);
      assert Run(attempt, dir, c, ids) == Step(attempt, dir, t, pid);
    }
  }

  /** With sticky attempts the batch succeeds up to its first failure and fails from there
      on: the ids of the success list followed by those of the failed list are exactly the
      batch's ids, in order. */
  lemma {:induction false} BatchOrder(attempt: (ProcessId, Session) -> Answer<nat>, mode: Mode, dir: string, c: Session, ids: seq<ProcessId>)
    requires Sticky(attempt, mode)
    ensures InOrder(Run(attempt, dir, c, ids), ids)
  {
    if ids != [] {
      var init := ids[..|ids| - 1];
      BatchOrder(attempt, mode, dir, c, init);
      BatchBroken(attempt, mode, dir, c, init);
      var t, pid := Run(attempt, dir, c, init), ids[|ids| - 1];
      StepOrder(attempt, mode, dir, t, init, pid);
      assert ids == init + [pid];
    }
  }
  /** One step keeps the ids of the two lists in batch order. */
  lemma StepOrder(attempt: (ProcessId, Session) -> Answer<nat>, mode: Mode, dir: string, t: Tally, done: seq<ProcessId>, pid: ProcessId)
    requires Sticky(attempt, mode)
    requires InOrder(t, done)
    requires t.failed != [] ==> Broken(mode, t.session)
    ensures InOrder(Step(attempt, dir, t, pid), done + [pid])
  {
    var a := attempt(pid, t.session);
    if a.result.Ok? {
      SuccessIdsSnoc(t.success, Success(pid, TxtFile(dir, pid)));
    } else {
      FailureIdsSnoc(t.failed, Failure(pid, a.result.failedId));
    }
  }

  lemma SuccessIdsSnoc(ss: seq<Success>, x: Success)
    ensures SuccessIds(ss + [x]) == SuccessIds(ss) + [x.processId]
  {
    assert (ss + [x])[..|ss|] == ss;
  }

  lemma FailureIdsSnoc(fs: seq<Failure>, x: Failure)
    ensures FailureIds(fs + [x]) == FailureIds(fs) + [x.processId]
  {
    assert (fs + [x])[..|fs|] == fs;
  }

  /** A batch whose first id fails fails for every id, although the later ids are never
      failing themselves: the first raised query leaves the shared connection failed. */
  lemma FirstFailure(attempt: (ProcessId, Session) -> Answer<nat>, mode: Mode, dir: string, c: Session, ids: seq<ProcessId>)
    requires Sticky(attempt, mode) && ids != [] && attempt(ids[0], c).result.Err?
    ensures Run(attempt, dir, c, ids).success == []
    ensures FailureIds(Run(attempt, dir, c, ids).failed) == ids
  {
    BatchOrder(attempt, mode, dir, c, ids);
    BatchBroken(attempt, mode, dir, c, ids);
    var t := Run(attempt, dir, c, ids);
    if t.success != [] {
      assert |SuccessIds(t.success)| >= 1 by {
        var n := |t.success|;
        assert SuccessIds(t.success) == SuccessIds(t.success[..n - 1]) + [t.success[n - 1].processId];
      }
      FirstSucceeds(attempt, mode, dir, c, ids);
    }
  }

  /** A batch with a success starts with one: its first id's attempt succeeds. */
  lemma {:induction false} FirstSucceeds(attempt: (ProcessId, Session) -> Answer<nat>, mode: Mode, dir: string, c: Session, ids: seq<ProcessId>)
    requires Sticky(attempt, mode) && Run(attempt, dir, c, ids).success != []
    ensures ids != [] && attempt(ids[0], c).result.Ok?
  {
    var init, pid := ids[..|ids| - 1], ids[|ids| - 1];
    var t := Run(attempt, dir, c, init);
    if t.success != [] {
      FirstSucceeds(attempt, mode, dir, c, init);
      assert ids[0] == init[0];
    } else {
      BatchOrder(attempt, mode, dir, c, init);
      BatchBroken(attempt, mode, dir, c, init);
      if init != [] {
        assert false;
      }
      assert ids == [pid];
    }
  }

  /** A batch whose first id is failing makes no success at all. */
  lemma FailingFirstId(s: Store, mode: Mode, dir: string, ids: seq<ProcessId>)
    requires ids != [] && ids[0] in s.failing
    ensures Run(Attempt(s, mode), dir, Fresh, ids).success == []
    ensures FailureIds(Run(Attempt(s, mode), dir, Fresh, ids).failed) == ids
  {
    GetMaxValueExchangeSpec(s, mode, ids[0], Fresh);
    AttemptSticky(s, mode);
    FirstFailure(Attempt(s, mode), mode, dir, Fresh, ids);
  }

  /** With no failing id every id of the batch succeeds, in order. */
  lemma CleanBatch(s: Store, mode: Mode, dir: string, ids: seq<ProcessId>)
    requires s.failing == {}
    ensures SuccessIds(Run(Attempt(s, mode), dir, Fresh, ids).success) == ids
    ensures Run(Attempt(s, mode), dir, Fresh, ids).failed == []
    ensures Run(Attempt(s, mode), dir, Fresh, ids).session == Fresh
  {
    AttemptClean(s, mode);
    RunClean(Attempt(s, mode), dir, Fresh, ids);
  }

  /** Attempts that all succeed on the connections `c` and leave them as they were make a
      batch in which every id succeeds, in order. */
  lemma {:induction false} RunClean(attempt: (ProcessId, Session) -> Answer<nat>, dir: string, c: Session, ids: seq<ProcessId>)
    requires forall pid :: attempt(pid, c).result.Ok? && attempt(pid, c).session == c
    ensures InOrder(Run(attempt, dir, c, ids), ids)
    ensures Run(attempt, dir, c, ids).failed == []
    ensures Run(attempt, dir, c, ids).session == c
  {
    if ids != [] {
      var init, pid := ids[..|ids| - 1], ids[|ids| - 1];
      RunClean(attempt, dir, c, init);
      var t := Run(attempt, dir, c, init);
      SuccessIdsSnoc(t.success, Success(pid, TxtFile(dir, pid)));
      assert ids == init + [pid];
    }
  }

  /** Splitting a batch: its results are those of the first part followed by those of the
      second part run from the connections the first part left. */
  lemma {:induction false} BatchAppend(attempt: (ProcessId, Session) -> Answer<nat>, dir: string, c: Session, a: seq<ProcessId>, b: seq<ProcessId>)
    ensures Run(attempt, dir, c, a + b).success
      == Run(attempt, dir, c, a).success + Run(attempt, dir, Run(attempt, dir, c, a).session, b).success
    ensures Run(attempt, dir, c, a + b).failed
      == Run(attempt, dir, c, a).failed + Run(attempt, dir, Run(attempt, dir, c, a).session, b).failed
    ensures Run(attempt, dir, c, a + b).session == Run(attempt, dir, Run(attempt, dir, c, a).session, b).session
    decreases |b|
  {
    if b == [] {
      assert a + b == a;
    } else {
      assert (a + b)[..|a + b| - 1] == a + b[..|b| - 1];
      BatchAppend(attempt, dir, c, a, b[..|b| - 1]);
    }
  }
}
