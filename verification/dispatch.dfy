/**
 * The dispatch loop shared by `LintPackages` and `LintDirs` in lint/lint.go,
 * written once over an arbitrary registry, target list and linter list.
 *
 * The operating system is an oracle: the output of `git rev-parse
 * --show-toplevel`, the outcome of `os.Chdir` for a given path, and the
 * outcome of running a given argv. With those as inputs the procedure is a
 * pure, sequential function.
 */
module Dispatcher {
  import opened Wrappers
  import opened GoStrings
  import opened Registry

  /** The outcome of `cmd.CombinedOutput()`: whether it returned a nil error, and the combined output. */
  datatype ExecResult = ExecResult(ok: bool, output: string)

  /** The effects the dispatcher asks of the operating system. */
  datatype Host = Host(
    gitTopLevel: Result<string, string>,   // stdout of `git rev-parse --show-toplevel`, or its error
    chdir: string -> Option<string>,       // `os.Chdir(path)`: None for success, or the error
    exec: seq<string> -> ExecResult        // run one argv to completion
  )

  /**
   * The command builder: the argv for a (linter, target) pair, or None
   * where building it panics. The dispatcher of lint/lint.go uses
   * `(linter, target) => ArgvFor(lintersFlag, linter, target)`.
   */
  type Builder = (string, string) -> Option<seq<string>>

  /** One (target, linter) pair of the scan, in the order the loops visit them. */
  datatype Pair = Pair(target: string, linter: string)

  /** One started linter process: the pair it serves and the exact argv. */
  datatype Invocation = Invocation(target: string, linter: string, argv: seq<string>)

  /** The errors the dispatcher returns (or, for IndexPanic, the panic it raises). */
  datatype LintError =
    | RootError(reason: string)              // `git rev-parse` failed
    | ChdirError(reason: string)             // `os.Chdir` failed
    | IndexPanic(linter: string)             // `splitCmd[1]` out of range
    | LinterFailed(linter: string, output: string)
  {
    /**
     * The error text; for a failed linter, `fmt.Errorf("%s found error in:%s", linter, out)`:
     * the linter id, then the fixed infix, then the raw combined output. For
     * the panic it is the message of current Go runtimes (older ones print
     * only "index out of range").
     */
    function Message(): (m: string)
      ensures LinterFailed? ==>
        && |m| == |linter| + |" found error in:"| + |output|
        && m[..|linter|] == linter
        && m[|linter|..|m| - |output|] == " found error in:"
        && m[|m| - |output|..] == output
    {
      match this
      case RootError(reason) => reason
      case ChdirError(reason) => reason
      case IndexPanic(_) => "runtime error: index out of range [1] with length 1"
      case LinterFailed(linter, output) => linter + " found error in:" + output
    }
  }

  /** The scan part of a run: the error that ended it, if any, and every invocation started. */
  datatype Run = Run(err: Option<LintError>, trace: seq<Invocation>)

  /** A whole run: the returned error (None is Go's nil), the directory passed to chdir, and the invocations. */
  datatype Report = Report(err: Option<LintError>, root: Option<string>, trace: seq<Invocation>)

  /** The pairs the inner loop visits for one target: each linter in list order. */
  function Row(target: string, linters: seq<string>): (ps: seq<Pair>)
    ensures |ps| == |linters|
    ensures forall j :: 0 <= j < |linters| ==> ps[j] == Pair(target, linters[j])
  {
    if linters == [] then [] else [Pair(target, linters[0])] + Row(target, linters[1..])
  }

  /** The pairs both loops visit: target-major, each list in its own order. */
  function Pairs(targets: seq<string>, linters: seq<string>): seq<Pair> {
    if targets == [] then [] else Row(targets[0], linters) + Pairs(targets[1..], linters)
  }

  /** One pair per (target, linter) combination. */
  lemma {:induction false} PairsLength(targets: seq<string>, linters: seq<string>)
    ensures |Pairs(targets, linters)| == |targets| * |linters|
  {
    if targets != [] {
      PairsLength(targets[1..], linters);
      MulStep(|targets|, |linters|);
    }
  }

  /** The pair of target `i` and linter `j` sits at position `i * |linters| + j`. */
  lemma PairsOrder(targets: seq<string>, linters: seq<string>, i: nat, j: nat)
    requires i < |targets| && j < |linters|
    ensures i * |linters| + j < |Pairs(targets, linters)|
    ensures Pairs(targets, linters)[i * |linters| + j] == Pair(targets[i], linters[j])
  {
    PairsAt(targets, linters, i, j);
    OffsetIsProduct(i, |linters|, j);
  }

  /** `i * n + j`, counted out as `i` rows of `n` followed by `j`. */
  function Offset(i: nat, n: nat, j: nat): nat {
    if i == 0 then j else n + Offset(i - 1, n, j)
  }

  lemma {:induction false} OffsetIsProduct(i: nat, n: nat, j: nat)
    ensures Offset(i, n, j) == i * n + j
  {
    if i > 0 {
      OffsetIsProduct(i - 1, n, j);
      MulStep(i, n);
    }
  }

  lemma MulStep(i: int, n: int)
    ensures i * n == (i - 1) * n + n
  {
  }

  lemma {:induction false} PairsAt(targets: seq<string>, linters: seq<string>, i: nat, j: nat)
    requires i < |targets| && j < |linters|
    ensures Offset(i, |linters|, j) < |Pairs(targets, linters)|
    ensures Pairs(targets, linters)[Offset(i, |linters|, j)] == Pair(targets[i], linters[j])
  {
    var row, tail := Row(targets[0], linters), Pairs(targets[1..], linters);
    assert Pairs(targets, linters) == row + tail;
    if i > 0 {
      PairsAt(targets[1..], linters, i - 1, j);
      assert targets[1..][i - 1] == targets[i];
    }
  }

  /** With a single linter the pairs are the targets themselves, in order. */
  lemma {:induction false} PairsOneLinter(targets: seq<string>, linter: string)
    ensures |Pairs(targets, [linter])| == |targets|
    ensures forall k :: 0 <= k < |targets| ==> Pairs(targets, [linter])[k] == Pair(targets[k], linter)
  {
    if targets != [] {
      PairsOneLinter(targets[1..], linter);
      assert Row(targets[0], [linter]) == [Pair(targets[0], linter)];
      forall k | 1 <= k < |targets| ensures Pairs(targets, [linter])[k] == Pair(targets[k], linter) {
        assert targets[k] == targets[1..][k - 1];
      }
    }
  }

  /** Every pair of the product is a target of the list with a linter of the list, and conversely. */
  lemma {:induction false} PairsMembers(targets: seq<string>, linters: seq<string>, p: Pair)
    ensures p in Pairs(targets, linters) <==> p.target in targets && p.linter in linters
  {
    if targets != [] {
      PairsMembers(targets[1..], linters, p);
      var row := Row(targets[0], linters);
      assert p in row <==> p.target == targets[0] && p.linter in linters;
      assert p.target in targets <==> p.target == targets[0] || p.target in targets[1..] by {
        assert targets == [targets[0]] + targets[1..];
      }
    }
  }

  /** The invocation the loop body builds for a pair, or None where `splitCmd[1]` panics. */
  function Invoke(build: Builder, p: Pair): Option<Invocation> {
    match build(p.linter, p.target)
    case None => None
    case Some(argv) => Some(Invocation(p.target, p.linter, argv))
  }

  /** The pair's linter was started and `CombinedOutput` returned a nil error. */
  predicate Succeeds(build: Builder, exec: seq<string> -> ExecResult, p: Pair) {
    Invoke(build, p).Some? && exec(Invoke(build, p).value.argv).ok
  }

  /**
   * The scan over the pairs in order: start each pair's linter and stop at
   * the first pair that panics or whose run returns an error. It never
   * starts more invocations than there are pairs and only fails with a
   * per-pair error.
   */
  function RunAll(build: Builder, ps: seq<Pair>, exec: seq<string> -> ExecResult): (r: Run)
    ensures |r.trace| <= |ps|
    ensures r.err.Some? ==> r.err.value.LinterFailed? || r.err.value.IndexPanic?
  {
    if ps == [] then Run(None, [])
    else
      match Invoke(build, ps[0])
      case None => Run(Some(IndexPanic(ps[0].linter)), [])
      case Some(inv) =>
        var res := exec(inv.argv);
        if !res.ok then Run(Some(LinterFailed(ps[0].linter, res.output)), [inv])
        else
          var rest := RunAll(build, ps[1..], exec);
          Run(rest.err, [inv] + rest.trace)
  }

  /** Invocation order: the k-th invocation started serves the k-th pair, so the trace is a prefix of the pairs. */
  lemma {:induction false} RunAllOrder(build: Builder, ps: seq<Pair>, exec: seq<string> -> ExecResult)
    ensures var r := RunAll(build, ps, exec);
      forall k :: 0 <= k < |r.trace| ==> Invoke(build, ps[k]) == Some(r.trace[k])
  {
    if ps != [] && Invoke(build, ps[0]).Some? && exec(Invoke(build, ps[0]).value.argv).ok {
      RunAllOrder(build, ps[1..], exec);
      var r := RunAll(build, ps, exec);
      forall k | 1 <= k < |r.trace| ensures Invoke(build, ps[k]) == Some(r.trace[k]) {
        assert ps[k] == ps[1..][k - 1];
      }
    }
  }

  /** Success condition: no error exactly when every pair succeeds, and then every pair was started. */
  lemma {:induction false} RunAllSucceeds(build: Builder, ps: seq<Pair>, exec: seq<string> -> ExecResult)
    ensures var r := RunAll(build, ps, exec);
      r.err.None? <==> forall k :: 0 <= k < |ps| ==> Succeeds(build, exec, ps[k])
    ensures var r := RunAll(build, ps, exec);
      r.err.None? ==> |r.trace| == |ps|
  {
    if ps != [] {
      RunAllSucceeds(build, ps[1..], exec);
      assert forall k :: 1 <= k < |ps| ==> ps[k] == ps[1..][k - 1];
    }
  }

  /**
   * Fail-fast: an error names the first pair that did not succeed. A failed
   * linter is the last invocation, with the pair's linter id and the run's
   * combined output; a panic happens before the pair's invocation starts.
   */
  lemma {:induction false} RunAllFailFast(build: Builder, ps: seq<Pair>, exec: seq<string> -> ExecResult)
    ensures var r := RunAll(build, ps, exec);
      r.err.Some? && r.err.value.LinterFailed? ==>
        && 1 <= |r.trace|
        && (forall k :: 0 <= k < |r.trace| - 1 ==> Succeeds(build, exec, ps[k]))
        && ps[|r.trace| - 1].linter == r.err.value.linter
        && exec(r.trace[|r.trace| - 1].argv) == ExecResult(false, r.err.value.output)
    ensures var r := RunAll(build, ps, exec);
      r.err.Some? && r.err.value.IndexPanic? ==>
        && |r.trace| < |ps|
        && (forall k :: 0 <= k < |r.trace| ==> Succeeds(build, exec, ps[k]))
        && Invoke(build, ps[|r.trace|]).None?
        && ps[|r.trace|].linter == r.err.value.linter
  {
    if ps != [] && Invoke(build, ps[0]).Some? && exec(Invoke(build, ps[0]).value.argv).ok {
      RunAllFailFast(build, ps[1..], exec);
      var rest := RunAll(build, ps[1..], exec);
      var r := RunAll(build, ps, exec);
      assert r.trace == [Invoke(build, ps[0]).value] + rest.trace;
      forall k | 1 <= k < |ps| ensures ps[k] == ps[1..][k - 1] { }
    }
  }

  /** The setup steps both functions perform before any linter: resolve the root, then chdir to it. */
  predicate SetupSucceeds(host: Host) {
    host.gitTopLevel.Success? && host.chdir(TrimSpace(host.gitTopLevel.value)).None?
  }

  /**
   * `LintPackages` / `LintDirs` over `targets` and `linters`: setup errors
   * come first and start no linter; after a successful chdir to the trimmed
   * git output the pairs are scanned in target-major order.
   */
  function Dispatch(host: Host, build: Builder, targets: seq<string>, linters: seq<string>): (r: Report)
    ensures host.gitTopLevel.Failure? ==> r == Report(Some(RootError(host.gitTopLevel.error)), None, [])
    ensures host.gitTopLevel.Success? ==> r.root == Some(TrimSpace(host.gitTopLevel.value))
    ensures host.gitTopLevel.Success? && host.chdir(r.root.value).Some? ==>
      r.err == Some(ChdirError(host.chdir(r.root.value).value)) && r.trace == []
    ensures r.trace != [] ==> host.gitTopLevel.Success? && host.chdir(r.root.value).None?
  {
    match host.gitTopLevel
    case Failure(e) => Report(Some(RootError(e)), None, [])
    case Success(out) =>
      var root := TrimSpace(out);
      match host.chdir(root)
      case Some(e) => Report(Some(ChdirError(e)), Some(root), [])
      case None =>
        var run := RunAll(build, Pairs(targets, linters), host.exec);
        Report(run.err, Some(root), run.trace)
  }

  /** Invocation order of a whole run: a prefix of the target-major product of the two lists. */
  lemma DispatchOrder(host: Host, build: Builder, targets: seq<string>, linters: seq<string>)
    ensures var r := Dispatch(host, build, targets, linters);
      forall k :: 0 <= k < |r.trace| ==> Invoke(build, Pairs(targets, linters)[k]) == Some(r.trace[k])
  {
    RunAllOrder(build, Pairs(targets, linters), host.exec);
  }

  /**
   * Success condition: nil is returned exactly when the root is resolved,
   * the chdir succeeds, and every target runs every applicable linter with
   * a nil error; a successful run starts every pair once.
   */
  lemma SucceedsIff(host: Host, build: Builder, targets: seq<string>, linters: seq<string>)
    ensures var r := Dispatch(host, build, targets, linters);
      r.err.None? <==>
        && host.gitTopLevel.Success?
        && host.chdir(TrimSpace(host.gitTopLevel.value)).None?
        && forall t, l :: t in targets && l in linters ==> Succeeds(build, host.exec, Pair(t, l))
    ensures var r := Dispatch(host, build, targets, linters);
      r.err.None? ==> |r.trace| == |targets| * |linters|
  {
    var ps := Pairs(targets, linters);
    RunAllSucceeds(build, ps, host.exec);
    PairsLength(targets, linters);
    forall p | true ensures p in ps <==> p.target in targets && p.linter in linters {
      PairsMembers(targets, linters, p);
    }
    assert (forall k :: 0 <= k < |ps| ==> Succeeds(build, host.exec, ps[k]))
       <==> (forall p :: p in ps ==> Succeeds(build, host.exec, p));
  }

  /** With no targets nothing runs, and the verdict is that of the setup alone. */
  lemma NoTargets(host: Host, build: Builder, linters: seq<string>)
    ensures var r := Dispatch(host, build, [], linters);
      && r.trace == []
      && (r.err.None? <==> host.gitTopLevel.Success? && host.chdir(TrimSpace(host.gitTopLevel.value)).None?)
  {
  }

  /**
   * Fail-fast: when a linter reports an error, it is the last invocation,
   * every earlier pair succeeded, and the error carries that linter's id
   * and its combined output.
   */
  lemma FailFast(host: Host, build: Builder, targets: seq<string>, linters: seq<string>)
    requires Dispatch(host, build, targets, linters).err.Some?
    requires Dispatch(host, build, targets, linters).err.value.LinterFailed?
    ensures var r := Dispatch(host, build, targets, linters);
      var ps := Pairs(targets, linters);
      var last := |r.trace| - 1;
      && 0 <= last < |ps|
      && (forall k :: 0 <= k < last ==> Succeeds(build, host.exec, ps[k]))
      && Invoke(build, ps[last]) == Some(r.trace[last])
      && r.err.value.linter == ps[last].linter
      && host.exec(r.trace[last].argv) == ExecResult(false, r.err.value.output)
      && r.err.value.Message() == ps[last].linter + " found error in:" + r.err.value.output
  {
    var ps := Pairs(targets, linters);
    RunAllFailFast(build, ps, host.exec);
    RunAllOrder(build, ps, host.exec);
  }

  /**
   * The verdict reads only the nil-ness of each run's error, never its
   * output: two hosts that agree on which argvs fail produce the same trace
   * and the same nil-ness of the returned error.
   */
  lemma {:induction false} VerdictIgnoresOutput(build: Builder, ps: seq<Pair>, e1: seq<string> -> ExecResult, e2: seq<string> -> ExecResult)
    requires forall argv :: e1(argv).ok == e2(argv).ok
    ensures RunAll(build, ps, e1).trace == RunAll(build, ps, e2).trace
    ensures RunAll(build, ps, e1).err.None? == RunAll(build, ps, e2).err.None?
  {
    if ps != [] {
      VerdictIgnoresOutput(build, ps[1..], e1, e2);
    }
  }

  /**
   * Fail-fast, forwards: when every pair before position `k` succeeds and the
   * linter of pair `k` is started and fails, the scan ends right there, with
   * that linter's id and output, and no later pair is started.
   */
  lemma {:induction false} RunAllFirstFailure(build: Builder, ps: seq<Pair>, exec: seq<string> -> ExecResult, k: nat)
    requires k < |ps|
    requires forall i :: 0 <= i < k ==> Succeeds(build, exec, ps[i])
    requires Invoke(build, ps[k]).Some? && !exec(Invoke(build, ps[k]).value.argv).ok
    ensures var r := RunAll(build, ps, exec);
      && |r.trace| == k + 1
      && r.trace[k] == Invoke(build, ps[k]).value
      && r.err == Some(LinterFailed(ps[k].linter, exec(Invoke(build, ps[k]).value.argv).output))
  {
    if k > 0 {
      assert Succeeds(build, exec, ps[0]);
      forall i | 0 <= i < k - 1 ensures Succeeds(build, exec, ps[1..][i]) {
        assert ps[1..][i] == ps[i + 1];
      }
      assert ps[1..][k - 1] == ps[k];
      RunAllFirstFailure(build, ps[1..], exec, k - 1);
    }
  }

  /**
   * The same for a whole run: after a successful setup, the first failing
   * pair's linter error is returned and no later pair is started.
   */
  lemma FirstFailureStops(host: Host, build: Builder, targets: seq<string>, linters: seq<string>, k: nat)
    requires SetupSucceeds(host)
    requires k < |Pairs(targets, linters)|
    requires forall i :: 0 <= i < k ==> Succeeds(build, host.exec, Pairs(targets, linters)[i])
    requires Invoke(build, Pairs(targets, linters)[k]).Some?
    requires !host.exec(Invoke(build, Pairs(targets, linters)[k]).value.argv).ok
    ensures var r := Dispatch(host, build, targets, linters);
      var p := Pairs(targets, linters)[k];
      && |r.trace| == k + 1
      && r.trace[k] == Invoke(build, p).value
      && r.err == Some(LinterFailed(p.linter, host.exec(Invoke(build, p).value.argv).output))
  {
    RunAllFirstFailure(build, Pairs(targets, linters), host.exec, k);
  }

  /**
   * The verdict ignores output for a whole run: two hosts with the same git
   * outcome and chdir behaviour whose runs agree on which argvs fail start
   * the same invocations and agree on whether nil is returned.
   */
  lemma DispatchIgnoresOutput(h1: Host, h2: Host, build: Builder, targets: seq<string>, linters: seq<string>)
    requires h1.gitTopLevel == h2.gitTopLevel && h1.chdir == h2.chdir
    requires forall argv :: h1.exec(argv).ok == h2.exec(argv).ok
    ensures Dispatch(h1, build, targets, linters).trace == Dispatch(h2, build, targets, linters).trace
    ensures Dispatch(h1, build, targets, linters).err.None? == Dispatch(h2, build, targets, linters).err.None?
  {
    VerdictIgnoresOutput(build, Pairs(targets, linters), h1.exec, h2.exec);
  }

  /**
   * The Go loops: the root is resolved and entered first, then for each
   * target in order the applicable linters are run, returning on the first
   * error. It computes exactly `Dispatch`.
   */
  method LintLoop(host: Host, build: Builder, targets: seq<string>, linters: seq<string>) returns (report: Report)
    ensures report == Dispatch(host, build, targets, linters)
  {
    if host.gitTopLevel.Failure? {
      return Report(Some(RootError(host.gitTopLevel.error)), None, []);
    }
    var root := TrimSpace(host.gitTopLevel.value);
    var chdirErr := host.chdir(root);
    if chdirErr.Some? {
      return Report(Some(ChdirError(chdirErr.value)), Some(root), []);
    }
    var run := ScanTargets(host.exec, build, targets, linters);
    return Report(run.err, Some(root), run.trace);
  }

  /** The outer Go loop: each target in order, returning on the first error of its linters. */
  method ScanTargets(exec: seq<string> -> ExecResult, build: Builder, targets: seq<string>, linters: seq<string>) returns (run: Run)
    ensures run == RunAll(build, Pairs(targets, linters), exec)
  {
    ghost var spec := RunAll(build, Pairs(targets, linters), exec);
    var trace: seq<Invocation> := [];
    var i := 0;
    while i < |targets|
      invariant 0 <= i <= |targets|
      invariant spec == Then(trace, RunAll(build, Pairs(targets[i..], linters), exec))
    {
      PairsStep(targets, i, linters);
      var stop;
      stop, trace := LintTarget(exec, build, targets[i], linters, Pairs(targets[i + 1..], linters), trace);
      if stop.Some? {
        return Run(stop, trace);
      }
      i := i + 1;
    }
    assert trace + [] == trace;
    return Run(None, trace);
  }

  /**
   * The inner Go loop for one target: each applicable linter in order,
   * stopping at the first panic or failed run. `trace` holds the
   * invocations already started; `tail` the pairs still to come after this
   * target. Either the scan stopped here, or it goes on with `tail`.
   */
  method LintTarget(exec: seq<string> -> ExecResult, build: Builder, target: string, linters: seq<string>, ghost tail: seq<Pair>, trace: seq<Invocation>)
    returns (stop: Option<LintError>, trace': seq<Invocation>)
    ensures stop.Some? ==> Then(trace, RunAll(build, Row(target, linters) + tail, exec)) == Run(stop, trace')
    ensures stop.None? ==> Then(trace, RunAll(build, Row(target, linters) + tail, exec)) == Then(trace', RunAll(build, tail, exec))
  {
    trace' := trace;
    var j := 0;
    while j < |linters|
      invariant 0 <= j <= |linters|
      invariant Then(trace, RunAll(build, Row(target, linters) + tail, exec)) == Then(trace', RunAll(build, Row(target, linters[j..]) + tail, exec))
    {
      ghost var rest := Row(target, linters[j + 1..]) + tail;
      RowStep(target, linters, j, tail);
      RunAllStep(build, Pair(target, linters[j]), rest, exec);
      var argv := build(linters[j], target);
      if argv.None? {
        return Some(IndexPanic(linters[j])), trace';
      }
      var out := exec(argv.value);
      var inv := Invocation(target, linters[j], argv.value);
      if !out.ok {
        return Some(LinterFailed(linters[j], out.output)), trace' + [inv];
      }
      AppendAssoc(trace', inv, RunAll(build, rest, exec).trace);
      trace' := trace' + [inv];
      j := j + 1;
    }
    assert Row(target, linters[j..]) == [];
    assert [] + tail == tail;
    assert linters[..] == linters[0..];
    stop := None;
  }

  /** A scan that has already started `trace` and continues as `run`. */
  function Then(trace: seq<Invocation>, run: Run): Run {
    Run(run.err, trace + run.trace)
  }

  lemma PairsStep(targets: seq<string>, i: nat, linters: seq<string>)
    requires i < |targets|
    ensures Pairs(targets[i..], linters) == Row(targets[i], linters) + Pairs(targets[i + 1..], linters)
  {
    assert targets[i..][0] == targets[i] && targets[i..][1..] == targets[i + 1..];
  }

  lemma RowStep(target: string, linters: seq<string>, j: nat, tail: seq<Pair>)
    requires j < |linters|
    ensures Row(target, linters[j..]) + tail == [Pair(target, linters[j])] + (Row(target, linters[j + 1..]) + tail)
  {
    assert linters[j..][0] == linters[j] && linters[j..][1..] == linters[j + 1..];
  }

  lemma RunAllStep(build: Builder, p: Pair, rest: seq<Pair>, exec: seq<string> -> ExecResult)
    ensures RunAll(build, [p] + rest, exec) ==
      match Invoke(build, p)
      case None => Run(Some(IndexPanic(p.linter)), [])
      case Some(inv) =>
        if !exec(inv.argv).ok then Run(Some(LinterFailed(p.linter, exec(inv.argv).output)), [inv])
        else Run(RunAll(build, rest, exec).err, [inv] + RunAll(build, rest, exec).trace)
  {
    assert ([p] + rest)[0] == p && ([p] + rest)[1..] == rest;
  }

  lemma AppendAssoc(trace: seq<Invocation>, inv: Invocation, more: seq<Invocation>)
    ensures trace + ([inv] + more) == (trace + [inv]) + more
  {
  }
}
