/**
 * `LintPackages` and `LintDirs` of lint/lint.go: the same dispatch loop,
 * run with the registry `lintersFlag` over the package list with
 * `packageLinters`, and over the directory list with `dirLinters`.
 */
module Lint {
  import opened Wrappers
  import opened GoStrings
  import opened Registry
  import opened Dispatcher

  /** The command builder of both functions: look the linter up in `lintersFlag` and split on " ". */
  function RegistryBuilder(): Builder {
    (linter: string, target: string) => ArgvFor(LintersFlag, linter, target)
  }

  /**
   * A dispatch whose only linter has the command `linter flag …` starts,
   * for the k-th target, exactly `[linter, flag, target]`.
   */
  lemma SingleLinterTrace(host: Host, build: Builder, targets: seq<string>, linter: string, flag: string)
    requires forall t :: build(linter, t) == Some([linter, flag, t])
    ensures var r := Dispatch(host, build, targets, [linter]);
      && |r.trace| <= |targets|
      && forall k :: 0 <= k < |r.trace| ==> r.trace[k] == Invocation(targets[k], linter, [linter, flag, targets[k]])
  {
    PairsOneLinter(targets, linter);
    DispatchOrder(host, build, targets, [linter]);
  }

  /**
   * Such a dispatch returns nil exactly when the setup succeeds and the run
   * of every target's argv does.
   */
  lemma SingleLinterVerdict(host: Host, build: Builder, targets: seq<string>, linter: string, flag: string)
    requires forall t :: build(linter, t) == Some([linter, flag, t])
    ensures var r := Dispatch(host, build, targets, [linter]);
      r.err.None? <==> SetupSucceeds(host) && forall k :: 0 <= k < |targets| ==> host.exec([linter, flag, targets[k]]).ok
  {
    if SetupSucceeds(host) {
      OneLinterScanSucceeds(build, host.exec, targets, linter, flag);
    }
  }

  /** The scan of a single linter over `targets` succeeds exactly when every target's argv runs with a nil error. */
  lemma OneLinterScanSucceeds(build: Builder, exec: seq<string> -> ExecResult, targets: seq<string>, linter: string, flag: string)
    requires forall t :: build(linter, t) == Some([linter, flag, t])
    ensures RunAll(build, Pairs(targets, [linter]), exec).err.None?
        <==> forall k :: 0 <= k < |targets| ==> exec([linter, flag, targets[k]]).ok
  {
    PairsOneLinter(targets, linter);
    var ps := Pairs(targets, [linter]);
    RunAllSucceeds(build, ps, exec);
    forall k | 0 <= k < |targets|
      ensures Succeeds(build, exec, ps[k]) <==> exec([linter, flag, targets[k]]).ok
    {
      OneLinterPairSucceeds(build, exec, targets, linter, flag, k);
    }
  }

  lemma OneLinterPairSucceeds(build: Builder, exec: seq<string> -> ExecResult, targets: seq<string>, linter: string, flag: string, k: int)
    requires forall t :: build(linter, t) == Some([linter, flag, t])
    requires 0 <= k < |targets|
    ensures k < |Pairs(targets, [linter])|
    ensures Succeeds(build, exec, Pairs(targets, [linter])[k]) <==> exec([linter, flag, targets[k]]).ok
  {
    PairsOneLinter(targets, linter);
    assert Invoke(build, Pair(targets[k], linter)) == Some(Invocation(targets[k], linter, [linter, flag, targets[k]]));
  }

  /** Such a dispatch never panics: every lookup yields a three-field argv. */
  lemma SingleLinterNoPanic(host: Host, build: Builder, targets: seq<string>, linter: string, flag: string)
    requires forall t :: build(linter, t) == Some([linter, flag, t])
    ensures var r := Dispatch(host, build, targets, [linter]);
      r.err.Some? ==> !r.err.value.IndexPanic?
  {
    PairsOneLinter(targets, linter);
    if SetupSucceeds(host) {
      RunAllFailFast(build, Pairs(targets, [linter]), host.exec);
    }
  }

  /**
   * A failure of such a dispatch carries the linter id, the combined output
   * of its last invocation, and the message `"<linter> found error in:<output>"`.
   */
  lemma SingleLinterFailure(host: Host, build: Builder, targets: seq<string>, linter: string, flag: string)
    requires Dispatch(host, build, targets, [linter]).err.Some?
    requires Dispatch(host, build, targets, [linter]).err.value.LinterFailed?
    ensures var r := Dispatch(host, build, targets, [linter]);
      && r.err.value.linter == linter
      && |r.trace| >= 1
      && host.exec(r.trace[|r.trace| - 1].argv) == ExecResult(false, r.err.value.output)
      && r.err.value.Message() == linter + " found error in:" + r.err.value.output
  {
    PairsOneLinter(targets, linter);
    FailFast(host, build, targets, [linter]);
  }

  /**
   * What a dispatch with the single linter `linter`, whose command starts
   * `linter flag`, reports over `targets`: the k-th invocation runs exactly
   * `[linter, flag, targets[k]]`; nil is returned exactly when the setup
   * succeeds and every target's run does; it never panics; and a failure
   * carries the last run's combined output in the message
   * `"<linter> found error in:<output>"`.
   */
  predicate OneLinterReport(host: Host, targets: seq<string>, linter: string, flag: string, r: Report) {
    && |r.trace| <= |targets|
    && (forall k :: 0 <= k < |r.trace| ==> r.trace[k] == Invocation(targets[k], linter, [linter, flag, targets[k]]))
    && (r.err.None? <==> SetupSucceeds(host) && forall k :: 0 <= k < |targets| ==> host.exec([linter, flag, targets[k]]).ok)
    && (r.err.Some? ==> !r.err.value.IndexPanic?)
    && (!SetupSucceeds(host) ==> r.trace == [] && r.err.Some? && (r.err.value.RootError? || r.err.value.ChdirError?))
    && (SetupSucceeds(host) && r.err.Some? ==> r.err.value.LinterFailed?)
    && (r.err.Some? && r.err.value.LinterFailed? ==>
          && r.err.value.linter == linter
          && |r.trace| >= 1
          && host.exec(r.trace[|r.trace| - 1].argv) == ExecResult(false, r.err.value.output)
          && r.err.value.Message() == linter + " found error in:" + r.err.value.output)
  }

  lemma SingleLinterDispatch(host: Host, build: Builder, targets: seq<string>, linter: string, flag: string)
    requires forall t :: build(linter, t) == Some([linter, flag, t])
    ensures OneLinterReport(host, targets, linter, flag, Dispatch(host, build, targets, [linter]))
  {
    SingleLinterTrace(host, build, targets, linter, flag);
    SingleLinterVerdict(host, build, targets, linter, flag);
    SingleLinterNoPanic(host, build, targets, linter, flag);
    var r := Dispatch(host, build, targets, [linter]);
    if r.err.Some? && r.err.value.LinterFailed? {
      SingleLinterFailure(host, build, targets, linter, flag);
    }
  }

  /** `LintPackages`: errcheck over every package, in order. */
  method LintPackages(host: Host, listOfPackages: seq<string>) returns (report: Report)
    ensures report == Dispatch(host, RegistryBuilder(), listOfPackages, PackageLinters)
    ensures OneLinterReport(host, listOfPackages, "errcheck", "-abspath", report)
  {
    assert PackageLinters == ["errcheck"];
    forall t ensures RegistryBuilder()("errcheck", t) == Some(["errcheck", "-abspath", t]) {
      ErrcheckArgv(t);
    }
    SingleLinterDispatch(host, RegistryBuilder(), listOfPackages, "errcheck", "-abspath");
    report := LintLoop(host, RegistryBuilder(), listOfPackages, PackageLinters);
  }

  /** `LintDirs`: goimports over every directory, in order. */
  method LintDirs(host: Host, listOfDirs: seq<string>) returns (report: Report)
    ensures report == Dispatch(host, RegistryBuilder(), listOfDirs, DirLinters)
    ensures OneLinterReport(host, listOfDirs, "goimports", "-w", report)
  {
    assert DirLinters == ["goimports"];
    forall t ensures RegistryBuilder()("goimports", t) == Some(["goimports", "-w", t]) {
      GoimportsArgv(t);
    }
    SingleLinterDispatch(host, RegistryBuilder(), listOfDirs, "goimports", "-w");
    report := LintLoop(host, RegistryBuilder(), listOfDirs, DirLinters);
  }
}
