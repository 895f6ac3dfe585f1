# gocomlinter linter dispatch, modelled in Dafny

gocomlinter runs a fixed set of Go linters over a repository. Its core is
lint/lint.go, which has three parts:

- **`lintersFlag`.** A constant registry that maps each linter id to a
  command string. The string is the program name, a space, and further
  text.
- **`packageLinters` and `dirLinters`.** Two applicability lists: the
  linters run once per package, and the linters run once per directory.
- **`LintPackages` and `LintDirs`.** Two identical dispatch loops. Each
  one resolves the repository root with `git rev-parse --show-toplevel`,
  trims that output, and changes into the root. Then, for every target in
  order, it runs every applicable linter in order:
  - It splits the linter's command string on `" "`.
  - It runs `splitCmd[0] splitCmd[1] <target>`.
  - It returns `"<linter> found error in:<output>"` at the first run that
    reports an error.

The model has five modules, one per file:

- **`Wrappers`** (wrappers.dfy): `Option` and `Result`.
- **`GoStrings`** (gostrings.dfy): Go's `strings.Split` with a
  one-character separator, `strings.Join`, and `strings.TrimSpace` over
  the Unicode White_Space set that `unicode.IsSpace` tests.
- **`Registry`** (registry.dfy):
  - `lintersFlag`, with every command string exactly as in the source;
  - the two applicability lists;
  - the argv built from a command string, including the index-out-of-range
    panic on `splitCmd[1]` when the command has no space.
- **`Dispatcher`** (dispatch.dfy): the dispatch loop, written once for any
  command builder, target list and linter list. It has two forms:
  - `Dispatch`, a pure reference definition;
  - the method `LintLoop`, the two nested Go loops with their invariants,
    proved to compute `Dispatch`.
  The operating system is a `Host` value with three fields: the outcome of
  the git query, the outcome of `os.Chdir` for each path, and the outcome
  of running each argv.
- **`Lint`** (lint.dfy): `LintPackages` and `LintDirs` as instances of the
  loop, using the real registry and lists.

A run produces a `Report` with three parts:

- the returned error, where None is Go's nil;
- the directory passed to `os.Chdir`;
- the sequence of started linter invocations, each with its exact argv.

## Model

| member | source | states |
|---|---|---|
| GoStrings.TrimSpace | lint/lint.go:74 | The trimmed root is never longer than the git output and neither starts nor ends with white space. |
| GoStrings.TrimSpaceShape | lint/lint.go:73-74 | The trimmed root is an infix of the git output with only white space cut on either side. It is empty exactly when the output is all white space. |
| GoStrings.TrimSpacePadded | lint/lint.go:73-74 | A path with no white space at either end comes back exactly, whatever white space (such as git's trailing newline) surrounds it. |
| GoStrings.TrimSpaceIdempotent | lint/lint.go:74 | Trimming an already trimmed root changes nothing. |
| GoStrings.Split | lint/lint.go:85 | `strings.Split` yields one field more than there are separators, and no field contains the separator. |
| GoStrings.JoinSplit | lint/lint.go:85 | Joining the fields of a split with the separator gives back the command string, so splitting loses no character. |
| GoStrings.SplitJoin | lint/lint.go:85 | Splitting a join of separator-free fields gives back exactly those fields, including empty ones. |
| Registry.RegistryComplete | lint/lint.go:32-63 | Every id in `packageLinters` and in `dirLinters` is a key of `lintersFlag`. |
| Registry.CommandHasSpace | lint/lint.go:32-56 | Every command string of the 23 registry entries contains a space. |
| Registry.EveryCommandSplits | lint/lint.go:84-88 | For every registered linter, the split yields at least two fields, so `splitCmd[1]` is in bounds and an argv is always built. |
| Registry.BuildArgv | lint/lint.go:84-88 | An argv exists exactly when the command string contains a space; otherwise indexing `splitCmd[1]` panics. The argv has three elements and ends with the target. Its first two elements are free of spaces and are the first two fields of the command. Those fields, joined by a space, are a prefix of the command that ends at a space or at the end. |
| Registry.Lookup | lint/lint.go:84 | Go's map index: the command string of a registered id, and "" for a missing one. What that means for the argv is stated by MissingLinterPanics and EveryCommandSplits. |
| Registry.ArgvFor | lint/lint.go:84-88 | The argv of one (linter, target) pair: look up the command, then build from it as BuildArgv states. |
| Registry.MissingLinterPanics | lint/lint.go:84-86 | A linter id missing from the registry reads as "", and the build panics. |
| Registry.ErrcheckArgv | lint/lint.go:36 | The errcheck command splits into `["errcheck", "-abspath"]`, and the package linter runs as `errcheck -abspath <package>`. |
| Registry.GoimportsArgv | lint/lint.go:40 | The goimports command splits into `["goimports", "-w", ""]`, because the trailing space leaves an empty field. The directory linter runs as `goimports -w <dir>`, with that empty field dropped. |
| Registry.DeadcodeArgv | lint/lint.go:34 | The deadcode command splits into `["deadcode", "", ""]`, so its argv is `["deadcode", "", <target>]`: the double space becomes an empty argument, not a panic. |
| Dispatcher.Row | lint/lint.go:82 | The inner loop's pairs for one target: one per linter, the j-th with the j-th linter. |
| Dispatcher.Pairs | lint/lint.go:80-82 | The pairs both loops visit, target-major. Their count, positions and members are stated by PairsLength, PairsOrder and PairsMembers. |
| Dispatcher.Invoke | lint/lint.go:84-88 | The invocation the loop body starts for one pair, or none where building the argv panics. Its use in the scan is stated by RunAllOrder and RunAllFailFast. |
| Dispatcher.LintError.Message | lint/lint.go:91 | A linter failure's message is the linter id, then " found error in:", then the raw combined output, as the `fmt.Errorf` builds it. The panic's message is that of current Go runtimes. |
| Dispatcher.PairsLength | lint/lint.go:80-82 | The nested loops visit one pair per (target, linter) combination, so (number of targets) × (number of linters) pairs in all. |
| Dispatcher.PairsOrder | lint/lint.go:80-82 | The visit order is target-major: target i with linter j is visited at position i × (number of linters) + j. |
| Dispatcher.PairsMembers | lint/lint.go:80-82 | A pair is visited exactly when its target is in the target list and its linter is in the linter list. |
| Dispatcher.PairsOneLinter | lint/lint.go:80-82 | With a single applicable linter, the k-th pair is the k-th target with that linter. |
| Dispatcher.RunAll | lint/lint.go:80-97 | The scan starts at most one invocation per pair. A scan error is only a panic or a failed linter. |
| Dispatcher.RunAllOrder | lint/lint.go:80-88 | The k-th started invocation is the argv built for the k-th pair, so the invocations form a prefix of the product in visit order. |
| Dispatcher.RunAllSucceeds | lint/lint.go:89-99 | The scan ends without error exactly when every pair's argv is built and its run returns nil. In that case every pair was started. |
| Dispatcher.RunAllFailFast | lint/lint.go:84-94 | After a failed run, that run was the last invocation and every earlier pair succeeded. The error carries that pair's linter id and the run's output, and the run's result was (error, output). After a panic, every started pair succeeded, and the panicking pair was never started. |
| Dispatcher.Dispatch | lint/lint.go:65-100 | A git failure is returned as is, with no chdir and no linter started. The chdir target is the trimmed git output. A chdir failure is returned with no linter started. A linter is started only after both setup steps succeed. |
| Dispatcher.DispatchOrder | lint/lint.go:80-88 | The invocations of a whole run form a prefix of the target-major product, each with the argv built for its pair. |
| Dispatcher.SucceedsIff | lint/lint.go:65-100 | Nil is returned exactly when three things hold: the root resolves, the chdir succeeds, and every (target, linter) combination gets an argv whose run returns nil. In that case (number of targets) × (number of linters) linters ran. |
| Dispatcher.NoTargets | lint/lint.go:80-99 | With no targets no linter runs, and the verdict is that of the setup alone. |
| Dispatcher.RunAllFirstFailure | lint/lint.go:80-94 | If every pair before position k succeeds and pair k's linter is started and fails, the scan ends with exactly k + 1 invocations and returns that pair's linter id and output. |
| Dispatcher.FirstFailureStops | lint/lint.go:80-94 | The same for a whole run after a successful setup: the first failing pair's error is returned and no later pair is started. |
| Dispatcher.FailFast | lint/lint.go:89-94 | A linter failure ends the run at the failing invocation, after every earlier pair succeeded. The error's message is `"<linter> found error in:<output>"` with that run's combined output. |
| Dispatcher.VerdictIgnoresOutput | lint/lint.go:89-91 | Only whether each run's error is nil steers the scan. Two run oracles that agree on which argvs fail start the same invocations and agree on whether the scan ends without error. |
| Dispatcher.DispatchIgnoresOutput | lint/lint.go:65-100 | The same for whole runs: two hosts with the same git outcome and chdir behaviour, whose runs agree on which argvs fail, start the same invocations and agree on whether nil is returned. A linter that exits cleanly with output counts as success. |
| Dispatcher.LintLoop | lint/lint.go:65-100 | The imperative form of the function (git, trim, chdir, then the nested loops with early returns) computes exactly `Dispatch`. |
| Dispatcher.ScanTargets | lint/lint.go:80-97 | The outer loop over targets, with its early return, computes the reference scan over all pairs. |
| Dispatcher.LintTarget | lint/lint.go:82-95 | The inner loop over one target's linters either stops with the scan's error and invocations, or leaves the remaining targets' scan unchanged. |
| Lint.SingleLinterTrace | lint/lint.go:80-88 | With one applicable linter whose command starts `linter flag`, the k-th invocation is exactly `[linter, flag, targets[k]]`. |
| Lint.SingleLinterVerdict | lint/lint.go:65-100 | With one applicable linter, nil is returned exactly when the setup succeeds and every target's argv runs without error. |
| Lint.OneLinterScanSucceeds | lint/lint.go:80-97 | The scan for one linter succeeds exactly when every target's argv runs without error. |
| Lint.SingleLinterNoPanic | lint/lint.go:84-86 | A linter whose argv always builds never makes the loop panic. |
| Lint.SingleLinterFailure | lint/lint.go:89-93 | A failure names the linter and carries the last run's output in `"<linter> found error in:<output>"`. |
| Lint.SingleLinterDispatch | lint/lint.go:65-100 | Combines the four single-linter properties above for any builder that gives the linter the argv `[linter, flag, target]`. |
| Lint.LintPackages | lint/lint.go:65-100 | `LintPackages` computes the dispatch with the real registry and `packageLinters`. Package k runs `errcheck -abspath <package k>`, in order. It never panics. It returns nil exactly when setup succeeds and errcheck succeeds on every package. A git or chdir failure returns that error and starts no linter. When setup succeeds and a run fails, it returns a linter failure `"errcheck found error in:<output>"` with the output of that last run. |
| Lint.LintDirs | lint/lint.go:102-138 | `LintDirs` computes the dispatch with the real registry and `dirLinters`. Directory k runs `goimports -w <dir k>`, in order. It never panics. It returns nil exactly when setup succeeds and goimports succeeds on every directory. A git or chdir failure returns that error and starts no linter. When setup succeeds and a run fails, it returns a linter failure `"goimports found error in:<output>"` with the output of that last run. |

## Left out

- **The operating system.**
  - Running `git rev-parse --show-toplevel`, `os.Chdir` and
    `exec.Command(...).CombinedOutput()` are inputs to the model (the
    `Host` oracles), not effects.
  - The outcome of running an argv is a function of the argv alone.
    Effects of one linter on the next are not modelled; for example,
    `goimports -w` rewrites files.
  - A failed start (binary missing) and a non-zero exit are both "error
    not nil".
- **Logging.** The `log.Debug` and `log.Error` calls and the debug string
  built with `fmt.Sprintf` (lines 81, 83, 86-87, 92, 118, 120, 123-124,
  128, 130) do not affect the result.
- **Git's error value.** A git failure is returned as the error value that
  `cmd.Output()` produced. It is modelled as an opaque reason string.
- **UTF-8.** The git output is taken as a sequence of Unicode scalar
  values. Decoding invalid UTF-8 bytes is not modelled.
- **Panics.** The runtime panic on `splitCmd[1]` is an error value
  (`IndexPanic`) that ends the run, not an unwinding of the goroutine. It
  is proved never to occur for the linters that the two lists name.
- **The rest of each command string.** Output patterns and `{…}`
  placeholders are kept as text. lint/lint.go never substitutes the
  placeholders, never matches linter output against the patterns, and
  never builds structured findings, so the model does not either. A
  failure is reported as one error whose text embeds the raw combined
  output.
- **Fail-fast.** The scan stops at the first failure, as the loops'
  `return err` does. Collecting all failures is not modelled, because the
  code does not do it.
- **Callers and installation.** cmd/lint.go, cmd/lintdir.go and
  installer/installer.go are not part of this model.
