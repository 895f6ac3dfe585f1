/**
 * The linter registry of lint/lint.go: a constant map from linter id to a
 * command string, the two applicability lists, and the construction of the
 * argv handed to the operating system. Only the first two space-separated
 * fields of a command string are ever used; the text after them (output
 * patterns, `{…}` placeholders) is carried along but never interpreted.
 */
module Registry {
  import opened Wrappers
  import opened GoStrings

  /** `lintersFlag`: linter id to command string, byte for byte as in the source. */
  const LintersFlag: map<string, string> := map[
    "aligncheck" := "aligncheck " + ".:^(?:[^:]+: )?(?P<path>[^:]+):(?P<line>\\d+):(?P<col>\\d+):\\s*(?P<message>.+)$",
    "deadcode" := "deadcode " + " ",
    "dupl" := "dupl " + "-plumbing -threshold {duplthreshold} ./*.go:^(?P<path>[^\\s][^:]+?\\.go):(?P<line>\\d+)-\\d+:\\s*(?P<message>.*)$",
    "errcheck" := "errcheck " + "-abspath",
    "goconst" := "goconst " + "-min-occurrences {min_occurrences} .:PATH:LINE:COL:MESSAGE",
    "gocyclo" := "gocyclo " + "-over {mincyclo} .:^(?P<cyclo>\\d+)\\s+\\S+\\s(?P<function>\\S+)\\s+(?P<path>[^:]+):(?P<line>\\d+):(\\d+)$",
    "gofmt" := "gofmt " + "-l -s ./*.go:^(?P<path>[^\\n]+)$",
    "goimports" := "goimports " + "-w ",
    "golint" := "golint " + "-min_confidence {min_confidence} .:PATH:LINE:COL:MESSAGE",
    "gotype" := "gotype " + "-e {tests=-a} .:PATH:LINE:COL:MESSAGE",
    "ineffassign" := "ineffassign " + "-n .:PATH:LINE:COL:MESSAGE",
    "interfacer" := "interfacer " + "./:PATH:LINE:COL:MESSAGE",
    "lll" := "lll " + "-g -l {maxlinelength} ./*.go:PATH:LINE:MESSAGE",
    "structcheck" := "structcheck " + "{tests=-t} .:^(?:[^:]+: )?(?P<path>[^:]+):(?P<line>\\d+):(?P<col>\\d+):\\s*(?P<message>.+)$",
    "test" := "go " + "test:^--- FAIL: .*$\\s+(?P<path>[^:]+):(?P<line>\\d+): (?P<message>.*)$",
    "testify" := "go " + "test:Location:\\s+(?P<path>[^:]+):(?P<line>\\d+)$\\s+Error:\\s+(?P<message>[^\\n]+)",
    "varcheck" := "varcheck " + ".:^(?:[^:]+: )?(?P<path>[^:]+):(?P<line>\\d+):(?P<col>\\d+):[\\s\\t]+(?P<message>.*)$",
    "vet" := "go " + "tool vet ./*.go:PATH:LINE:MESSAGE",
    "vetshadow" := "go " + "tool vet --shadow ./*.go:PATH:LINE:MESSAGE",
    "unconvert" := "unconvert " + ".:PATH:LINE:COL:MESSAGE",
    "gosimple" := "gosimple " + ".:PATH:LINE:COL:MESSAGE",
    "staticcheck" := "staticcheck " + ".:PATH:LINE:COL:MESSAGE",
    "misspell" := "misspell " + "./*.go:PATH:LINE:COL:MESSAGE"
  ]

  /** `packageLinters`: the linters run once per package. */
  const PackageLinters: seq<string> := ["errcheck"]

  /** `dirLinters`: the linters run once per directory. */
  const DirLinters: seq<string> := ["goimports"]

  /** Every id of `linters` is a key of `reg`. */
  predicate Covers(reg: map<string, string>, linters: seq<string>) {
    forall k :: 0 <= k < |linters| ==> linters[k] in reg
  }

  /** Go's map index `reg[id]`: the zero value "" for a missing key. */
  function Lookup(reg: map<string, string>, id: string): string {
    if id in reg then reg[id] else ""
  }

  /**
   * `strings.Split(cmd, " ")` followed by `[splitCmd[0], splitCmd[1], target]`.
   * None stands for the index-out-of-range panic on `splitCmd[1]`, which
   * happens exactly when the command string holds no space. Otherwise the
   * program is the text before the first space, the single argument is the
   * text between the first space and the second space (or the end), and
   * everything after a second space is dropped.
   */
  function BuildArgv(cmd: string, target: string): (r: Option<seq<string>>)
    ensures r.Some? <==> ' ' in cmd
    ensures r.Some? ==>
      && |r.value| == 3
      && r.value[2] == target
      && ' ' !in r.value[0] && ' ' !in r.value[1]
      && var head := r.value[0] + " " + r.value[1];
         head <= cmd && (|cmd| == |head| || cmd[|head|] == ' ')
  {
    var fields := Split(cmd, ' ');
    CountPositive(cmd, ' ');
    if |fields| < 2 then None
    else
      JoinSplit(cmd, ' ');
      assert cmd == fields[0] + " " + Join(fields[1..], ' ');
      if |fields| == 2 then
        assert Join(fields[1..], ' ') == fields[1];
        Some([fields[0], fields[1], target])
      else
        assert fields[1..][1..] == fields[2..];
        assert Join(fields[1..], ' ') == fields[1] + " " + Join(fields[2..], ' ');
        assert cmd == (fields[0] + " " + fields[1]) + (" " + Join(fields[2..], ' '));
        Some([fields[0], fields[1], target])
  }

  /** The argv the dispatcher passes to `exec.Command` for one (linter, target) pair. */
  function ArgvFor(reg: map<string, string>, linter: string, target: string): Option<seq<string>> {
    BuildArgv(Lookup(reg, linter), target)
  }

  /** A linter id missing from the registry always hits the panic on `splitCmd[1]`. */
  lemma MissingLinterPanics(reg: map<string, string>, linter: string, target: string)
    requires linter !in reg
    ensures ArgvFor(reg, linter, target) == None
  {
  }

  /** Every id of both applicability lists is registered. */
  lemma RegistryComplete()
    ensures Covers(LintersFlag, PackageLinters)
    ensures Covers(LintersFlag, DirLinters)
  {
  }

  /** Every registered command string contains a space: each one is a program name followed by " ". */
  lemma CommandHasSpace(linter: string)
    requires linter in LintersFlag
    ensures ' ' in LintersFlag[linter]
  {
  }

  /** Hence `strings.Split` yields at least two fields and `splitCmd[1]` is always in bounds. */
  lemma EveryCommandSplits(linter: string, target: string)
    requires linter in LintersFlag
    ensures |Split(LintersFlag[linter], ' ')| >= 2
    ensures ArgvFor(LintersFlag, linter, target).Some?
  {
    CommandHasSpace(linter);
    CountPositive(LintersFlag[linter], ' ');
  }

  /** The argv of the package linter: `errcheck -abspath <package>`. */
  lemma ErrcheckArgv(target: string)
    ensures Split(LintersFlag["errcheck"], ' ') == ["errcheck", "-abspath"]
    ensures ArgvFor(LintersFlag, "errcheck", target) == Some(["errcheck", "-abspath", target])
  {
    var cmd := LintersFlag["errcheck"];
    assert Join(["errcheck", "-abspath"], ' ') == cmd;
    SplitJoin(["errcheck", "-abspath"], ' ');
  }

  /** The argv of the directory linter: `goimports -w <dir>`; the empty third field is dropped. */
  lemma GoimportsArgv(target: string)
    ensures Split(LintersFlag["goimports"], ' ') == ["goimports", "-w", ""]
    ensures ArgvFor(LintersFlag, "goimports", target) == Some(["goimports", "-w", target])
  {
    var cmd := LintersFlag["goimports"];
    assert Join(["goimports", "-w", ""], ' ') == cmd;
    SplitJoin(["goimports", "-w", ""], ' ');
  }

  /** The double space of `deadcode` yields an empty argument, not a missing one. */
  lemma DeadcodeArgv(target: string)
    ensures Split(LintersFlag["deadcode"], ' ') == ["deadcode", "", ""]
    ensures ArgvFor(LintersFlag, "deadcode", target) == Some(["deadcode", "", target])
  {
    var cmd := LintersFlag["deadcode"];
    assert Join(["deadcode", "", ""], ' ') == cmd;
    SplitJoin(["deadcode", "", ""], ' ');
  }
}
