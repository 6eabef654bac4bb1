/**
 * The evaluator: parse each workflow file, run a registry over it (or
 * report the parse failure), and concatenate the per-file findings. Also
 * the workflow-file collection of the command line and of the Action.
 * File-system access is a parameter: a `PathKind` says what is at a path,
 * `join` stands for `path.join` and `read` for `fs.readFileSync`.
 */
module Engine {
  import Collect
  import opened Wrappers
  import opened Document
  import opened Findings
  import opened Parser
  import opened Rules
  import opened Report

  const ParseErrorRule := "parse-error"

  /** The one finding for a file that does not parse. */
  function ParseError(file: string, error: string): Finding {
    Finding(file, 1, Error, ParseErrorRule, "Failed to parse: " + error, None)
  }

  /** The checks can walk whatever `parse` makes of `content` without throwing. */
  predicate Walkable(content: string, parse: Deserializer) {
    parse(content).Success? ==> Shaped(parse(content).value)
  }

  /**
   * The body of the evaluator's loop for one file: a parse failure
   * short-circuits to one `parse-error` finding at line 1; otherwise the
   * registry's findings.
   */
  function LintFile(registry: seq<RuleId>, file: string, content: string, parse: Deserializer): (r: seq<Finding>)
    requires Walkable(content, parse)
    ensures forall k :: 0 <= k < |r| ==> r[k].file == file && 1 <= r[k].line <= |Lines(content)|
    ensures parse(content).Failure? ==> r == [ParseError(file, parse(content).error)]
    ensures parse(content).Success? ==> forall k :: 0 <= k < |r| ==> r[k].rule in RegistryNames(registry)
  {
    match parse(content)
    case Failure(error) => [ParseError(file, error)]
    case Success(doc) => RunAll(registry, file, content, doc)
  }

  /** A `parse-error` finding appears exactly when the file does not parse. */
  lemma ParseErrorIffUnparsable(registry: seq<RuleId>, file: string, content: string, parse: Deserializer)
    requires Walkable(content, parse)
    ensures (exists k :: 0 <= k < |LintFile(registry, file, content, parse)|
                && LintFile(registry, file, content, parse)[k].rule == ParseErrorRule)
            <==> parse(content).Failure?
  {
    var r := LintFile(registry, file, content, parse);
    if parse(content).Failure? {
      assert r[0].rule == ParseErrorRule;
    } else {
      forall k | 0 <= k < |r| ensures r[k].rule != ParseErrorRule {
        var i :| 0 <= i < |registry| && r[k].rule == RuleName(registry[i]);
        RuleNamesDistinct(registry[i], registry[i]);
      }
    }
  }

  /** On a parsed file, the registry's rules report one after the other, in registry order. */
  lemma LintFileInRegistryOrder(a: seq<RuleId>, b: seq<RuleId>, file: string, content: string, parse: Deserializer)
    requires Walkable(content, parse) && parse(content).Success?
    ensures LintFile(a + b, file, content, parse) == LintFile(a, file, content, parse) + LintFile(b, file, content, parse)
    ensures |a| == 1 ==> LintFile(a, file, content, parse) == Run(a[0], file, content, parse(content).value)
  {
    RunAllAppend(a, b, file, content, parse(content).value);
    if |a| == 1 {
      assert a == [a[0]];
      RunAllSingle(a[0], file, content, parse(content).value);
    }
  }

  /** A file path with its text. */
  type Source = (string, string)

  /** `f` comes from one of `files` and points at one of its lines. */
  predicate LocatedIn(f: Finding, files: seq<Source>) {
    exists i :: 0 <= i < |files| && f.file == files[i].0 && 1 <= f.line <= |Lines(files[i].1)|
  }

  /** The findings of each file, in file order. */
  function PerFile(registry: seq<RuleId>, files: seq<Source>, parse: Deserializer): (r: seq<seq<Finding>>)
    requires forall i :: 0 <= i < |files| ==> Walkable(files[i].1, parse)
    ensures |r| == |files|
  {
    seq(|files|, i requires 0 <= i < |files| => LintFile(registry, files[i].0, files[i].1, parse))
  }

  /** A finding `Lint` may report: located in one of the files, from a rule or the parser. */
  predicate Reportable(f: Finding, registry: seq<RuleId>, files: seq<Source>) {
    LocatedIn(f, files) && (f.rule == ParseErrorRule || f.rule in RegistryNames(registry))
  }

  /**
   * `lint(files)`: the per-file findings, concatenated in file order. Each
   * points into one of the files and is a parse error or names a rule of
   * the registry.
   */
  function Lint(registry: seq<RuleId>, files: seq<Source>, parse: Deserializer): (r: seq<Finding>)
    requires forall i :: 0 <= i < |files| ==> Walkable(files[i].1, parse)
    ensures forall k :: 0 <= k < |r| ==> Reportable(r[k], registry, files)
  {
    var outs := PerFile(registry, files, parse);
    forall i, k | 0 <= i < |outs| && 0 <= k < |outs[i]| ensures Reportable(outs[i][k], registry, files) {
      assert LocatedIn(outs[i][k], files) by {
        assert outs[i][k].file == files[i].0 && 1 <= outs[i][k].line <= |Lines(files[i].1)|;
      }
    }
    Collect.FlattenAll(outs, f => Reportable(f, registry, files));
    Collect.Flatten(outs)
  }

  lemma PerFileAppend(registry: seq<RuleId>, a: seq<Source>, b: seq<Source>, parse: Deserializer)
    requires forall i :: 0 <= i < |a| ==> Walkable(a[i].1, parse)
    requires forall i :: 0 <= i < |b| ==> Walkable(b[i].1, parse)
    requires forall i :: 0 <= i < |a + b| ==> Walkable((a + b)[i].1, parse)
    ensures PerFile(registry, a + b, parse) == PerFile(registry, a, parse) + PerFile(registry, b, parse)
  {
    var pa, pb := PerFile(registry, a, parse), PerFile(registry, b, parse);
    var pab := PerFile(registry, a + b, parse);
    forall j | 0 <= j < |pab| ensures pab[j] == (pa + pb)[j] {
      if j < |a| {
        assert (a + b)[j] == a[j];
      } else {
        assert (a + b)[j] == b[j - |a|];
      }
    }
  }

  /** Linting `a + b` is linting `a`, then `b`. */
  lemma LintAppend(registry: seq<RuleId>, a: seq<Source>, b: seq<Source>, parse: Deserializer)
    requires forall i :: 0 <= i < |a| ==> Walkable(a[i].1, parse)
    requires forall i :: 0 <= i < |b| ==> Walkable(b[i].1, parse)
    ensures forall i :: 0 <= i < |a + b| ==> Walkable((a + b)[i].1, parse)
    ensures Lint(registry, a + b, parse) == Lint(registry, a, parse) + Lint(registry, b, parse)
  {
    forall i | 0 <= i < |a + b| ensures Walkable((a + b)[i].1, parse) {
      if i >= |a| {
        assert (a + b)[i] == b[i - |a|];
      }
    }
    PerFileAppend(registry, a, b, parse);
    Collect.FlattenAppend(PerFile(registry, a, parse), PerFile(registry, b, parse));
  }

  /** Linting one file is the evaluator's loop body for it. */
  lemma LintSingle(registry: seq<RuleId>, file: Source, parse: Deserializer)
    requires Walkable(file.1, parse)
    ensures Lint(registry, [file], parse) == LintFile(registry, file.0, file.1, parse)
  {
    var outs := PerFile(registry, [file], parse);
    assert outs[1..] == [];
    assert Collect.Flatten(outs) == outs[0] + Collect.Flatten(outs[1..]);
  }

  // ---------------------------------------------------------------------
  // Collecting workflow files
  // ---------------------------------------------------------------------

  predicate EndsWith(s: string, suffix: string) {
    |suffix| <= |s| && s[|s| - |suffix|..] == suffix
  }

  /** `/\.ya?ml$/.test(name)` */
  predicate IsWorkflowName(name: string) {
    EndsWith(name, ".yml") || EndsWith(name, ".yaml")
  }

  /** The same test read as a regex search: `.yml` or `.yaml` ends the name. */
  lemma WorkflowNameIsRegexMatch(name: string)
    ensures IsWorkflowName(name) <==>
      exists i :: 0 <= i <= |name| && (name[i..] == ".yml" || name[i..] == ".yaml")
  {
    if i :| 0 <= i <= |name| && (name[i..] == ".yml" || name[i..] == ".yaml") {
      assert |name[i..]| == |name| - i;
    }
    if EndsWith(name, ".yml") {
      assert name[|name| - 4..] == ".yml";
    } else if EndsWith(name, ".yaml") {
      assert name[|name| - 5..] == ".yaml";
    }
  }

  /** The directory entries that name workflow files, in listing order. */
  function WorkflowNames(entries: seq<string>): (r: seq<string>)
    ensures |r| <= |entries|
    ensures forall name :: name in r <==> name in entries && IsWorkflowName(name)
  {
    if |entries| == 0 then []
    else (if IsWorkflowName(entries[0]) then [entries[0]] else []) + WorkflowNames(entries[1..])
  }

  /** The filter keeps listing order and repeats: the names of `a + b` are those of `a`, then of `b`. */
  lemma {:induction false} WorkflowNamesAppend(a: seq<string>, b: seq<string>)
    ensures WorkflowNames(a + b) == WorkflowNames(a) + WorkflowNames(b)
    decreases |a|
  {
    if |a| > 0 {
      assert (a + b)[1..] == a[1..] + b;
      assert (a + b)[0] == a[0];
      WorkflowNamesAppend(a[1..], b);
    } else {
      assert a + b == b;
    }
  }

  /** A single entry is kept exactly when it names a workflow file. */
  lemma WorkflowNamesOne(name: string)
    ensures WorkflowNames([name]) == if IsWorkflowName(name) then [name] else []
  {
    assert [name][1..] == [];
  }

  /** What `fs` finds at a path: nothing, a file, or a directory with its entry names. */
  datatype PathKind = Missing | RegularFile | Directory(entries: seq<string>)

  /** `path.join` */
  type Joiner = (string, string) -> string

  /** The paths of the workflow files in `dir`, in listing order. */
  function WorkflowPaths(dir: string, entries: seq<string>, join: Joiner): (r: seq<string>)
    ensures |r| == |WorkflowNames(entries)|
    ensures forall k :: 0 <= k < |r| ==> r[k] == join(dir, WorkflowNames(entries)[k])
    ensures forall p :: p in r ==> exists name :: name in entries && IsWorkflowName(name) && p == join(dir, name)
  {
    var names := WorkflowNames(entries);
    var r := seq(|names|, k requires 0 <= k < |names| => join(dir, names[k]));
    forall p | p in r ensures exists name :: name in entries && IsWorkflowName(name) && p == join(dir, name) {
      var k :| 0 <= k < |r| && r[k] == p;
      assert names[k] in names;
    }
    r
  }

  /**
   * `collectFiles(target)`: a missing path is an error; a file is linted
   * whatever its name; a directory contributes the paths of its
   * `.yml`/`.yaml` entries.
   */
  function CollectFiles(target: string, kind: PathKind, join: Joiner): (r: Result<seq<string>, string>)
    ensures r.Failure? <==> kind.Missing?
    ensures r.Failure? ==> r.error == "Path not found: " + target
    ensures kind.RegularFile? ==> r == Success([target])
    ensures kind.Directory? ==> r == Success(WorkflowPaths(target, kind.entries, join))
  {
    match kind
    case Missing => Failure("Path not found: " + target)
    case RegularFile => Success([target])
    case Directory(entries) => Success(WorkflowPaths(target, entries, join))
  }

  /** Each path with the text `read` gives for it. */
  function ReadAll(paths: seq<string>, read: string -> string): (r: seq<Source>)
    ensures |r| == |paths|
    ensures forall i :: 0 <= i < |r| ==> r[i] == (paths[i], read(paths[i]))
  {
    seq(|paths|, i requires 0 <= i < |paths| => (paths[i], read(paths[i])))
  }

  /** Every path in `paths` reads as text the checks can walk. */
  predicate AllWalkable(paths: seq<string>, read: string -> string, parse: Deserializer) {
    forall i :: 0 <= i < |paths| ==> Walkable(read(paths[i]), parse)
  }

  /** Lint the files at `paths`; every finding names one of them. */
  function LintPaths(registry: seq<RuleId>, paths: seq<string>, read: string -> string, parse: Deserializer)
    : (r: seq<Finding>)
    requires AllWalkable(paths, read, parse)
    ensures forall k :: 0 <= k < |r| ==> r[k].file in paths
    ensures forall k :: 0 <= k < |r| ==> r[k].rule == ParseErrorRule || r[k].rule in RegistryNames(registry)
  {
    var sources := ReadAll(paths, read);
    var r := Lint(registry, sources, parse);
    forall k | 0 <= k < |r| ensures r[k].file in paths {
      assert Reportable(r[k], registry, sources);
      var i :| 0 <= i < |sources| && r[k].file == sources[i].0 && 1 <= r[k].line <= |Lines(sources[i].1)|;
      assert sources[i].0 == paths[i];
    }
    r
  }

  /** How a command-line run ends: the findings it printed and its exit status. */
  datatype Outcome = Outcome(findings: seq<Finding>, exitCode: int)

  /**
   * The command line after argument handling: collect, stop early when the
   * path is missing (status 1) or holds no workflow (status 0), otherwise
   * lint with the full registry and exit 1 exactly when some finding is an
   * error.
   */
  function CliRun(target: string, kind: PathKind, join: Joiner, read: string -> string, parse: Deserializer): (o: Outcome)
    requires kind.RegularFile? ==> Walkable(read(target), parse)
    requires kind.Directory? ==> AllWalkable(WorkflowPaths(target, kind.entries, join), read, parse)
    ensures kind.Missing? ==> o == Outcome([], 1)
    ensures kind.Directory? && WorkflowNames(kind.entries) == [] ==> o == Outcome([], 0)
    ensures o.exitCode == 0 || o.exitCode == 1
    ensures o.exitCode == 1 <==> kind.Missing? || HasError(o.findings)
    ensures kind.RegularFile? ==> o.findings == LintFile(CliRegistry, target, read(target), parse)
    ensures kind.Directory? ==> forall k :: 0 <= k < |o.findings| ==>
      o.findings[k].file in WorkflowPaths(target, kind.entries, join)
  {
    match kind
    case Missing => Outcome([], 1)
    case RegularFile =>
      var findings := LintPaths(CliRegistry, [target], read, parse);
      assert ReadAll([target], read) == [(target, read(target))];
      LintSingle(CliRegistry, (target, read(target)), parse);
      Finish(findings)
    case Directory(entries) =>
      var paths := WorkflowPaths(target, entries, join);
      if |paths| == 0 then Outcome([], 0)
      else Finish(LintPaths(CliRegistry, paths, read, parse))
  }

  /** The printed findings with the exit status `results.some(error) ? 1 : 0`. */
  function Finish(findings: seq<Finding>): (o: Outcome)
    ensures o.findings == findings
    ensures o.exitCode == 0 || o.exitCode == 1
    ensures o.exitCode == 1 <==> HasError(findings)
  {
    HasErrorIffCounted(findings);
    Outcome(findings, CliExitCode(findings))
  }

  /**
   * `lintWorkflows(dir)` of the Action: a missing directory is an error,
   * an empty listing yields nothing, otherwise every workflow file is
   * linted with the Action registry.
   */
  function LintWorkflows(dir: string, kind: PathKind, join: Joiner, read: string -> string, parse: Deserializer)
    : (r: Result<seq<Finding>, string>)
    requires !kind.RegularFile?
    requires kind.Directory? ==> AllWalkable(WorkflowPaths(dir, kind.entries, join), read, parse)
    ensures r.Failure? <==> kind.Missing?
    ensures r.Failure? ==> r.error == "Directory not found: " + dir
    ensures kind.Directory? && WorkflowNames(kind.entries) == [] ==> r == Success([])
    ensures r.Success? ==> forall k :: 0 <= k < |r.value| ==>
      r.value[k].file in WorkflowPaths(dir, kind.entries, join)
    ensures r.Success? ==> forall k :: 0 <= k < |r.value| ==>
      r.value[k].rule == ParseErrorRule || r.value[k].rule in RegistryNames(ActionRegistry)
  {
    match kind
    case Missing => Failure("Directory not found: " + dir)
    case Directory(entries) =>
      var paths := WorkflowPaths(dir, entries, join);
      if |paths| == 0 then Success([])
      else Success(LintPaths(ActionRegistry, paths, read, parse))
  }
}
