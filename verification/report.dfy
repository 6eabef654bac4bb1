/**
 * What happens to the findings once they are collected: grouping by file,
 * the per-file listing sorted by line, the per-severity summary, the exit
 * disposition and the GitHub annotations.
 */
module Report {
  import opened Wrappers
  import opened Findings

  // ---------------------------------------------------------------------
  // Severity summary and disposition
  // ---------------------------------------------------------------------

  /** `results.filter(r => r.severity === s).length` */
  function CountSeverity(r: seq<Finding>, s: Severity): (n: nat)
    ensures n <= |r|
  {
    if |r| == 0 then 0 else (if r[0].severity == s then 1 else 0) + CountSeverity(r[1..], s)
  }

  /** Counts add over concatenation: each finding is counted once, where it occurs. */
  lemma {:induction false} CountSeverityAppend(a: seq<Finding>, b: seq<Finding>, s: Severity)
    ensures CountSeverity(a + b, s) == CountSeverity(a, s) + CountSeverity(b, s)
    decreases |a|
  {
    if |a| > 0 {
      assert (a + b)[1..] == a[1..] + b;
      assert (a + b)[0] == a[0];
      CountSeverityAppend(a[1..], b, s);
    } else {
      assert a + b == b;
    }
  }

  /** A single finding counts once, toward its own severity only. */
  lemma CountSeverityOne(x: Finding, s: Severity)
    ensures CountSeverity([x], s) == if x.severity == s then 1 else 0
  {
    assert [x][1..] == [];
  }

  /** The summary line adds up: every finding is an error, a warning or an info. */
  lemma {:induction false} SeverityCountsAddUp(r: seq<Finding>)
    ensures CountSeverity(r, Error) + CountSeverity(r, Warning) + CountSeverity(r, Info) == |r|
    decreases |r|
  {
    if |r| > 0 {
      SeverityCountsAddUp(r[1..]);
    }
  }

  /** `results.some(r => r.severity === 'error')` */
  predicate HasError(r: seq<Finding>) {
    exists k :: 0 <= k < |r| && r[k].severity == Error
  }

  /** Some finding is an error exactly when the error count is positive. */
  lemma {:induction false} HasErrorIffCounted(r: seq<Finding>)
    ensures HasError(r) <==> CountSeverity(r, Error) > 0
    decreases |r|
  {
    if |r| > 0 {
      HasErrorIffCounted(r[1..]);
      if HasError(r[1..]) {
        var k :| 0 <= k < |r[1..]| && r[1..][k].severity == Error;
        assert r[k + 1].severity == Error;
      }
      if HasError(r) && r[0].severity != Error {
        var k :| 0 <= k < |r| && r[k].severity == Error;
        assert r[1..][k - 1].severity == Error;
      }
    }
  }

  /** The command-line exit status after linting: 1 exactly when some finding is an error. */
  function CliExitCode(r: seq<Finding>): (code: int)
    ensures code == 0 || code == 1
    ensures code == 1 <==> CountSeverity(r, Error) > 0
  {
    HasErrorIffCounted(r);
    if HasError(r) then 1 else 0
  }

  /** Findings of several files fail the run when the findings of any one of them would. */
  lemma CliExitCodeAppend(a: seq<Finding>, b: seq<Finding>)
    ensures CliExitCode(a + b) == if CliExitCode(a) == 1 || CliExitCode(b) == 1 then 1 else 0
  {
    if HasError(a) {
      var k :| 0 <= k < |a| && a[k].severity == Error;
      assert (a + b)[k] == a[k];
    }
    if HasError(b) {
      var k :| 0 <= k < |b| && b[k].severity == Error;
      assert (a + b)[|a| + k] == b[k];
    }
    if HasError(a + b) {
      var k :| 0 <= k < |a + b| && (a + b)[k].severity == Error;
      if k < |a| {
        assert a[k] == (a + b)[k];
      } else {
        assert b[k - |a|] == (a + b)[k];
      }
    }
  }

  /** Where the linter runs: as a GitHub Action with its `fail-on-error` input, or from a shell. */
  datatype Mode = ActionMode(failOnErrorInput: string) | CommandLineMode

  /**
   * Whether the run ends in failure (`core.setFailed` or exit status 1):
   * in Action mode only when `fail-on-error` is anything but exactly
   * `'false'`.
   */
  function RunFails(mode: Mode, r: seq<Finding>): (fails: bool)
    ensures fails ==> CliExitCode(r) == 1
    ensures mode.CommandLineMode? ==> (fails <==> CliExitCode(r) == 1)
    ensures mode.ActionMode? && mode.failOnErrorInput == "false" ==> !fails
  {
    match mode
    case ActionMode(input) => input != "false" && HasError(r)
    case CommandLineMode => HasError(r)
  }

  /** Only the exact text `false` turns failing off; `False` or an empty input do not. */
  lemma OnlyExactFalseDisables(input: string, r: seq<Finding>)
    requires input != "false"
    ensures RunFails(ActionMode(input), r) == RunFails(CommandLineMode, r)
  {
  }

  // ---------------------------------------------------------------------
  // GitHub annotations
  // ---------------------------------------------------------------------

  /** `core.error`, `core.warning` or `core.notice`. */
  datatype AnnotationLevel = ErrorAnnotation | WarningAnnotation | NoticeAnnotation

  datatype Annotation = Annotation(level: AnnotationLevel, message: string, file: string, startLine: nat)

  /** `error` and `warning` keep their level; everything else becomes a notice. */
  function Level(s: Severity): (l: AnnotationLevel)
    ensures l == ErrorAnnotation <==> s == Error
    ensures l == WarningAnnotation <==> s == Warning
    ensures l == NoticeAnnotation <==> s == Info
  {
    match s
    case Error => ErrorAnnotation
    case Warning => WarningAnnotation
    case Info => NoticeAnnotation
  }

  /** `r.fix` is truthy: present and not empty. */
  predicate HasFix(f: Finding) {
    f.fix.Some? && f.fix.value != ""
  }

  const FixSeparator := " \U{2014} "

  /** `[rule] message`, then ` — fix` when there is a fix. */
  function AnnotationMessage(f: Finding): (m: string)
    ensures |m| >= |f.rule| + |f.message| + 3
    ensures m[..|f.rule| + 3 + |f.message|] == "[" + f.rule + "] " + f.message
    ensures HasFix(f) ==> m[|f.rule| + 3 + |f.message|..] == FixSeparator + f.fix.value
    ensures !HasFix(f) ==> |m| == |f.rule| + |f.message| + 3
  {
    var head := "[" + f.rule + "] " + f.message;
    if HasFix(f) then head + FixSeparator + f.fix.value else head
  }

  /** The fix changes the message exactly when it is truthy. */
  lemma AnnotationShowsFixIffTruthy(f: Finding)
    ensures AnnotationMessage(f) == AnnotationMessage(f.(fix := None)) <==> !HasFix(f)
  {
    if HasFix(f) {
      assert |AnnotationMessage(f)| > |AnnotationMessage(f.(fix := None))|;
    }
  }

  /** `reportToGitHub`: one annotation per finding, in order, at the finding's file and line. */
  function Annotate(r: seq<Finding>): (a: seq<Annotation>)
    ensures |a| == |r|
    ensures forall k :: 0 <= k < |r| ==>
      a[k] == Annotation(Level(r[k].severity), AnnotationMessage(r[k]), r[k].file, r[k].line)
  {
    seq(|r|, k requires 0 <= k < |r| => Annotation(Level(r[k].severity), AnnotationMessage(r[k]), r[k].file, r[k].line))
  }

  /** An error annotation is emitted exactly when the findings hold an error. */
  lemma ErrorAnnotationIffError(r: seq<Finding>)
    ensures (exists k :: 0 <= k < |r| && Annotate(r)[k].level == ErrorAnnotation) <==> HasError(r)
  {
    var a := Annotate(r);
    if HasError(r) {
      var k :| 0 <= k < |r| && r[k].severity == Error;
      assert a[k].level == ErrorAnnotation;
    }
    if k :| 0 <= k < |r| && a[k].level == ErrorAnnotation {
      assert r[k].severity == Error;
    }
  }

  // ---------------------------------------------------------------------
  // Grouping by file
  // ---------------------------------------------------------------------

  /** Some finding of `r` is for `file`. */
  predicate Mentions(r: seq<Finding>, file: string) {
    exists k :: 0 <= k < |r| && r[k].file == file
  }

  /** No file is listed twice. */
  predicate Distinct(files: seq<string>) {
    forall i, j :: 0 <= i < j < |files| ==> files[i] != files[j]
  }

  /** Every occurrence of a later file comes after some occurrence of each earlier one. */
  predicate InFirstAppearanceOrder(r: seq<Finding>, files: seq<string>) {
    forall i, j, k :: 0 <= i < j < |files| && 0 <= k < |r| && r[k].file == files[j] ==> Mentions(r[..k], files[i])
  }

  /** The keys of `byFile`, in insertion order. */
  function FilesOf(r: seq<Finding>): (files: seq<string>)
    ensures Distinct(files)
    ensures forall f :: f in files <==> Mentions(r, f)
  {
    if |r| == 0 then []
    else
      var init := r[..|r| - 1];
      var prev := FilesOf(init);
      MentionsSnoc(init, r[|r| - 1]);
      assert init + [r[|r| - 1]] == r;
      if r[|r| - 1].file in prev then prev else prev + [r[|r| - 1].file]
  }

  lemma MentionsSnoc(r: seq<Finding>, x: Finding)
    ensures forall f :: Mentions(r + [x], f) <==> Mentions(r, f) || x.file == f
  {
    forall f | Mentions(r, f) ensures Mentions(r + [x], f) {
      var k :| 0 <= k < |r| && r[k].file == f;
      assert (r + [x])[k] == r[k];
    }
    forall f ensures x.file == f ==> Mentions(r + [x], f) {
      assert (r + [x])[|r|] == x;
    }
    forall f | Mentions(r + [x], f) && x.file != f ensures Mentions(r, f) {
      var k :| 0 <= k < |r + [x]| && (r + [x])[k].file == f;
      assert r[k] == (r + [x])[k];
    }
  }

  /** `byFile` lists the files in the order they first appear among the findings. */
  lemma {:induction false} FilesOfOrder(r: seq<Finding>)
    ensures InFirstAppearanceOrder(r, FilesOf(r))
    decreases |r|
  {
    if |r| > 0 {
      var n := |r| - 1;
      var init := r[..n];
      var x := r[n];
      assert init + [x] == r;
      FilesOfOrder(init);
      var prev := FilesOf(init);
      var files := FilesOf(r);
      forall i, j, k | 0 <= i < j < |files| && 0 <= k < |r| && r[k].file == files[j]
        ensures Mentions(r[..k], files[i])
      {
        if k < n {
          assert r[..k] == init[..k];
          assert init[k] == r[k];
          assert Mentions(init, files[j]);
          assert j < |prev|;
          assert files[j] == prev[j] && files[i] == prev[i];
        } else {
          assert r[..k] == init;
          assert files[i] in prev;
        }
      }
    }
  }

  /** `byFile.get(file)`: the findings for `file`, in their original order. */
  function OfFile(r: seq<Finding>, file: string): (g: seq<Finding>)
    ensures forall k :: 0 <= k < |g| ==> g[k].file == file
    ensures forall x :: x in g <==> x in r && x.file == file
  {
    if |r| == 0 then []
    else
      var init := r[..|r| - 1];
      var x := r[|r| - 1];
      assert init + [x] == r;
      OfFile(init, file) + (if x.file == file then [x] else [])
  }

  /**
   * The push loop keeps order and repeats: the group of `a + b` is the
   * group of `a` followed by the group of `b`.
   */
  lemma {:induction false} OfFileAppend(a: seq<Finding>, b: seq<Finding>, file: string)
    ensures OfFile(a + b, file) == OfFile(a, file) + OfFile(b, file)
    decreases |b|
  {
    if |b| == 0 {
      assert a + b == a;
    } else {
      var init := b[..|b| - 1];
      var x := b[|b| - 1];
      assert b == init + [x];
      assert a + b == (a + init) + [x];
      assert (a + b)[..|a + b| - 1] == a + init;
      OfFileAppend(a, init, file);
    }
  }

  /** A single finding lands in its own file's group and in no other. */
  lemma OfFileOne(x: Finding, file: string)
    ensures OfFile([x], file) == if x.file == file then [x] else []
  {
    assert [x][..0] == [];
  }

  /** `byFile`: each file, in first-appearance order, with its findings. */
  function GroupByFile(r: seq<Finding>): (g: seq<(string, seq<Finding>)>)
    ensures |g| == |FilesOf(r)|
    ensures forall i :: 0 <= i < |g| ==> g[i] == (FilesOf(r)[i], OfFile(r, FilesOf(r)[i]))
  {
    var files := FilesOf(r);
    seq(|files|, i requires 0 <= i < |files| => (files[i], OfFile(r, files[i])))
  }

  /** Every finding lands in exactly one group, the one of its file, and no group is empty. */
  lemma GroupsPartition(r: seq<Finding>)
    ensures var g := GroupByFile(r);
      forall k :: 0 <= k < |r| ==> exists i :: 0 <= i < |g| && g[i].0 == r[k].file && r[k] in g[i].1
    ensures var g := GroupByFile(r);
      forall i, j :: 0 <= i < j < |g| ==> g[i].0 != g[j].0
    ensures var g := GroupByFile(r);
      forall i :: 0 <= i < |g| ==> |g[i].1| > 0
  {
    var g := GroupByFile(r);
    var files := FilesOf(r);
    forall k | 0 <= k < |r| ensures exists i :: 0 <= i < |g| && g[i].0 == r[k].file && r[k] in g[i].1 {
      assert Mentions(r, r[k].file);
      var i :| 0 <= i < |files| && files[i] == r[k].file;
      assert r[k] in g[i].1;
    }
    forall i | 0 <= i < |g| ensures |g[i].1| > 0 {
      assert Mentions(r, files[i]);
      var k :| 0 <= k < |r| && r[k].file == files[i];
      assert r[k] in g[i].1;
    }
  }

  // ---------------------------------------------------------------------
  // Stable sort by line
  // ---------------------------------------------------------------------

  predicate SortedByLine(s: seq<Finding>) {
    forall i, j :: 0 <= i < j < |s| ==> s[i].line <= s[j].line
  }

  /** The findings of `s` at line `n`, in order. */
  function OnLine(s: seq<Finding>, n: nat): seq<Finding> {
    if |s| == 0 then []
    else OnLine(s[..|s| - 1], n) + (if s[|s| - 1].line == n then [s[|s| - 1]] else [])
  }

  /** Places `x` after every element of `s` whose line is not greater. */
  function Insert(x: Finding, s: seq<Finding>): (r: seq<Finding>)
    ensures multiset(r) == multiset(s) + multiset{x}
    ensures forall y :: y in r <==> y == x || y in s
  {
    if |s| == 0 then [x]
    else
      var init := s[..|s| - 1];
      var last := s[|s| - 1];
      assert init + [last] == s;
      if last.line <= x.line then s + [x] else Insert(x, init) + [last]
  }

  lemma {:induction false} InsertSorted(x: Finding, s: seq<Finding>)
    requires SortedByLine(s)
    ensures SortedByLine(Insert(x, s))
    decreases |s|
  {
    if |s| > 0 {
      var init := s[..|s| - 1];
      var last := s[|s| - 1];
      if last.line > x.line {
        InsertSorted(x, init);
        var ins := Insert(x, init);
        forall y | y in ins ensures y.line <= last.line {
          if y != x {
            var i :| 0 <= i < |init| && init[i] == y;
          }
        }
        var r := ins + [last];
        forall i, j | 0 <= i < j < |r| ensures r[i].line <= r[j].line {
          if j == |ins| {
            assert r[i] in ins;
          }
        }
      }
    }
  }

  lemma OnLineSnoc(a: seq<Finding>, y: Finding, n: nat)
    ensures OnLine(a + [y], n) == OnLine(a, n) + (if y.line == n then [y] else [])
  {
    assert (a + [y])[..|a|] == a;
  }

  lemma {:induction false} InsertOnLine(x: Finding, s: seq<Finding>, n: nat)
    requires SortedByLine(s)
    ensures OnLine(Insert(x, s), n) == OnLine(s, n) + (if x.line == n then [x] else [])
    decreases |s|
  {
    if |s| > 0 {
      var init := s[..|s| - 1];
      var last := s[|s| - 1];
      assert s == init + [last];
      OnLineSnoc(init, last, n);
      if last.line <= x.line {
        OnLineSnoc(s, x, n);
      } else {
        InsertOnLine(x, init, n);
        var ins := Insert(x, init);
        assert Insert(x, s) == ins + [last];
        OnLineSnoc(ins, last, n);
      }
    }
  }

  /** `fileResults.sort((a, b) => a.line - b.line)` with a stable sort. */
  function SortByLine(s: seq<Finding>): (r: seq<Finding>)
    ensures multiset(r) == multiset(s)
  {
    if |s| == 0 then []
    else
      var init := s[..|s| - 1];
      assert init + [s[|s| - 1]] == s;
      Insert(s[|s| - 1], SortByLine(init))
  }

  /**
   * The sort orders by line and is stable: the findings at any one line
   * keep their original relative order. Together the two pin the result
   * down completely.
   */
  lemma {:induction false} SortByLineSortedAndStable(s: seq<Finding>, n: nat)
    ensures SortedByLine(SortByLine(s))
    ensures OnLine(SortByLine(s), n) == OnLine(s, n)
    decreases |s|
  {
    if |s| > 0 {
      var init := s[..|s| - 1];
      SortByLineSortedAndStable(init, n);
      InsertSorted(s[|s| - 1], SortByLine(init));
      InsertOnLine(s[|s| - 1], SortByLine(init), n);
    }
  }

  /** What the listing prints: each file's findings, sorted by line. */
  function Listing(r: seq<Finding>): (l: seq<(string, seq<Finding>)>)
    ensures |l| == |FilesOf(r)|
    ensures forall i :: 0 <= i < |l| ==>
      l[i].0 == FilesOf(r)[i] && multiset(l[i].1) == multiset(OfFile(r, FilesOf(r)[i]))
  {
    var g := GroupByFile(r);
    seq(|g|, i requires 0 <= i < |g| => (g[i].0, SortByLine(g[i].1)))
  }

  /** Selecting a file and selecting a line commute. */
  lemma {:induction false} OnLineOfFile(r: seq<Finding>, file: string, n: nat)
    ensures OnLine(OfFile(r, file), n) == OfFile(OnLine(r, n), file)
    decreases |r|
  {
    if |r| > 0 {
      var init := r[..|r| - 1];
      var x := r[|r| - 1];
      assert r == init + [x];
      OnLineOfFile(init, file, n);
      var g := OfFile(init, file);
      var keep := if x.file == file then [x] else [];
      var at := if x.line == n then [x] else [];
      assert OfFile(r, file) == g + keep;
      assert OnLine(r, n) == OnLine(init, n) + at by {
        OnLineSnoc(init, x, n);
      }
      assert OnLine(g + keep, n) == OnLine(g, n) + OnLine(keep, n) by {
        if x.file == file {
          OnLineSnoc(g, x, n);
        } else {
          assert g + keep == g;
        }
      }
      assert OfFile(OnLine(init, n) + at, file) == OfFile(OnLine(init, n), file) + OfFile(at, file) by {
        OfFileAppend(OnLine(init, n), at, file);
      }
      assert OnLine(keep, n) == OfFile(at, file) by {
        OfFileOne(x, file);
        OnLineSnoc([], x, n);
        assert [] + [x] == [x];
      }
    }
  }

  /**
   * Each file's block of the listing is sorted by line and, at every line,
   * holds exactly that file's findings at that line, in the order the rules
   * reported them.
   */
  lemma ListingSortedAndStable(r: seq<Finding>, i: nat, n: nat)
    requires i < |FilesOf(r)|
    ensures SortedByLine(Listing(r)[i].1)
    ensures OnLine(Listing(r)[i].1, n) == OfFile(OnLine(r, n), FilesOf(r)[i])
  {
    SortByLineSortedAndStable(OfFile(r, FilesOf(r)[i]), n);
    OnLineOfFile(r, FilesOf(r)[i], n);
  }
}
