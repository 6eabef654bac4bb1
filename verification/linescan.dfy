/**
 * The loop shared by the textual checks: walk `content.split('\n')` and
 * push at most one finding per line, numbered `i + 1`.
 */
module LineScan {
  import opened Wrappers
  import opened Text
  import opened Findings

  /** A finding before it is given a file and a line. */
  datatype Report = Report(severity: Severity, rule: string, message: string, fix: Option<string>) {
    function At(file: string, line: nat): (f: Finding)
      ensures ReportOf(f) == this && f.file == file && f.line == line
    {
      Finding(file, line, severity, rule, message, fix)
    }
  }

  function ReportOf(f: Finding): Report {
    Report(f.severity, f.rule, f.message, f.fix)
  }

  /** `line.trimStart().startsWith('#')` */
  predicate IsComment(line: string) {
    StartsWith(TrimStart(line), "#")
  }

  /** Line numbers strictly increase along `r`. */
  predicate IncreasingLines(r: seq<Finding>) {
    forall k, l :: 0 <= k < l < |r| ==> r[k].line < r[l].line
  }

  /** Some finding points at line `n`. */
  predicate HasLine(r: seq<Finding>, n: nat) {
    exists k :: 0 <= k < |r| && r[k].line == n
  }

  /**
   * The findings for lines `from` onwards: each one points at a line on
   * which `judge` reports, and carries what `judge` reported.
   */
  function Scan(file: string, lines: seq<string>, from: nat, judge: string -> Option<Report>): (r: seq<Finding>)
    requires from <= |lines|
    ensures forall k :: 0 <= k < |r| ==>
      && from < r[k].line <= |lines|
      && r[k].file == file
      && judge(lines[r[k].line - 1]) == Some(ReportOf(r[k]))
    decreases |lines| - from
  {
    if from == |lines| then []
    else
      var rest := Scan(file, lines, from + 1, judge);
      match judge(lines[from])
      case Some(rep) => [rep.At(file, from + 1)] + rest
      case None => rest
  }

  /** Every line on which `judge` reports gets a finding. */
  lemma {:induction false} ScanComplete(file: string, lines: seq<string>, from: nat, judge: string -> Option<Report>)
    requires from <= |lines|
    ensures forall i :: from <= i < |lines| && judge(lines[i]).Some? ==> HasLine(Scan(file, lines, from, judge), i + 1)
    decreases |lines| - from
  {
    if from < |lines| {
      ScanComplete(file, lines, from + 1, judge);
      var r := Scan(file, lines, from, judge);
      var rest := Scan(file, lines, from + 1, judge);
      forall i | from <= i < |lines| && judge(lines[i]).Some?
        ensures HasLine(r, i + 1)
      {
        if judge(lines[from]).Some? {
          if i == from {
            assert r[0].line == i + 1;
          } else {
            var k :| 0 <= k < |rest| && rest[k].line == i + 1;
            assert r[k + 1] == rest[k];
          }
        }
      }
    }
  }

  /** Findings come in strictly increasing line order, so no line is reported twice. */
  lemma {:induction false} ScanIncreasing(file: string, lines: seq<string>, from: nat, judge: string -> Option<Report>)
    requires from <= |lines|
    ensures IncreasingLines(Scan(file, lines, from, judge))
    decreases |lines| - from
  {
    if from < |lines| {
      ScanIncreasing(file, lines, from + 1, judge);
      var r := Scan(file, lines, from, judge);
      var rest := Scan(file, lines, from + 1, judge);
      match judge(lines[from])
      case None =>
        assert r == rest;
      case Some(rep) =>
        assert r == [rep.At(file, from + 1)] + rest;
        forall k, l | 0 <= k < l < |r| ensures r[k].line < r[l].line {
          assert r[l] == rest[l - 1];
          if k > 0 {
            assert r[k] == rest[k - 1];
          }
        }
    }
  }
}
