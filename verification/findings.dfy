/** The `LintResult` record every check produces, and its severity scale. */
module Findings {
  import opened Wrappers
  import Parser

  /** `'error' | 'warning' | 'info'` */
  datatype Severity = Error | Warning | Info

  /** One diagnostic; `fix` is the only optional field. */
  datatype Finding = Finding(
    file: string,
    line: nat,
    severity: Severity,
    rule: string,
    message: string,
    fix: Option<string>)

  /** Every finding names `file` and `rule`. */
  predicate Attributed(r: seq<Finding>, file: string, rule: string) {
    forall k :: 0 <= k < |r| ==> r[k].file == file && r[k].rule == rule
  }

  /** Every finding points at an existing line of `content`. */
  predicate Located(r: seq<Finding>, content: string) {
    forall k :: 0 <= k < |r| ==> 1 <= r[k].line <= |Parser.Lines(content)|
  }
}
