/**
 * `deprecated-features`: a non-comment line still issues the retired
 * `set-output` / `save-state` workflow commands.
 */
module DeprecatedFeatures {
  import opened Wrappers
  import opened Text
  import opened Document
  import opened Findings
  import opened Parser
  import opened LineScan

  const Name := "deprecated-features"

  /** One row of `DEPRECATED_PATTERNS`: `<command>\s+name=` with its message and fix. */
  datatype Pattern = Pattern(command: string, message: string, fix: string)

  const OutputFix := "Use `echo \"name=value\" >> $GITHUB_OUTPUT` instead"
  const StateFix := "Use `echo \"name=value\" >> $GITHUB_STATE` instead"

  /** Tried in this order; the first that matches decides the message. */
  const Patterns: seq<Pattern> := [
    Pattern("::set-output", "`::set-output` is deprecated", OutputFix),
    Pattern("::save-state", "`::save-state` is deprecated", StateFix),
    Pattern("set-output", "`set-output` command is deprecated", OutputFix),
    Pattern("save-state", "`save-state` command is deprecated", StateFix)
  ]

  /**
   * `command\s+name=` from `i`. `name=` starts with a non-space, so `\s+`
   * takes the whole run of spaces after the command, and it must be non-empty.
   */
  predicate CommandAt(line: string, command: string, i: nat) {
    && OccursAt(line, command, i)
    && var q := SkipWhile(line, i + |command|, IsSpace);
    && q > i + |command|
    && OccursAt(line, "name=", q)
  }

  predicate MatchesCommand(line: string, command: string) {
    exists i | 0 <= i < |line| :: CommandAt(line, command, i)
  }

  /** Index of the first pattern at or after `from` that matches, if any. */
  function FirstMatch(line: string, from: nat): (r: Option<nat>)
    requires from <= |Patterns|
    ensures r.Some? ==> from <= r.value < |Patterns| && MatchesCommand(line, Patterns[r.value].command)
    ensures r.Some? ==> forall j :: from <= j < r.value ==> !MatchesCommand(line, Patterns[j].command)
    ensures r.None? <==> forall j :: from <= j < |Patterns| ==> !MatchesCommand(line, Patterns[j].command)
    decreases |Patterns| - from
  {
    if from == |Patterns| then None
    else if MatchesCommand(line, Patterns[from].command) then Some(from)
    else FirstMatch(line, from + 1)
  }

  /** Comments are skipped; otherwise the first matching pattern supplies the report. */
  function Judge(line: string): (r: Option<Report>)
    ensures r.Some? <==> !IsComment(line) && FirstMatch(line, 0).Some?
    ensures r.Some? ==>
      var p := Patterns[FirstMatch(line, 0).value];
      r.value == Report(Warning, Name, p.message, Some(p.fix))
  {
    if IsComment(line) then None
    else match FirstMatch(line, 0)
      case Some(j) => Some(Report(Warning, Name, Patterns[j].message, Some(Patterns[j].fix)))
      case None => None
  }

  /** `deprecatedFeatures.check` */
  function Check(file: string, content: string, doc: Value): (r: seq<Finding>)
    ensures Attributed(r, file, Name) && Located(r, content)
    ensures IncreasingLines(r)
    ensures forall k :: 0 <= k < |r| ==>
      && r[k].severity == Warning
      && !IsComment(Lines(content)[r[k].line - 1])
      && FirstMatch(Lines(content)[r[k].line - 1], 0).Some?
      && r[k].message == Patterns[FirstMatch(Lines(content)[r[k].line - 1], 0).value].message
    ensures forall i :: (0 <= i < |Lines(content)| && !IsComment(Lines(content)[i])
                         && FirstMatch(Lines(content)[i], 0).Some?) ==> HasLine(r, i + 1)
  {
    var lines := Lines(content);
    ScanComplete(file, lines, 0, Judge);
    ScanIncreasing(file, lines, 0, Judge);
    Scan(file, lines, 0, Judge)
  }

  /** Every `::cmd name=` line also matches the bare `cmd name=` pattern … */
  lemma PrefixedImpliesBare(line: string, command: string)
    requires MatchesCommand(line, "::" + command)
    ensures MatchesCommand(line, command)
  {
    var i :| 0 <= i < |line| && CommandAt(line, "::" + command, i);
    assert line[i + 2..i + 2 + |command|] == line[i..i + |command| + 2][2..];
    assert CommandAt(line, command, i + 2);
  }

  /** … so the prefixed patterns come first, and a `::set-output name=` line gets their message. */
  lemma PrefixedMessageWins(line: string)
    requires !IsComment(line) && MatchesCommand(line, "::set-output")
    ensures Judge(line) == Some(Report(Warning, Name, "`::set-output` is deprecated", Some(OutputFix)))
  {
  }

  /** Without any whitespace on the line, no pattern can match: `\s+` needs one. */
  lemma WhitespaceRequired(line: string, command: string)
    requires forall k :: 0 <= k < |line| ==> !IsSpace(line[k])
    ensures !MatchesCommand(line, command)
  {
    forall i | 0 <= i < |line| && OccursAt(line, command, i)
      ensures SkipWhile(line, i + |command|, IsSpace) == i + |command|
    {
      MaximalRun(line, i + |command|, i + |command|, IsSpace);
    }
  }
}
