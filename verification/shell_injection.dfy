/**
 * `shell-injection`: an attacker-controlled event field interpolated with
 * `${{ … }}` on a line that belongs to a `run:` script. Which lines belong
 * to a script is decided by a two-state scanner over the raw lines.
 */
module ShellInjection {
  import opened Wrappers
  import opened Text
  import opened Document
  import opened Findings
  import opened Parser

  const Name := "shell-injection"
  const Fix := "Pass as an environment variable instead: `env: { VALUE: \"${{ ... }}\" }` then use `$VALUE`"

  function Message(expr: string): string {
    "Potential shell injection via `${{ " + expr + " }}` in run step"
  }

  // ---------------------------------------------------------------------
  // DANGEROUS_PATTERN
  // ---------------------------------------------------------------------

  /** `[\w.]` */
  predicate IsPathChar(c: char) { IsWordChar(c) || c == '.' }

  const EventPrefix := "github.event."
  const HeadRef := "github.head_ref"

  /** The field names `(?:title|body|message|name|email|page_name)`. */
  const Fields: seq<string> := ["title", "body", "message", "name", "email", "page_name"]

  /** `\w+[\w.]*\.(?:title|…|page_name)` matching all of `g`. */
  predicate IsEventPath(g: string) {
    && |g| > 0 && IsWordChar(g[0])
    && (forall k :: 0 <= k < |g| ==> IsPathChar(g[k]))
    && exists w | 0 <= w < |Fields| ::
         |g| >= |Fields[w]| + 2 && g[|g| - |Fields[w]| - 1..] == "." + Fields[w]
  }

  /** The capture group: `github\.event\.<path>` or `github\.head_ref`. */
  predicate IsDangerous(expr: string) {
    expr == HeadRef || (StartsWith(expr, EventPrefix) && IsEventPath(expr[|EventPrefix|..]))
  }

  /** A dangerous expression starts with `g` and consists of `[\w.]` characters only. */
  lemma DangerousChars(expr: string)
    requires IsDangerous(expr)
    ensures |expr| > 0 && expr[0] == 'g'
    ensures forall k :: 0 <= k < |expr| ==> IsPathChar(expr[k])
  {
    if expr != HeadRef {
      var n := |EventPrefix|;
      assert expr[..n] == EventPrefix;
      forall k | 0 <= k < |expr| ensures IsPathChar(expr[k]) {
        if k < n {
          assert expr[k] == EventPrefix[k];
        } else {
          assert expr[k] == expr[n..][k - n];
        }
      }
    }
  }

  /**
   * The match of `DANGEROUS_PATTERN` that starts at `i`, as (capture, end).
   * Every part of the pattern is followed by a character its greedy
   * predecessor cannot consume, so each part takes its maximal run.
   */
  function MatchAt(line: string, i: nat): (r: Option<(string, nat)>)
    ensures r.Some? ==> IsDangerous(r.value.0) && i + 5 < r.value.1 <= |line|
  {
    if !OccursAt(line, "${{", i) then None
    else
      var a := SkipWhile(line, i + 3, IsSpace);
      var b := SkipWhile(line, a, IsPathChar);
      var c := SkipWhile(line, b, IsSpace);
      if IsDangerous(line[a..b]) && OccursAt(line, "}}", c) then
        DangerousChars(line[a..b]);
        Some((line[a..b], c + 2))
      else None
  }

  /** The pattern read as a backtracking matcher would: any split of the input that fits. */
  ghost predicate DangerousMatch(line: string, i: nat, a: nat, b: nat, c: nat) {
    && OccursAt(line, "${{", i)
    && i + 3 <= a <= b <= c <= |line|
    && (forall m :: i + 3 <= m < a ==> IsSpace(line[m]))
    && IsDangerous(line[a..b])
    && (forall m :: b <= m < c ==> IsSpace(line[m]))
    && OccursAt(line, "}}", c)
  }

  /** Every match `MatchAt` reports is a match a backtracking matcher finds. */
  lemma MatchAtSound(line: string, i: nat)
    requires MatchAt(line, i).Some?
    ensures exists a: nat, b: nat, c: nat ::
      DangerousMatch(line, i, a, b, c) && MatchAt(line, i).value == (line[a..b], c + 2)
  {
    var a := SkipWhile(line, i + 3, IsSpace);
    var b := SkipWhile(line, a, IsPathChar);
    var c := SkipWhile(line, b, IsSpace);
    assert DangerousMatch(line, i, a, b, c);
  }

  /** A backtracking match at `i` is the one `MatchAt` reports, with the same capture. */
  lemma MatchAtComplete(line: string, i: nat, a: nat, b: nat, c: nat)
    requires DangerousMatch(line, i, a, b, c)
    ensures MatchAt(line, i) == Some((line[a..b], c + 2))
  {
    var expr := line[a..b];
    DangerousChars(expr);
    assert line[a] == expr[0];
    MaximalRun(line, i + 3, a, IsSpace);
    forall m | a <= m < b ensures IsPathChar(line[m]) {
      assert line[m] == expr[m - a];
    }
    assert b == |line| || !IsPathChar(line[b]) by {
      if b < c {
        assert IsSpace(line[b]);
      } else {
        assert line[b] == '}';
      }
    }
    MaximalRun(line, a, b, IsPathChar);
    MaximalRun(line, b, c, IsSpace);
  }

  /**
   * `line.matchAll(DANGEROUS_PATTERN)` from index `from`: the captures of the
   * leftmost match, then of the matches after its end (the `g` flag).
   */
  function Matches(line: string, from: nat): (r: seq<string>)
    requires from <= |line|
    ensures forall k :: 0 <= k < |r| ==> IsDangerous(r[k])
    decreases |line| - from
  {
    if from == |line| then []
    else
      match MatchAt(line, from)
      case Some((expr, end)) => [expr] + Matches(line, end)
      case None => Matches(line, from + 1)
  }

  /** A match at `i` or later means `matchAll` from `from` captures something. */
  lemma {:induction false} MatchesComplete(line: string, from: nat, i: nat, a: nat, b: nat, c: nat)
    requires from <= i && from <= |line|
    requires DangerousMatch(line, i, a, b, c)
    ensures Matches(line, from) != []
    decreases i - from
  {
    if MatchAt(line, from).None? {
      if from == i {
        MatchAtComplete(line, i, a, b, c);
      }
      MatchesComplete(line, from + 1, i, a, b, c);
    }
  }

  /**
   * The first capture of `matchAll` from `from` is the capture of the
   * leftmost match at or after `from`; the search then resumes at its end.
   */
  lemma {:induction false} LeftmostMatchFirst(line: string, from: nat, i: nat, a: nat, b: nat, c: nat)
    requires from <= i && from <= |line|
    requires DangerousMatch(line, i, a, b, c)
    requires forall j, a': nat, b': nat, c': nat :: from <= j < i ==> !DangerousMatch(line, j, a', b', c')
    ensures c + 2 <= |line|
    ensures Matches(line, from) == [line[a..b]] + Matches(line, c + 2)
    decreases i - from
  {
    if from == i {
      MatchAtComplete(line, i, a, b, c);
    } else {
      if MatchAt(line, from).Some? {
        MatchAtSound(line, from);
        assert false;
      }
      LeftmostMatchFirst(line, from + 1, i, a, b, c);
    }
  }

  /** No match at or after `from` means `matchAll` from `from` captures nothing. */
  lemma {:induction false} NoMatchNoCapture(line: string, from: nat)
    requires from <= |line|
    requires forall j, a: nat, b: nat, c: nat :: from <= j ==> !DangerousMatch(line, j, a, b, c)
    ensures Matches(line, from) == []
    decreases |line| - from
  {
    if from < |line| {
      if MatchAt(line, from).Some? {
        MatchAtSound(line, from);
        assert false;
      }
      NoMatchNoCapture(line, from + 1);
    }
  }

  // ---------------------------------------------------------------------
  // The inside-run / outside-run scanner
  // ---------------------------------------------------------------------

  datatype RunState = OutsideRun | InsideRun

  /** `trimmed.startsWith('run:') || trimmed.startsWith('run :')` */
  predicate StartsRun(line: string) {
    StartsWith(TrimStart(line), "run:") || StartsWith(TrimStart(line), "run :")
  }

  /**
   * `/^\s*\w+:/.test(line) && !line.match(/^\s+/)`: without leading
   * whitespace, a run of word characters directly followed by `:`.
   */
  predicate IsTopLevelKey(line: string) {
    && (|line| == 0 || !IsSpace(line[0]))
    && var w := SkipWhile(line, 0, IsWordChar);
    && 0 < w < |line| && line[w] == ':'
  }

  /** The same test read as a backtracking matcher would. */
  lemma TopLevelKeyIsRegexMatch(line: string)
    ensures IsTopLevelKey(line) <==>
      (|line| == 0 || !IsSpace(line[0]))
      && exists j :: 0 < j < |line| && line[j] == ':' && forall m :: 0 <= m < j ==> IsWordChar(line[m])
  {
    if j :| 0 < j < |line| && line[j] == ':' && forall m :: 0 <= m < j ==> IsWordChar(line[m]) {
      MaximalRun(line, 0, j, IsWordChar);
    }
  }

  /** One transition: a `run:` key enters, another unindented key leaves, anything else stays. */
  function Next(state: RunState, line: string): RunState {
    if StartsRun(line) then InsideRun
    else if IsTopLevelKey(line) then OutsideRun
    else state
  }

  /**
   * A `run:` key written as a sequence item: after the indentation, a `-`,
   * whitespace, then the key (`- run: …`, the usual way to write a step).
   */
  predicate StartsRunItem(line: string) {
    var t := TrimStart(line);
    |t| >= 2 && t[0] == '-' && IsSpace(t[1]) && StartsRun(t[1..])
  }

  /**
   * The intended transition: a `run:` key enters a script whether or not
   * it opens a sequence item. `Next` above misses the `- run:` form.
   */
  function IntendedNext(state: RunState, line: string): (r: RunState)
    ensures StartsRun(line) || StartsRunItem(line) ==> r == InsideRun
    ensures !StartsRunItem(line) ==> r == Next(state, line)
  {
    if StartsRun(line) || StartsRunItem(line) then InsideRun
    else if IsTopLevelKey(line) then OutsideRun
    else state
  }

  /** The transition function of a line scanner. */
  type Step = (RunState, string) -> RunState

  /** The state in which line `n - 1` is scanned; the scan starts outside. */
  function StateAfter(lines: seq<string>, n: nat, step: Step): RunState
    requires n <= |lines|
  {
    if n == 0 then OutsideRun else step(StateAfter(lines, n - 1, step), lines[n - 1])
  }

  /** The captures `DANGEROUS_PATTERN` finds on a whole line. */
  function Found(line: string): (r: seq<string>)
    ensures forall k :: 0 <= k < |r| ==> IsDangerous(r[k])
  {
    Matches(line, 0)
  }

  /** A `run:` key enters the script state at any indentation. */
  lemma RunKeyEnters(state: RunState, line: string)
    requires StartsRun(line)
    ensures Next(state, line) == InsideRun
  {
  }

  /** An unindented `key:` other than `run:` leaves the script state. */
  lemma TopLevelKeyLeaves(state: RunState, line: string)
    requires !StartsRun(line) && IsTopLevelKey(line)
    ensures Next(state, line) == OutsideRun
  {
  }

  /** Blank lines and indented lines that are not `run:` keep the state. */
  lemma OtherLinesKeepState(state: RunState, line: string)
    requires !StartsRun(line)
    requires (forall k :: 0 <= k < |line| ==> IsSpace(line[k])) || (|line| > 0 && IsSpace(line[0]))
    ensures Next(state, line) == state
  {
  }

  /** The findings for the captures found on line number `n`. */
  function LineFindings(file: string, n: nat, exprs: seq<string>): (r: seq<Finding>)
    ensures |r| == |exprs|
    ensures forall k :: 0 <= k < |r| ==> r[k] == Finding(file, n, Error, Name, Message(exprs[k]), Some(Fix))
  {
    if |exprs| == 0 then []
    else [Finding(file, n, Error, Name, Message(exprs[0]), Some(Fix))] + LineFindings(file, n, exprs[1..])
  }

  /**
   * The findings for lines `from` onwards, entered in `state`: a line
   * whose transition lands inside a script reports each of its captures.
   */
  function ScanFrom(file: string, lines: seq<string>, from: nat, state: RunState,
                    step: Step, found: string -> seq<string>): (r: seq<Finding>)
    requires from <= |lines|
    ensures forall k :: 0 <= k < |r| ==>
      && from < r[k].line <= |lines|
      && r[k].file == file && r[k].rule == Name && r[k].severity == Error
    decreases |lines| - from
  {
    if from == |lines| then []
    else
      var next := step(state, lines[from]);
      var here := if next == InsideRun then LineFindings(file, from + 1, found(lines[from])) else [];
      here + ScanFrom(file, lines, from + 1, next, step, found)
  }

  /** Number of findings at line `n`. */
  function CountAt(r: seq<Finding>, n: nat): nat {
    if |r| == 0 then 0 else (if r[0].line == n then 1 else 0) + CountAt(r[1..], n)
  }

  lemma {:induction false} CountAtAppend(a: seq<Finding>, b: seq<Finding>, n: nat)
    ensures CountAt(a + b, n) == CountAt(a, n) + CountAt(b, n)
    decreases |a|
  {
    if |a| > 0 {
      assert (a + b)[1..] == a[1..] + b;
      CountAtAppend(a[1..], b, n);
    } else {
      assert a + b == b;
    }
  }

  lemma {:induction false} CountAtUniform(r: seq<Finding>, m: nat, n: nat)
    requires forall k :: 0 <= k < |r| ==> r[k].line == m
    ensures CountAt(r, n) == if m == n then |r| else 0
    decreases |r|
  {
    if |r| > 0 {
      CountAtUniform(r[1..], m, n);
    }
  }

  lemma {:induction false} CountAtOutside(r: seq<Finding>, n: nat)
    requires forall k :: 0 <= k < |r| ==> r[k].line != n
    ensures CountAt(r, n) == 0
    decreases |r|
  {
    if |r| > 0 {
      CountAtOutside(r[1..], n);
    }
  }

  /** Every finding sits on a line that was scanned inside a script. */
  predicate OnScriptLines(lines: seq<string>, r: seq<Finding>, step: Step) {
    forall k :: 0 <= k < |r| ==> r[k].line <= |lines| && StateAfter(lines, r[k].line, step) == InsideRun
  }

  /** The number of findings line `i` (0-based) is owed: one per capture when scanned inside a script. */
  function Owed(lines: seq<string>, i: nat, step: Step, found: string -> seq<string>): nat
    requires i < |lines|
  {
    if StateAfter(lines, i + 1, step) == InsideRun then |found(lines[i])| else 0
  }

  /** Lines `from` onwards carry exactly the findings they are owed. */
  predicate CountsFrom(lines: seq<string>, r: seq<Finding>, from: nat, step: Step, found: string -> seq<string>) {
    forall i :: from <= i < |lines| ==> CountAt(r, i + 1) == Owed(lines, i, step, found)
  }

  /** Scanning from `state == StateAfter(lines, from)` yields findings on script lines only. */
  lemma {:induction false} ScanOnScriptLines(file: string, lines: seq<string>, from: nat, state: RunState,
                                            step: Step, found: string -> seq<string>)
    requires from <= |lines| && state == StateAfter(lines, from, step)
    ensures OnScriptLines(lines, ScanFrom(file, lines, from, state, step, found), step)
    decreases |lines| - from
  {
    if from < |lines| {
      var next := step(state, lines[from]);
      assert next == StateAfter(lines, from + 1, step);
      var here := if next == InsideRun then LineFindings(file, from + 1, found(lines[from])) else [];
      var rest := ScanFrom(file, lines, from + 1, next, step, found);
      var r := ScanFrom(file, lines, from, state, step, found);
      assert r == here + rest;
      ScanOnScriptLines(file, lines, from + 1, next, step, found);
      forall k | 0 <= k < |r| ensures r[k].line <= |lines| && StateAfter(lines, r[k].line, step) == InsideRun {
        if k < |here| {
          assert r[k] == here[k];
        } else {
          assert r[k] == rest[k - |here|];
        }
      }
    }
  }

  lemma LineFindingsCount(file: string, n: nat, exprs: seq<string>, m: nat)
    ensures CountAt(LineFindings(file, n, exprs), m) == if n == m then |exprs| else 0
  {
    CountAtUniform(LineFindings(file, n, exprs), n, m);
  }

  /**
   * Scanning from `state == StateAfter(lines, from)` puts exactly as many
   * findings on each line as that line is owed.
   */
  lemma {:induction false} ScanCounts(file: string, lines: seq<string>, from: nat, state: RunState,
                                     step: Step, found: string -> seq<string>)
    requires from <= |lines| && state == StateAfter(lines, from, step)
    ensures CountsFrom(lines, ScanFrom(file, lines, from, state, step, found), from, step, found)
    decreases |lines| - from
  {
    if from < |lines| {
      var next := step(state, lines[from]);
      assert next == StateAfter(lines, from + 1, step);
      var here := if next == InsideRun then LineFindings(file, from + 1, found(lines[from])) else [];
      var rest := ScanFrom(file, lines, from + 1, next, step, found);
      var r := ScanFrom(file, lines, from, state, step, found);
      assert r == here + rest;
      ScanCounts(file, lines, from + 1, next, step, found);
      forall i | from <= i < |lines| ensures CountAt(r, i + 1) == Owed(lines, i, step, found) {
        CountAtAppend(here, rest, i + 1);
        if next == InsideRun {
          LineFindingsCount(file, from + 1, found(lines[from]), i + 1);
        }
        if i == from {
          CountAtOutside(rest, i + 1);
        }
      }
    }
  }

  /** `shellInjection.check`: the two-state scan with the transition as written. */
  function Check(file: string, content: string, doc: Value): (r: seq<Finding>)
    ensures Attributed(r, file, Name) && Located(r, content)
    ensures forall k :: 0 <= k < |r| ==> r[k].severity == Error
    ensures OnScriptLines(Lines(content), r, Next)
    ensures CountsFrom(Lines(content), r, 0, Next, Found)
  {
    var lines := Lines(content);
    ScanOnScriptLines(file, lines, 0, OutsideRun, Next, Found);
    ScanCounts(file, lines, 0, OutsideRun, Next, Found);
    ScanFrom(file, lines, 0, OutsideRun, Next, Found)
  }

  /** The same scan with the intended transition, which also enters at `- run:`. */
  function IntendedCheck(file: string, content: string, doc: Value): (r: seq<Finding>)
    ensures Attributed(r, file, Name) && Located(r, content)
    ensures forall k :: 0 <= k < |r| ==> r[k].severity == Error
    ensures OnScriptLines(Lines(content), r, IntendedNext)
    ensures CountsFrom(Lines(content), r, 0, IntendedNext, Found)
  {
    var lines := Lines(content);
    ScanOnScriptLines(file, lines, 0, OutsideRun, IntendedNext, Found);
    ScanCounts(file, lines, 0, OutsideRun, IntendedNext, Found);
    ScanFrom(file, lines, 0, OutsideRun, IntendedNext, Found)
  }

  /** Off `- run:` item lines the two transitions scan alike. */
  lemma {:induction false} ScansAgreeWithoutItems(file: string, lines: seq<string>, from: nat, state: RunState)
    requires from <= |lines|
    requires forall i :: from <= i < |lines| ==> !StartsRunItem(lines[i])
    ensures ScanFrom(file, lines, from, state, IntendedNext, Found) == ScanFrom(file, lines, from, state, Next, Found)
    decreases |lines| - from
  {
    if from < |lines| {
      assert IntendedNext(state, lines[from]) == Next(state, lines[from]);
      ScansAgreeWithoutItems(file, lines, from + 1, Next(state, lines[from]));
    }
  }

  /** The intended check differs from the as-written one only on files with a `- run:` item line. */
  lemma IntendedCheckAgreesWithoutItems(file: string, content: string, doc: Value)
    requires forall i :: 0 <= i < |Lines(content)| ==> !StartsRunItem(Lines(content)[i])
    ensures IntendedCheck(file, content, doc) == Check(file, content, doc)
  {
    ScansAgreeWithoutItems(file, Lines(content), 0, OutsideRun);
  }

  /** The `run:` line itself is scanned: a one-line `run: echo ${{ … }}` is reported. */
  lemma RunLineIsScanned(lines: seq<string>, i: nat)
    requires i < |lines| && StartsRun(lines[i])
    ensures Owed(lines, i, Next, Found) == |Matches(lines[i], 0)|
  {
  }

  /** With the intended transition, a `- run:` item line is scanned as well. */
  lemma ItemRunLineIsScanned(lines: seq<string>, i: nat)
    requires i < |lines| && (StartsRun(lines[i]) || StartsRunItem(lines[i]))
    ensures Owed(lines, i, IntendedNext, Found) == |Matches(lines[i], 0)|
  {
  }

  /** A workflow line that runs a script interpolating the PR head branch name. */
  const OneLineRun := "run: echo ${{ github.head_ref }}"

  /** The pattern matches at index 10, capturing `github.head_ref`. */
  lemma OneLineRunMatchAt10()
    ensures DangerousMatch(OneLineRun, 10, 14, 29, 30) && OneLineRun[14..29] == HeadRef
  {
    var line := OneLineRun;
    assert line[10] == '$' && line[11] == '{' && line[12] == '{';
    assert line[10..13] == "${{";
    assert line[30] == '}' && line[31] == '}';
    assert line[30..32] == "}}";
    assert line[14..29] == HeadRef;
  }

  /** No match starts earlier: there is no `$` before index 10. */
  lemma OneLineRunNoEarlierMatch()
    ensures forall j, a: nat, b: nat, c: nat :: 0 <= j < 10 ==> !DangerousMatch(OneLineRun, j, a, b, c)
  {
    forall j, a: nat, b: nat, c: nat | 0 <= j < 10 ensures !DangerousMatch(OneLineRun, j, a, b, c) {
      assert OneLineRun[j] != '$';
      assert OneLineRun[j..j + 3][0] == OneLineRun[j];
    }
  }

  /** A line whose only match ends the line has exactly that match's capture. */
  lemma OnlyMatch(line: string, i: nat, a: nat, b: nat, c: nat)
    requires DangerousMatch(line, i, a, b, c) && c + 2 == |line|
    requires forall j, a': nat, b': nat, c': nat :: 0 <= j < i ==> !DangerousMatch(line, j, a', b', c')
    ensures Found(line) == [line[a..b]]
  {
    LeftmostMatchFirst(line, 0, i, a, b, c);
  }

  /** `matchAll` finds exactly one dangerous expression on it. */
  lemma OneLineRunMatches()
    ensures Found(OneLineRun) == [HeadRef]
  {
    OneLineRunMatchAt10();
    OneLineRunNoEarlierMatch();
    OnlyMatch(OneLineRun, 10, 14, 29, 30);
  }

  /** It is a single line, and its `run:` key puts the scanner inside a script. */
  lemma OneLineRunIsScript()
    ensures Lines(OneLineRun) == [OneLineRun]
    ensures Next(OutsideRun, OneLineRun) == InsideRun
    ensures IntendedNext(OutsideRun, OneLineRun) == InsideRun
  {
    var line := OneLineRun;
    assert '\n' !in line by {
      forall k | 0 <= k < |line| ensures line[k] != '\n' {
      }
    }
    assert SkipWhile(line, 0, IsSpace) == 0;
    assert StartsRun(line);
  }

  /** A one-line `run: echo ${{ github.head_ref }}` gives exactly one finding, naming the expression. */
  lemma OneLineRunReported(file: string, doc: Value)
    ensures var r := Check(file, OneLineRun, doc);
      |r| == 1 && r[0] == Finding(file, 1, Error, Name, Message(HeadRef), Some(Fix))
  {
    OneLineRunMatches();
    OneLineRunIsScript();
  }

  /** The same step written as a sequence item. */
  const ItemRun := "- run: echo ${{ github.head_ref }}"

  /** The pattern matches at index 12, capturing `github.head_ref`. */
  lemma ItemRunMatchAt12()
    ensures DangerousMatch(ItemRun, 12, 16, 31, 32) && ItemRun[16..31] == HeadRef
  {
    var line := ItemRun;
    assert line[12] == '$' && line[13] == '{' && line[14] == '{';
    assert line[12..15] == "${{";
    assert line[32] == '}' && line[33] == '}';
    assert line[32..34] == "}}";
    assert line[16..31] == HeadRef;
  }

  /** No match starts earlier: there is no `$` before index 12. */
  lemma ItemRunNoEarlierMatch()
    ensures forall j, a: nat, b: nat, c: nat :: 0 <= j < 12 ==> !DangerousMatch(ItemRun, j, a, b, c)
  {
    forall j, a: nat, b: nat, c: nat | 0 <= j < 12 ensures !DangerousMatch(ItemRun, j, a, b, c) {
      assert ItemRun[j] != '$';
      assert ItemRun[j..j + 3][0] == ItemRun[j];
    }
  }

  /** `matchAll` finds exactly one dangerous expression on it. */
  lemma ItemRunMatches()
    ensures Found(ItemRun) == [HeadRef]
  {
    ItemRunMatchAt12();
    ItemRunNoEarlierMatch();
    OnlyMatch(ItemRun, 12, 16, 31, 32);
  }

  /** An unindented `- run:` line opens a sequence item with a `run:` key that `Next` does not see. */
  lemma DashRunIsItem(line: string)
    requires |line| >= 6 && line[0] == '-' && line[1] == ' ' && line[2..6] == "run:"
    ensures StartsRunItem(line) && !StartsRun(line) && !IsTopLevelKey(line)
  {
    assert SkipWhile(line, 0, IsSpace) == 0;
    assert TrimStart(line) == line;
    assert SkipWhile(line, 0, IsWordChar) == 0;
    assert line[..4][0] == '-';
    assert line[..5][0] == '-';
    var u := line[1..];
    assert u[0] == ' ' && u[1] == line[2] == 'r';
    assert SkipWhile(u, 0, IsSpace) == 1;
    assert TrimStart(u) == u[1..] == line[2..];
    assert line[2..][..4] == line[2..6];
  }

  /** Its first six characters are `- run:`. */
  lemma ItemRunPrefix()
    ensures |ItemRun| >= 6 && ItemRun[0] == '-' && ItemRun[1] == ' ' && ItemRun[2..6] == "run:"
  {
    var line := ItemRun;
    assert line[2] == 'r' && line[3] == 'u' && line[4] == 'n' && line[5] == ':';
  }

  /** It is a single line that opens a sequence item with a `run:` key, and `Next` does not see the key. */
  lemma ItemRunIsItem()
    ensures Lines(ItemRun) == [ItemRun]
    ensures StartsRunItem(ItemRun) && !StartsRun(ItemRun) && !IsTopLevelKey(ItemRun)
    ensures Next(OutsideRun, ItemRun) == OutsideRun
  {
    var line := ItemRun;
    assert '\n' !in line by {
      forall k | 0 <= k < |line| ensures line[k] != '\n' {
      }
    }
    ItemRunPrefix();
    DashRunIsItem(line);
  }

  /**
   * As written, the sequence-item step is never scanned: the line's one
   * dangerous interpolation gives no finding.
   */
  lemma ItemRunSkippedAsWritten(file: string, doc: Value)
    ensures |Found(ItemRun)| == 1
    ensures Check(file, ItemRun, doc) == []
  {
    ItemRunMatches();
    ItemRunIsItem();
  }

  /** With the intended transition the sequence-item step is reported once, naming the expression. */
  lemma ItemRunReported(file: string, doc: Value)
    ensures var r := IntendedCheck(file, ItemRun, doc);
      |r| == 1 && r[0] == Finding(file, 1, Error, Name, Message(HeadRef), Some(Fix))
  {
    ItemRunMatches();
    ItemRunIsItem();
  }
}
