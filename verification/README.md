# actions-lint rule engine in Dafny

This project models the rule-evaluation engine of `actions-lint`, a linter for
GitHub Actions workflow files, and proves properties of it.

The model has four parts:

- **Position resolver.** `findLineNumber` gives the 1-based number of the first
  `'\n'`-separated line that contains a search string, or 1 when no line does.
- **The eleven checks.** Each is a pure function of (file, raw text, parsed
  document) that returns findings.
  - Structural checks walk `jobs`, `steps`, `with` and `on`.
  - Textual checks scan the raw lines: `hardcoded-secrets`, `deprecated-features`
    and `shell-injection`. The last one is a two-state scanner, inside or
    outside a `run:` script.
- **The evaluator.** `lint` on the command line and `lintWorkflows` in the
  GitHub Action. Each parses every file. A parse failure becomes one
  `parse-error` finding. Otherwise each rule runs in registry order and the
  results are concatenated.
- **Aggregation and disposition.** Findings are grouped by file and stably
  sorted by line. The summary counts findings per severity. The exit status
  and Action failure are decided, and findings are turned into GitHub
  annotations.

How the source's runtime maps to the model:

- The parsed YAML is a `Value` (`Null | Bool | Int | Str | List | Map`, with map
  keys in order).
- JavaScript truthiness, `?.` property access, `Object.entries` and
  `job?.steps ?? []` iteration are written out explicitly.
- Each regular expression is a hand-written matcher. Where backtracking could
  matter, a lemma shows that the greedy reading accepts exactly the inputs
  some split of the pattern accepts.
- Wherever the source would throw a JavaScript exception, the model has a
  precondition instead:
  - `Document.Shaped`: every job's `steps` is iterable, no step is `null`, and
    every truthy `uses` is a string.
  - `Engine.Walkable`: every document that parses is `Shaped`.

Files, one module each:

- `wrappers.dfy`, `text.dfy`: general helpers.
- `document.dfy`: the document model.
- `parser.dfy`: the position resolver.
- `findings.dfy`: the finding record.
- `collect.dfy`, `linescan.dfy`: the two loop shapes the checks share.
- One file per check.
- `rules.dfy`: the registries.
- `engine.dfy`: the evaluator and file collection.
- `report.dfy`: aggregation and disposition.

## Model

| member | source | states |
|---|---|---|
| Parser.Lines | src/parser.ts:8 | Splitting the text on `'\n'` always yields at least one line, so line 1 always exists |
| Parser.FindLineNumber | src/parser.ts:7-13 | The result is between 1 and the number of lines. No line before it contains the search. If some line contains the search, the result's line does. If none does, the result is 1 |
| Parser.EmptySearchIsLineOne | src/parser.ts:10 | An empty search string is found on line 1 |
| Text.Split | src/parser.ts:8 | `split` yields at least one part, no part contains the separator, and joining the parts with the separator gives back the text |
| Text.SplitJoin | src/parser.ts:8 | Round trip: splitting separator-free parts joined with the separator gives back exactly those parts |
| Text.SplitHead | src/rules/deprecated-actions.ts:18 | The first part of a split is `h` exactly when `h` has no separator and is the whole text or is followed by the separator |
| Text.TrimStart | src/rules/hardcoded-secrets.ts:20 | `trimStart` returns a suffix of the input. Every removed character is JavaScript whitespace, and the result does not start with whitespace |
| Text.NatToString | src/rules/missing-timeout.ts:9 | The key `Object.entries` gives a list element is a decimal numeral without leading zeros whose value is the index |
| Text.MaximalRun | src/rules/shell-injection.ts:22 | A run of characters satisfying a class, followed by the end of the text or a character outside it, is the only maximal run from that start. Greedy matching therefore agrees with backtracking |
| Collect.FilterMapSound | src/rules/missing-timeout.ts:9-18 | Every finding a per-element loop pushes comes from some element of the input |
| Collect.FilterMapComplete | src/rules/missing-timeout.ts:9-18 | Every element that yields a finding has that finding in the output |
| Document.StepsOfJobsAppend | src/rules/unpinned-actions.ts:10-11 | The steps of jobs `a + b` are the steps of `a` followed by those of `b`, so steps are visited in job order |
| Collect.FilterMapAppend | src/rules/missing-timeout.ts:9-18 | The output for `a + b` is the output for `a` followed by the output for `b`, so findings follow input order |
| LineScan.Scan | src/rules/hardcoded-secrets.ts:17-31 | Each finding of a per-line scan is on an existing line after the start, and is the report the line judge gives that line |
| LineScan.ScanComplete | src/rules/hardcoded-secrets.ts:18-29 | Every line the judge reports gets a finding at its 1-based number |
| LineScan.ScanIncreasing | src/rules/hardcoded-secrets.ts:21-28 | Line numbers strictly increase along the findings, so no line is reported twice |
| UnpinnedActions.RefBetweenAts | src/rules/unpinned-actions.ts:16 | The ref is the text between the first `@` and the next `@` or the end. There is no ref when `uses` has no `@` |
| UnpinnedActions.StepFinding | src/rules/unpinned-actions.ts:12-28 | A step is reported exactly when its `uses` is a string that is not local or docker and whose ref is non-empty, not 40 lowercase hex and not `v` plus a digit. The finding is an error at `findLineNumber(content, uses)` |
| UnpinnedActions.Check | src/rules/unpinned-actions.ts:8-31 | No `jobs` gives no findings, and there are at most as many findings as steps. Every finding is an error of this rule on an existing line. A finding exists for exactly the unpinned steps |
| UnpinnedActions.CheckSteps | src/rules/unpinned-actions.ts:11-28 | There are at most as many findings as steps, all attributed to this rule on existing lines. Every finding is the finding of some unpinned step, and every unpinned step has its finding |
| UnpinnedActions.FindingsFollowStepOrder | src/rules/unpinned-actions.ts:11-28 | The findings for steps `a + b` are those for `a` followed by those for `b`, so findings follow step order |
| UnpinnedActions.OneFindingPerStep | src/rules/unpinned-actions.ts:11-28 | A single step gives exactly one finding when it is a remote action on a branch or other mutable ref, and none otherwise. With the order law this fixes the count: one finding per offending step, repeats included |
| UnpinnedActions.SingleAtRef | src/rules/unpinned-actions.ts:16 | For `action@ref` with no further `@`, the ref is `ref` |
| UnpinnedActions.PinnedRefNotReported | src/rules/unpinned-actions.ts:19-21 | A `v<digit>` tag or a 40-hex SHA after the `@` is never reported |
| UnpinnedActions.BranchRefReported | src/rules/unpinned-actions.ts:21-27 | A non-empty ref that is neither a tag nor a SHA, on a remote action, is reported |
| UnpinnedActions.NoRefNotReported | src/rules/unpinned-actions.ts:16-17 | A `uses` without `@` is never reported |
| MissingPermissions.Check | src/rules/missing-permissions.ts:6-15 | There is at most one finding. It exists exactly when `jobs` is truthy, top-level `permissions` is falsy, and some job lacks truthy `permissions`. It is a warning at line 1 |
| MissingPermissions.EmptyPermissionsBlockSatisfies | src/rules/missing-permissions.ts:7 | `permissions: {}` at the top counts as present |
| MissingPermissions.EmptyJobsMapHasNoFinding | src/rules/missing-permissions.ts:9-10 | An empty `jobs` mapping gives no finding, because `every` over no jobs is true |
| MissingTimeout.JobFinding | src/rules/missing-timeout.ts:10-16 | A job is reported exactly when its `timeout-minutes` is falsy. The warning names the job and sits at `findLineNumber(content, name + ":")` |
| MissingTimeout.CheckJobs | src/rules/missing-timeout.ts:9-18 | There are at most as many findings as jobs, all warnings. Each finding belongs to a job lacking a timeout, and each such job has its finding |
| MissingTimeout.FindingsFollowJobOrder | src/rules/missing-timeout.ts:9 | The findings for jobs `a + b` are those for `a` followed by those for `b` |
| MissingTimeout.Check | src/rules/missing-timeout.ts:8-19 | No `jobs` gives no findings, there are at most as many findings as jobs, and each finding is on an existing line |
| MissingTimeout.TimeoutExamples | src/rules/missing-timeout.ts:10 | `timeout-minutes: 30` passes, while `0` and absent are both reported |
| HardcodedSecrets.AssignmentWithIsRegexMatch | src/rules/hardcoded-secrets.ts:5 | The greedy matcher for `key\s*[:=]\s*['"][^${}]+['"]` (case-insensitive) accepts exactly when some split of the line matches the pattern |
| HardcodedSecrets.Judge | src/rules/hardcoded-secrets.ts:20-28 | A line is reported exactly when it is not a comment and some secret pattern matches it |
| HardcodedSecrets.Check | src/rules/hardcoded-secrets.ts:16-32 | Each finding is an error of this rule on an existing line. Lines strictly increase, so there is at most one finding per line. Every finding's line is a non-comment line that matches. Every such line has a finding |
| HardcodedSecrets.InterpolationIsNotALiteral | src/rules/hardcoded-secrets.ts:5 | When every quote is followed by `$`, `{` or `}`, as in a quoted `${{ … }}`, the assignment pattern never matches |
| HardcodedSecrets.LiteralPasswordFlagged | src/rules/hardcoded-secrets.ts:5 | `password: "hunter2"` matches a secret pattern |
| MissingConcurrency.Check | src/rules/missing-concurrency.ts:5-13 | There is at most one finding. It exists exactly when the document is truthy and `concurrency` is falsy. It is an info finding at line 1 |
| MissingConcurrency.IndependentOfJobs | src/rules/missing-concurrency.ts:5-13 | Adding a `jobs` entry does not change the result |
| MissingConcurrency.ScalarDocumentGetsFinding | src/rules/missing-concurrency.ts:6-7 | A file holding one non-empty plain scalar is reported |
| DeprecatedActions.ActionBeforeFirstAt | src/rules/deprecated-actions.ts:18 | The action is the text before the first `@`, or the whole `uses` when there is no `@` |
| DeprecatedActions.FixFor | src/rules/deprecated-actions.ts:4-8 | There is a replacement exactly for the three table keys, and it is the table's text |
| DeprecatedActions.PrototypeMemberFlaggedAsWritten | src/rules/deprecated-actions.ts:19 | As written, the action `constructor` is flagged although it is not a table key |
| DeprecatedActions.StepFinding | src/rules/deprecated-actions.ts:17-26 | A step is reported exactly when its action is a table key. The warning's fix is the table value, at `findLineNumber(content, uses)` |
| DeprecatedActions.Check | src/rules/deprecated-actions.ts:14-29 | No `jobs` gives no findings, and there are at most as many findings as steps. Each finding is a warning with a fix. A finding exists for exactly the steps using a retired action |
| DeprecatedActions.CheckSteps | src/rules/deprecated-actions.ts:16-26 | There are at most as many findings as steps, all attributed to this rule on existing lines. Every finding is the finding of some step using a retired action, and every step using a retired action has its finding |
| DeprecatedActions.FindingsFollowStepOrder | src/rules/deprecated-actions.ts:16-26 | The findings for steps `a + b` are those for `a` followed by those for `b`, so findings follow step order |
| DeprecatedActions.OneFindingPerStep | src/rules/deprecated-actions.ts:16-26 | A single step gives exactly one finding when it is a use of a retired action, and none otherwise. With the order law this fixes the count: one finding per offending step, repeats included |
| DeprecatedFeatures.FirstMatch | src/rules/deprecated-features.ts:19-27 | Returns the first pattern, in table order, that matches the line, or none when no pattern matches |
| DeprecatedFeatures.Judge | src/rules/deprecated-features.ts:18-26 | A line is reported exactly when it is not a comment and some pattern matches. The first matching pattern supplies the message and fix |
| DeprecatedFeatures.Check | src/rules/deprecated-features.ts:13-29 | Each finding is a warning on an existing line, at most one per line. The reported lines are exactly the non-comment lines some pattern matches |
| DeprecatedFeatures.PrefixedImpliesBare | src/rules/deprecated-features.ts:4-7 | A `::cmd name=` line also matches the bare `cmd name=` pattern |
| DeprecatedFeatures.PrefixedMessageWins | src/rules/deprecated-features.ts:4-6 | A `::set-output name=` line gets the `::set-output` message, not the bare one |
| DeprecatedFeatures.WhitespaceRequired | src/rules/deprecated-features.ts:4-7 | A line without whitespace matches no pattern, because `\s+` needs at least one character |
| ArtifactRetention.StepFinding | src/rules/artifact-retention.ts:11-20 | A step is reported exactly when it uses `actions/upload-artifact@…` and its `retention-days` is falsy |
| ArtifactRetention.Check | src/rules/artifact-retention.ts:8-24 | No `jobs` gives no findings, and there are at most as many warnings as steps. A finding exists for exactly the upload steps lacking a retention |
| ArtifactRetention.CheckSteps | src/rules/artifact-retention.ts:10-21 | There are at most as many findings as steps, all attributed to this rule on existing lines. Every finding is the finding of some upload step lacking a retention, and every upload step lacking a retention has its finding |
| ArtifactRetention.FindingsFollowStepOrder | src/rules/artifact-retention.ts:10-21 | The findings for steps `a + b` are those for `a` followed by those for `b`, so findings follow step order |
| ArtifactRetention.OneFindingPerStep | src/rules/artifact-retention.ts:10-21 | A single step gives exactly one finding when it is a upload without a retention, and none otherwise. With the order law this fixes the count: one finding per offending step, repeats included |
| ArtifactRetention.RetentionExamples | src/rules/artifact-retention.ts:13 | `retention-days: 0` and absent are both missing, while `7` is not |
| PullRequestTarget.MappingTriggers | src/rules/pull-request-target.ts:8-9 | For a mapping `on`, a name is a trigger exactly when it is one of the keys |
| PullRequestTarget.TriggerShapes | src/rules/pull-request-target.ts:8-10 | The string, list and mapping forms of `on` all contain `pull_request_target`. Other scalars have no triggers |
| PullRequestTarget.Check | src/rules/pull-request-target.ts:7-26 | There is at most one finding. It exists exactly when a truthy `on` includes `pull_request_target`, and it sits at that word's line. It is an error with the high-risk message exactly when the text has a checkout plus a PR-head reference, and a warning otherwise |
| ShellInjection.MatchAt | src/rules/shell-injection.ts:22 | A match found at an index captures a `github.event.…` field path or `github.head_ref`, and ends inside the line |
| ShellInjection.MatchAtSound | src/rules/shell-injection.ts:22 | Every match the greedy matcher reports is a match of the pattern under some split, with the same capture |
| ShellInjection.MatchAtComplete | src/rules/shell-injection.ts:22 | Every split of the line that fits the pattern at an index is the match the greedy matcher reports there |
| ShellInjection.Matches | src/rules/shell-injection.ts:42-43 | `matchAll` captures only dangerous expressions, and captures nothing when the pattern matches nowhere at or after the start |
| ShellInjection.NoMatchNoCapture | src/rules/shell-injection.ts:42-43 | If no split of the line fits the pattern at any index at or after the start, `matchAll` yields no capture |
| ShellInjection.MatchesComplete | src/rules/shell-injection.ts:42-43 | If the pattern matches anywhere at or after the start index, `matchAll` captures something |
| ShellInjection.LeftmostMatchFirst | src/rules/shell-injection.ts:42-43 | The first capture is the leftmost match's, and the search resumes where that match ends, as the `g` flag does |
| ShellInjection.OnlyMatch | src/rules/shell-injection.ts:42-43 | A line whose only match ends the line yields exactly that match's capture |
| ShellInjection.TopLevelKeyIsRegexMatch | src/rules/shell-injection.ts:37 | The unindented-key test holds exactly when the line does not start with whitespace and a non-empty run of word characters is followed by `:` |
| ShellInjection.RunKeyEnters | src/rules/shell-injection.ts:35-36 | A `run:` or `run :` key at any indentation enters the script state |
| ShellInjection.TopLevelKeyLeaves | src/rules/shell-injection.ts:37-38 | An unindented `word:` key that is not `run:` leaves the script state |
| ShellInjection.OtherLinesKeepState | src/rules/shell-injection.ts:35-39 | Blank lines and indented lines that are not `run:` keep the state |
| ShellInjection.IntendedNext | src/rules/shell-injection.ts:33-39 | The corrected transition: a `run:` key enters the script state also when it opens a sequence item (`- run:`). On every other line it agrees with the as-written transition |
| ShellInjection.ScanOnScriptLines | src/rules/shell-injection.ts:31-51 | Starting outside a script, every finding sits on a line scanned inside a script |
| ShellInjection.ScanCounts | src/rules/shell-injection.ts:41-49 | Each line scanned inside a script has exactly one finding per match, and every other line has none |
| ShellInjection.Check | src/rules/shell-injection.ts:26-53 | Every finding is an error of this rule on an existing line that was scanned inside a script, under the transition as written. Each line's finding count is its match count when inside and zero otherwise. Comment lines are not exempt |
| ShellInjection.IntendedCheck | src/rules/shell-injection.ts:26-53 | The corrected scan of the Findings row: the same guarantees as Check, but under the transition that also enters at a `- run:` item |
| ShellInjection.ScansAgreeWithoutItems | src/rules/shell-injection.ts:31-51 | From any line and state, the corrected and as-written scans give the same findings when no remaining line is a `- run:` item |
| ShellInjection.IntendedCheckAgreesWithoutItems | src/rules/shell-injection.ts:26-53 | The corrected check differs from the as-written one only on files that contain a `- run:` item line |
| ShellInjection.RunLineIsScanned | src/rules/shell-injection.ts:35-41 | A bare `run:` line is itself scanned under the transition as written: it is owed one finding per match on it |
| ShellInjection.ItemRunLineIsScanned | src/rules/shell-injection.ts:33-41 | Under the corrected transition, a `run:` line is scanned also when it is a `- run:` item: it is owed one finding per match on it |
| ShellInjection.OneLineRunMatches | src/rules/shell-injection.ts:22 | On `run: echo ${{ github.head_ref }}`, `matchAll` captures exactly `github.head_ref` |
| ShellInjection.OneLineRunIsScript | src/rules/shell-injection.ts:28-36 | That text is one line, and its `run:` key enters the script state |
| ShellInjection.OneLineRunReported | src/rules/shell-injection.ts:26-53 | Linting that one line gives exactly one error, on line 1, naming `github.head_ref` |
| ShellInjection.ItemRunMatches | src/rules/shell-injection.ts:22 | On `- run: echo ${{ github.head_ref }}`, `matchAll` captures exactly `github.head_ref` |
| ShellInjection.DashRunIsItem | src/rules/shell-injection.ts:33-38 | An unindented line starting `- run:` opens a `run:` sequence item, yet fails both the `run:` prefix test and the unindented-key test |
| ShellInjection.ItemRunIsItem | src/rules/shell-injection.ts:28-39 | That text is one line opening a `run:` sequence item, and the as-written transition keeps the scanner outside |
| ShellInjection.ItemRunSkippedAsWritten | src/rules/shell-injection.ts:26-53 | As written, that line has one dangerous match but the check reports nothing |
| ShellInjection.ItemRunReported | src/rules/shell-injection.ts:26-53 | The corrected check gives that line exactly one error, on line 1, naming `github.head_ref` |
| LargeCheckoutDepth.StepFinding | src/rules/large-checkout-depth.ts:12-20 | A step is reported exactly when it uses `actions/checkout@…` and `fetch-depth` is the integer 0 or the string `"0"` |
| LargeCheckoutDepth.Check | src/rules/large-checkout-depth.ts:8-24 | No `jobs` gives no findings, and there are at most as many warnings as steps. Every finding is at the first line mentioning `fetch-depth`. There are findings exactly when some checkout step fetches everything |
| LargeCheckoutDepth.CheckSteps | src/rules/large-checkout-depth.ts:11-20 | There are at most as many findings as steps, each the same warning at the first line mentioning `fetch-depth`. There are findings exactly when some checkout step fetches everything |
| LargeCheckoutDepth.FindingsFollowStepOrder | src/rules/large-checkout-depth.ts:11-20 | The findings for steps `a + b` are those for `a` followed by those for `b` |
| LargeCheckoutDepth.OneFindingPerStep | src/rules/large-checkout-depth.ts:11-20 | A single step gives exactly one finding when it is a checkout fetching everything, and none otherwise |
| LargeCheckoutDepth.RepeatedStepsReportedTwice | src/rules/large-checkout-depth.ts:11-20 | Two checkout steps that fetch everything give two identical findings, not one |
| LargeCheckoutDepth.DepthExamples | src/rules/large-checkout-depth.ts:13 | `0` and `"0"` fetch everything, while `"00"` and `1` do not |
| Rules.RuleNamesDistinct | src/cli.ts:18-22 | No two rules share a name, and no rule is named `parse-error` |
| Rules.Run | dist/cli/types.d.ts:9-12 | A rule's check returns findings that all name the file and the rule, on existing lines |
| Rules.CliRegistryHoldsEveryRule | src/cli.ts:18-22 | The command-line registry lists all eleven rules, each once |
| Rules.ActionRegistryOmitsThree | src/index.ts:15-18 | The Action registry has eight rules: the command-line registry, in the same order, without deprecated-features, shell-injection and large-checkout-depth |
| Rules.RunAll | src/cli.ts:78-80 | Running a registry gives findings for this file on existing lines. Each names one of the registry's rules, never `parse-error` |
| Rules.RunAllAppend | src/cli.ts:78-80 | Running registry `a + b` gives `a`'s findings followed by `b`'s |
| Rules.RunAllSingle | src/cli.ts:78-79 | A registry of one rule reports exactly that rule's findings |
| Engine.LintFile | src/cli.ts:71-80 | A parse failure gives exactly one finding: a `parse-error` error at line 1 with the message `Failed to parse: …`. Otherwise every finding names a registry rule. All findings are for this file, on existing lines |
| Engine.ParseErrorIffUnparsable | src/cli.ts:72-77 | A `parse-error` finding appears exactly when the file does not parse |
| Engine.LintFileInRegistryOrder | src/cli.ts:78-80 | For a parsed file, the findings of registry `a + b` are `a`'s followed by `b`'s. A one-rule registry gives that rule's findings |
| Engine.Lint | src/cli.ts:67-83 | Every finding points at an existing line of one of the files. It is a parse error or names a registry rule |
| Engine.LintAppend | src/cli.ts:68-82 | Linting files `a + b` gives `a`'s findings followed by `b`'s |
| Engine.LintSingle | src/cli.ts:69-81 | Linting one file gives that file's findings |
| Engine.WorkflowNameIsRegexMatch | src/cli.ts:63 | The name filter holds exactly when `.yml` or `.yaml` ends the name |
| Engine.WorkflowNames | src/cli.ts:62-63 | A directory entry is kept exactly when its name ends in `.yml` or `.yaml` |
| Engine.WorkflowNamesAppend | src/cli.ts:62-63 | The names kept from listing `a + b` are those kept from `a` followed by those from `b`, so the filter keeps listing order and repeats |
| Engine.WorkflowNamesOne | src/cli.ts:63 | A single entry is kept exactly when it names a workflow file |
| Engine.WorkflowPaths | src/index.ts:46-55 | There is one path per kept entry, in listing order, each the directory joined with a kept entry name |
| Engine.CollectFiles | src/cli.ts:55-65 | A missing path fails with `Path not found`. A file is taken whatever its name. A directory gives its workflow paths |
| Engine.LintPaths | src/cli.ts:67-83 | Linting collected paths gives findings whose file is one of those paths. Each is a parse error or names a registry rule |
| Engine.CliRun | src/cli.ts:116-122 | A missing path exits 1 with nothing linted, and a directory without workflows exits 0. Otherwise the exit status is 1 exactly when some finding is an error. A single file gives its own findings |
| Engine.Finish | src/cli.ts:122 | The exit status is 0 or 1, and it is 1 exactly when some finding is an error |
| Engine.LintWorkflows | src/index.ts:40-74 | A missing directory fails with `Directory not found`, and an empty listing gives no findings. Otherwise every finding is for one of the directory's workflow paths and is a parse error or names an Action-registry rule |
| Report.CountSeverity | src/cli.ts:105-107 | A severity count never exceeds the number of findings |
| Report.CountSeverityAppend | src/cli.ts:105-107 | The count over `a + b` is the count over `a` plus the count over `b` |
| Report.CountSeverityOne | src/cli.ts:105-107 | A single finding counts 1 toward its own severity and 0 toward the others. With the append law this pins each printed total |
| Report.SeverityCountsAddUp | src/cli.ts:105-108 | errors + warnings + infos = total findings |
| Report.HasErrorIffCounted | src/cli.ts:122 | Some finding is an error exactly when the error count is positive |
| Report.CliExitCode | src/index.ts:129 | The exit status is 0 or 1, and it is 1 exactly when the error count is positive |
| Report.CliExitCodeAppend | src/cli.ts:122 | The run over several files fails exactly when the findings of some part would fail it |
| Report.RunFails | src/index.ts:122-130 | Failing implies an error finding. On the command line, the run fails exactly when some finding is an error. In Action mode with `fail-on-error: false`, it never fails |
| Report.OnlyExactFalseDisables | src/index.ts:124 | Any `fail-on-error` input other than exactly `false` behaves like the command line |
| Report.Level | src/index.ts:111-113 | `error` becomes an error annotation, `warning` becomes a warning annotation, and `info` becomes a notice, each the only severity that does |
| Report.AnnotationMessage | src/index.ts:110 | The message starts with `[rule] message`. It continues with ` — fix` when the fix is present and non-empty, and ends there otherwise |
| Report.AnnotationShowsFixIffTruthy | src/index.ts:110 | The fix changes the annotation message exactly when it is present and non-empty |
| Report.Annotate | src/index.ts:108-115 | There is one annotation per finding, in order, with its level, message, file and start line |
| Report.ErrorAnnotationIffError | src/index.ts:111 | An error annotation is emitted exactly when some finding is an error |
| Report.FilesOf | src/cli.ts:90-94 | The grouping keys are distinct, and they are exactly the files that have findings |
| Report.FilesOfOrder | src/cli.ts:90-96 | Files are listed in order of first appearance: every occurrence of a later file is preceded by an occurrence of each earlier file |
| Report.OfFile | src/cli.ts:91-94 | A file's group holds exactly the findings for that file |
| Report.OfFileAppend | src/cli.ts:91-94 | The group of `a + b` is the group of `a` followed by the group of `b`, so the push loop keeps reporting order and repeats |
| Report.OfFileOne | src/cli.ts:91-94 | A single finding lands in its own file's group and no other |
| Report.GroupByFile | src/cli.ts:90-96 | Each group pairs a grouping key with that file's findings |
| Report.GroupsPartition | src/cli.ts:90-94 | Every finding lands in the group of its file. Group files are distinct, and no group is empty |
| Report.Insert | src/cli.ts:98 | Inserting adds exactly the new finding to the multiset of findings |
| Report.SortByLine | src/cli.ts:98 | Sorting permutes the findings |
| Report.SortByLineSortedAndStable | src/cli.ts:98 | The sorted findings ascend by line, and the findings at each line keep their original relative order, as a stable sort does |
| Report.Listing | src/cli.ts:96-98 | The printed listing has one block per file, in grouping order, each a permutation of that file's findings (as ordered and counted by Report.OfFileAppend and Report.OfFileOne) |
| Report.OnLineOfFile | src/cli.ts:91-98 | Taking a file's findings and then those at one line gives the same sequence as the reverse order of selection |
| Report.ListingSortedAndStable | src/cli.ts:90-98 | Each file's block ascends by line. At each line it holds exactly that file's findings at that line, in the order the rules reported them |

## Left out

- js-yaml deserialisation is a parameter, `Parser.Deserializer`: a function from text to a document or an error message. The library is foreign code.
- File-system access is passed in as parameters:
  - `Engine.PathKind` says whether a path is missing, a file, or a directory with its entry names;
  - a `join` function stands for `path.join`;
  - a `read` function stands for `fs.readFileSync`.
- A read that throws is not modelled. The source lets that exception end the whole process.
- `process.exit`, `process.env` and `console` output are not modelled. Colours, icons, `usage`, `getVersion` and argument parsing are left out too: `--help`, `--version` and the default `.github/workflows` target.
- The `@actions/core` calls are foreign. `getInput` becomes the `Report.Mode` parameter, and `error`/`warning`/`notice`/`setFailed` become the pure `Report.Annotate` and `Report.RunFails`.
- The unused `DANGEROUS_CONTEXTS` list (src/rules/shell-injection.ts:3-20) is left out. It has no effect on behaviour; only `DANGEROUS_PATTERN` decides.
- Strings are sequences of code points, while JavaScript uses UTF-16 code units. Every character class in the patterns is ASCII, except `\s`, whose members are all single code units, so matching is unaffected. One place differs: for a string-valued `jobs`, `Object.entries` yields one entry per UTF-16 code unit, while `Document.Entries` yields one per code point. A `jobs` string holding an astral character therefore gives `missing-timeout` two findings in the source and one in the model.
- Numbers are integers. A non-integer `timeout-minutes` or `fetch-depth` is outside the model.
- JavaScript orders integer-like keys first in `Object.entries`. This is not modelled: jobs keep document order. A job keyed `1` listed after `build` therefore reorders the findings of five checks: `missing-timeout`, `unpinned-actions`, `deprecated-actions`, `artifact-retention` and `large-checkout-depth`. Through them it also reorders findings within a line of the listing.
- Rules.Run: requires `Document.Shaped` for every rule. Only the structural checks throw without it, but the registries always run them.
- Engine.LintWorkflows: requires the path not to be a regular file. There `fs.readdirSync` throws and the Action crashes.
- DeprecatedActions.Check: models the intended table lookup, as do DeprecatedActions.StepFinding, DeprecatedActions.CheckSteps and DeprecatedActions.OneFindingPerStep. The as-written lookup is logged under Findings.
- Rules.Run: the registries run DeprecatedActions' intended own-key lookup, so a step using an inherited `Object.prototype` name such as `constructor@v1` is not reported by `Rules.Run`, `Engine.Lint`, `Engine.CliRun` or `Engine.LintWorkflows`, although the source reports it.

Where the project's documented behaviour and its code differ, the model follows the code, with one exception: the `deprecated-actions` table lookup, which follows the intended own-key lookup (see Findings). The `shell-injection` scan follows the code; its documented entry at a `run:` key at any indentation is the corrected `IntendedCheck` under Findings. The differences:

- The documentation says the scanner leaves a `run:` script at any unindented mapping key. The code requires `\w+:`, so an unindented `run-name:` or a quoted key does not end the script.
- The documentation says structural checks tolerate a non-mapping document. For a document that is a non-empty scalar, `missing-concurrency` still reports (`MissingConcurrency.ScalarDocumentGetsFinding`).
- The documentation says a failure is always a finding. The code throws on `steps` that cannot be iterated, on a `null` step, and on a non-string truthy `uses`. The model turns these into preconditions.

## Findings

| source | as written | input that shows it | evidently intended | confidence | as-written member | corrected member |
|---|---|---|---|---|---|---|
| src/rules/deprecated-actions.ts:19 | `DEPRECATED[action]` indexes a plain object literal, so inherited `Object.prototype` members are truthy | a step with `uses: constructor@v1` (likewise `toString`, `hasOwnProperty`, `__proto__`) is reported as deprecated, and its fix is a non-string value (a function, or `Object.prototype` itself for `__proto__`) | only the three table keys are reported, each with its replacement text | high; not executed | DeprecatedActions.PrototypeMemberFlaggedAsWritten | DeprecatedActions.FixFor |
| src/rules/shell-injection.ts:33-35 | `trimmed.startsWith('run:')` only sees a `run:` key at the start of the trimmed line, so a `run:` key that opens a sequence item is missed | a steps list line `- run: echo ${{ github.head_ref }}` (likewise `- run: echo "${{ github.event.issue.title }}"`) gives no finding | a `- run:` step enters the script state and its dangerous interpolations are reported | medium; not executed | ShellInjection.ItemRunSkippedAsWritten | ShellInjection.IntendedCheck |
