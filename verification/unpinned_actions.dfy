/**
 * `unpinned-actions`: a remote action referenced by a branch or other
 * mutable ref instead of a commit SHA or a `v<digit>…` tag.
 */
module UnpinnedActions {
  import opened Wrappers
  import opened Text
  import opened Document
  import opened Findings
  import opened Parser
  import opened Collect

  const Name := "unpinned-actions"

  /** `/^[a-f0-9]{40}$/` */
  predicate IsShaPin(ref: string) {
    |ref| == 40 && forall k :: 0 <= k < |ref| ==> IsLowerHex(ref[k])
  }

  /** `/^v\d+/` */
  predicate IsSemverPin(ref: string) {
    |ref| >= 2 && ref[0] == 'v' && IsDigit(ref[1])
  }

  /** `uses.split('@')[1]`, which is `undefined` when `uses` has no `@`. */
  function RefOf(uses: string): Option<string> {
    var parts := Split(uses, '@');
    if |parts| >= 2 then Some(parts[1]) else None
  }

  /** The ref is the text between the first `@` and the next `@` (or the end). */
  lemma {:induction false} RefBetweenAts(uses: string, ref: string)
    ensures RefOf(uses) == Some(ref) <==>
      exists i :: 0 <= i < |uses| && uses[i] == '@' && '@' !in uses[..i]
        && IsHeadSegment(uses[i + 1..], '@', ref)
  {
    if '@' in uses {
      var i0 := FirstIndex(uses, '@');
      assert Split(uses, '@') == [uses[..i0]] + Split(uses[i0 + 1..], '@');
      SplitHead(uses[i0 + 1..], '@', ref);
      forall i | 0 <= i < |uses| && uses[i] == '@' && '@' !in uses[..i]
        ensures i == i0
      {
        FirstIndexUnique(uses, '@', i);
      }
    } else {
      assert Split(uses, '@') == [uses];
    }
  }

  /** A `uses` value this check reports: remote, with a ref that is neither a SHA nor a tag. */
  predicate IsUnpinned(uses: string) {
    && uses != ""
    && !StartsWith(uses, "./")
    && !StartsWith(uses, "docker://")
    && RefOf(uses).Some?
    && RefOf(uses).value != ""
    && !IsShaPin(RefOf(uses).value)
    && !IsSemverPin(RefOf(uses).value)
  }

  function Message(uses: string, ref: string): string {
    "Action \"" + uses + "\" uses branch ref \"" + ref + "\" instead of a version tag or SHA"
  }

  const Fix := "Pin to a version tag (e.g., @v4) or full SHA for security"

  /** The finding for one step: only a string `uses` is examined. */
  function StepFinding(file: string, content: string, step: Value): (r: Option<Finding>)
    ensures r.Some? <==> Get(step, "uses").Str? && IsUnpinned(Get(step, "uses").s)
    ensures r.Some? ==>
      var uses := Get(step, "uses").s;
      && r.value.severity == Error
      && r.value.line == FindLineNumber(content, uses)
      && r.value.message == Message(uses, RefOf(uses).value)
      && r.value.file == file && r.value.rule == Name
  {
    match Get(step, "uses")
    case Str(uses) =>
      if IsUnpinned(uses) then
        Some(Finding(file, FindLineNumber(content, uses), Error, Name,
                     Message(uses, RefOf(uses).value), Some(Fix)))
      else None
    case _ => None
  }

  /** The loop over the steps: one finding per unpinned step, in step order. */
  function CheckSteps(file: string, content: string, steps: seq<Value>): (r: seq<Finding>)
    ensures |r| <= |steps|
    ensures Attributed(r, file, Name) && Located(r, content)
    ensures forall k :: 0 <= k < |r| ==> r[k].severity == Error
    ensures forall f :: f in r ==>
      exists i :: 0 <= i < |steps| && StepFinding(file, content, steps[i]) == Some(f)
    ensures forall i :: (0 <= i < |steps| && Get(steps[i], "uses").Str?
                         && IsUnpinned(Get(steps[i], "uses").s)) ==>
      StepFinding(file, content, steps[i]).value in r
  {
    var judge := (step: Value) => StepFinding(file, content, step);
    FilterMapSound(steps, judge);
    FilterMapComplete(steps, judge);
    FilterMapAll(steps, judge, (f: Finding) =>
      f.file == file && f.rule == Name && f.severity == Error && 1 <= f.line <= |Lines(content)|);
    FilterMap(steps, judge)
  }

  /** Findings follow step order: the steps of a prefix are reported before the rest. */
  lemma FindingsFollowStepOrder(file: string, content: string, a: seq<Value>, b: seq<Value>)
    ensures CheckSteps(file, content, a + b) == CheckSteps(file, content, a) + CheckSteps(file, content, b)
  {
    FilterMapAppend(a, b, (step: Value) => StepFinding(file, content, step));
  }

  /** A single step yields exactly one finding when it is unpinned and none otherwise. */
  lemma OneFindingPerStep(file: string, content: string, step: Value)
    ensures |CheckSteps(file, content, [step])| == if Get(step, "uses").Str? && IsUnpinned(Get(step, "uses").s) then 1 else 0
    ensures CheckSteps(file, content, [step]) != [] ==> CheckSteps(file, content, [step])[0] == StepFinding(file, content, step).value
  {
    FilterMapOne(step, (step: Value) => StepFinding(file, content, step));
  }

  /** `unpinnedActions.check`: the step loop over every job's steps. */
  function Check(file: string, content: string, doc: Value): (r: seq<Finding>)
    requires JobsIterable(Jobs(doc))
    ensures !Truthy(Get(doc, "jobs")) ==> r == []
    ensures |r| <= |AllSteps(doc)|
    ensures Attributed(r, file, Name) && Located(r, content)
    ensures forall k :: 0 <= k < |r| ==> r[k].severity == Error
    ensures forall f :: f in r ==>
      exists i :: 0 <= i < |AllSteps(doc)| && StepFinding(file, content, AllSteps(doc)[i]) == Some(f)
    ensures forall i :: (0 <= i < |AllSteps(doc)| && Get(AllSteps(doc)[i], "uses").Str?
                         && IsUnpinned(Get(AllSteps(doc)[i], "uses").s)) ==>
      StepFinding(file, content, AllSteps(doc)[i]).value in r
  {
    CheckSteps(file, content, AllSteps(doc))
  }

  /** `owner/repo@ref` with no further `@`: the ref decides. */
  lemma {:induction false} SingleAtRef(action: string, ref: string)
    requires '@' !in action && '@' !in ref
    ensures RefOf(action + "@" + ref) == Some(ref)
  {
    var uses := action + "@" + ref;
    assert uses[|action|] == '@' && uses[..|action|] == action;
    assert uses[|action| + 1..] == ref;
    RefBetweenAts(uses, ref);
  }

  /** A tag such as `v4` or a 40-hex SHA after the `@` pins the action. */
  lemma PinnedRefNotReported(action: string, ref: string)
    requires '@' !in action && '@' !in ref
    requires IsSemverPin(ref) || IsShaPin(ref)
    ensures !IsUnpinned(action + "@" + ref)
  {
    SingleAtRef(action, ref);
  }

  /** A branch such as `main` after the `@` of a remote action is reported. */
  lemma BranchRefReported(action: string, ref: string)
    requires '@' !in action && '@' !in ref
    requires ref != "" && !IsSemverPin(ref) && !IsShaPin(ref)
    requires !StartsWith(action, "./") && !StartsWith(action, "docker://")
    ensures IsUnpinned(action + "@" + ref)
  {
    SingleAtRef(action, ref);
  }

  /** A reference without `@` has no ref and is never reported. */
  lemma NoRefNotReported(uses: string)
    requires '@' !in uses
    ensures !IsUnpinned(uses)
  {
    assert Split(uses, '@') == [uses];
  }
}
