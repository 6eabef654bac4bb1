/** `artifact-retention`: an artifact upload that keeps the default 90-day retention. */
module ArtifactRetention {
  import opened Wrappers
  import opened Text
  import opened Document
  import opened Findings
  import opened Parser
  import opened Collect

  const Name := "artifact-retention"
  const Message := "Artifact upload without retention-days \U{2014} defaults to 90 days"
  const Fix := "Add `retention-days: 7` (or appropriate) to reduce storage costs"

  predicate IsUpload(uses: string) {
    StartsWith(uses, "actions/upload-artifact@")
  }

  /** `!step.with?.['retention-days']`: absent and `0` both count as missing. */
  predicate LacksRetention(step: Value) {
    !Truthy(Get(Get(step, "with"), "retention-days"))
  }

  function StepFinding(file: string, content: string, step: Value): (r: Option<Finding>)
    ensures r.Some? <==> UsesOf(step).Str? && IsUpload(UsesOf(step).s) && LacksRetention(step)
    ensures r.Some? ==>
      r.value == Finding(file, FindLineNumber(content, UsesOf(step).s), Warning, Name, Message, Some(Fix))
  {
    match UsesOf(step)
    case Str(uses) =>
      if IsUpload(uses) && LacksRetention(step) then
        Some(Finding(file, FindLineNumber(content, uses), Warning, Name, Message, Some(Fix)))
      else None
    case _ => None
  }

  /** The loop over the steps: one warning per upload step without a retention, in step order. */
  function CheckSteps(file: string, content: string, steps: seq<Value>): (r: seq<Finding>)
    ensures |r| <= |steps|
    ensures Attributed(r, file, Name) && Located(r, content)
    ensures forall k :: 0 <= k < |r| ==> r[k].severity == Warning
    ensures forall f :: f in r ==>
      exists i :: 0 <= i < |steps| && UsesOf(steps[i]).Str?
                  && IsUpload(UsesOf(steps[i]).s) && LacksRetention(steps[i])
                  && f.line == FindLineNumber(content, UsesOf(steps[i]).s)
    ensures forall i :: (0 <= i < |steps| && UsesOf(steps[i]).Str?
                         && IsUpload(UsesOf(steps[i]).s) && LacksRetention(steps[i])) ==>
      Finding(file, FindLineNumber(content, UsesOf(steps[i]).s), Warning, Name, Message, Some(Fix)) in r
  {
    var judge := (step: Value) => StepFinding(file, content, step);
    FilterMapSound(steps, judge);
    FilterMapComplete(steps, judge);
    FilterMapAll(steps, judge, (f: Finding) =>
      f.file == file && f.rule == Name && f.severity == Warning && 1 <= f.line <= |Lines(content)|);
    FilterMap(steps, judge)
  }

  /** Findings follow step order: the steps of a prefix are reported before the rest. */
  lemma FindingsFollowStepOrder(file: string, content: string, a: seq<Value>, b: seq<Value>)
    ensures CheckSteps(file, content, a + b) == CheckSteps(file, content, a) + CheckSteps(file, content, b)
  {
    FilterMapAppend(a, b, (step: Value) => StepFinding(file, content, step));
  }

  /** A single step yields exactly one finding when it uploads without a retention and none otherwise. */
  lemma OneFindingPerStep(file: string, content: string, step: Value)
    ensures |CheckSteps(file, content, [step])| == if UsesOf(step).Str? && IsUpload(UsesOf(step).s) && LacksRetention(step) then 1 else 0
    ensures CheckSteps(file, content, [step]) != [] ==> CheckSteps(file, content, [step])[0] == StepFinding(file, content, step).value
  {
    FilterMapOne(step, (step: Value) => StepFinding(file, content, step));
  }

  /** `artifactRetention.check` */
  function Check(file: string, content: string, doc: Value): (r: seq<Finding>)
    requires Shaped(doc)
    ensures !Truthy(Get(doc, "jobs")) ==> r == []
    ensures |r| <= |AllSteps(doc)|
    ensures Attributed(r, file, Name) && Located(r, content)
    ensures forall k :: 0 <= k < |r| ==> r[k].severity == Warning
    ensures forall f :: f in r ==>
      exists i :: 0 <= i < |AllSteps(doc)| && UsesOf(AllSteps(doc)[i]).Str?
                  && IsUpload(UsesOf(AllSteps(doc)[i]).s) && LacksRetention(AllSteps(doc)[i])
                  && f.line == FindLineNumber(content, UsesOf(AllSteps(doc)[i]).s)
    ensures forall i :: (0 <= i < |AllSteps(doc)| && UsesOf(AllSteps(doc)[i]).Str?
                         && IsUpload(UsesOf(AllSteps(doc)[i]).s) && LacksRetention(AllSteps(doc)[i])) ==>
      Finding(file, FindLineNumber(content, UsesOf(AllSteps(doc)[i]).s), Warning, Name, Message, Some(Fix)) in r
  {
    CheckSteps(file, content, AllSteps(doc))
  }

  /** `retention-days: 0` is as good as absent; `retention-days: 7` satisfies the check. */
  lemma RetentionExamples()
    ensures LacksRetention(Map([("with", Map([("retention-days", Int(0))]))]))
    ensures LacksRetention(Map([]))
    ensures !LacksRetention(Map([("with", Map([("retention-days", Int(7))]))]))
  {
  }
}
