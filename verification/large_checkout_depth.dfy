/** `large-checkout-depth`: a checkout step that fetches the entire history. */
module LargeCheckoutDepth {
  import opened Wrappers
  import opened Text
  import opened Document
  import opened Findings
  import opened Parser
  import opened Collect

  const Name := "large-checkout-depth"
  const Message := "`fetch-depth: 0` clones entire git history \U{2014} slow for large repos"
  const Fix := "Use a specific depth or omit for shallow clone (default: 1)"

  predicate IsCheckout(uses: string) {
    StartsWith(uses, "actions/checkout@")
  }

  /** `fetch-depth === 0 || fetch-depth === '0'`: strict equality, no coercion. */
  predicate FetchesAll(step: Value) {
    var depth := Get(Get(step, "with"), "fetch-depth");
    depth == Int(0) || depth == Str("0")
  }

  function StepFinding(file: string, content: string, step: Value): (r: Option<Finding>)
    ensures r.Some? <==> UsesOf(step).Str? && IsCheckout(UsesOf(step).s) && FetchesAll(step)
    ensures r.Some? ==>
      r.value == Finding(file, FindLineNumber(content, "fetch-depth"), Warning, Name, Message, Some(Fix))
  {
    match UsesOf(step)
    case Str(uses) =>
      if IsCheckout(uses) && FetchesAll(step) then
        Some(Finding(file, FindLineNumber(content, "fetch-depth"), Warning, Name, Message, Some(Fix)))
      else None
    case _ => None
  }

  /** The loop over the steps: one warning per checkout step fetching all history, in step order. */
  function CheckSteps(file: string, content: string, steps: seq<Value>): (r: seq<Finding>)
    ensures |r| <= |steps|
    ensures Attributed(r, file, Name) && Located(r, content)
    ensures forall k :: 0 <= k < |r| ==>
      r[k] == Finding(file, FindLineNumber(content, "fetch-depth"), Warning, Name, Message, Some(Fix))
    ensures r != [] <==>
      exists i :: 0 <= i < |steps| && UsesOf(steps[i]).Str?
                  && IsCheckout(UsesOf(steps[i]).s) && FetchesAll(steps[i])
  {
    var judge := (step: Value) => StepFinding(file, content, step);
    FilterMapSound(steps, judge);
    FilterMapComplete(steps, judge);
    FilterMapAll(steps, judge, (f: Finding) =>
      f == Finding(file, FindLineNumber(content, "fetch-depth"), Warning, Name, Message, Some(Fix)));
    var r := FilterMap(steps, judge);
    assert r != [] ==> r[0] in r;
    r
  }

  /** Findings follow step order: the steps of a prefix are reported before the rest. */
  lemma FindingsFollowStepOrder(file: string, content: string, a: seq<Value>, b: seq<Value>)
    ensures CheckSteps(file, content, a + b) == CheckSteps(file, content, a) + CheckSteps(file, content, b)
  {
    FilterMapAppend(a, b, (step: Value) => StepFinding(file, content, step));
  }

  /** A single step yields exactly one finding when it is a checkout fetching all history and none otherwise. */
  lemma OneFindingPerStep(file: string, content: string, step: Value)
    ensures |CheckSteps(file, content, [step])| == if UsesOf(step).Str? && IsCheckout(UsesOf(step).s) && FetchesAll(step) then 1 else 0
    ensures CheckSteps(file, content, [step]) != [] ==> CheckSteps(file, content, [step])[0] == StepFinding(file, content, step).value
  {
    FilterMapOne(step, (step: Value) => StepFinding(file, content, step));
  }

  /**
   * `largeCheckoutDepth.check`. Every finding points at the first line that
   * mentions `fetch-depth`, whichever step caused it.
   */
  function Check(file: string, content: string, doc: Value): (r: seq<Finding>)
    requires Shaped(doc)
    ensures !Truthy(Get(doc, "jobs")) ==> r == []
    ensures |r| <= |AllSteps(doc)|
    ensures Attributed(r, file, Name) && Located(r, content)
    ensures forall k :: 0 <= k < |r| ==>
      r[k] == Finding(file, FindLineNumber(content, "fetch-depth"), Warning, Name, Message, Some(Fix))
    ensures r != [] <==>
      exists i :: 0 <= i < |AllSteps(doc)| && UsesOf(AllSteps(doc)[i]).Str?
                  && IsCheckout(UsesOf(AllSteps(doc)[i]).s) && FetchesAll(AllSteps(doc)[i])
  {
    CheckSteps(file, content, AllSteps(doc))
  }

  /** Two checkout steps that fetch everything give two identical findings, not one. */
  lemma RepeatedStepsReportedTwice(file: string, content: string, step: Value)
    requires UsesOf(step).Str? && IsCheckout(UsesOf(step).s) && FetchesAll(step)
    ensures |CheckSteps(file, content, [step, step])| == 2
  {
    assert [step, step] == [step] + [step];
    FindingsFollowStepOrder(file, content, [step], [step]);
    OneFindingPerStep(file, content, step);
  }

  /** Only the integer 0 and the exact string "0" fetch everything; "00" and 1 do not. */
  lemma DepthExamples()
    ensures FetchesAll(Map([("with", Map([("fetch-depth", Int(0))]))]))
    ensures FetchesAll(Map([("with", Map([("fetch-depth", Str("0"))]))]))
    ensures !FetchesAll(Map([("with", Map([("fetch-depth", Str("00"))]))]))
    ensures !FetchesAll(Map([("with", Map([("fetch-depth", Int(1))]))]))
  {
  }
}
