/**
 * `pull-request-target`: the workflow runs on `pull_request_target`; it is
 * an error when the text also checks out the pull request's head.
 */
module PullRequestTarget {
  import opened Wrappers
  import opened Text
  import opened Document
  import opened Findings
  import opened Parser

  const Name := "pull-request-target"
  const Trigger := "pull_request_target"
  const RiskMessage := "pull_request_target with PR head checkout \U{2014} HIGH SECURITY RISK (code injection)"
  const ReviewMessage := "pull_request_target trigger requires careful security review"
  const Fix := "Prefer pull_request trigger, or ensure no untrusted code is executed"

  /** A string is one trigger, a list is kept as it is, a mapping contributes its keys. */
  function Triggers(on: Value): seq<Value> {
    match on
    case Str(_) => [on]
    case List(items) => items
    case Map(es) => seq(|es|, k requires 0 <= k < |es| => Str(es[k].0))
    case _ => []
  }

  /** A trigger name is among a mapping's triggers exactly when it is one of its keys. */
  lemma MappingTriggers(es: seq<(string, Value)>, t: string)
    ensures Str(t) in Triggers(Map(es)) <==> exists k :: 0 <= k < |es| && es[k].0 == t
  {
    var ts := Triggers(Map(es));
    if Str(t) in ts {
      var k :| 0 <= k < |ts| && ts[k] == Str(t);
      assert es[k].0 == t;
    }
    if k :| 0 <= k < |es| && es[k].0 == t {
      assert ts[k] == Str(t);
    }
  }

  /** `triggers.includes('pull_request_target')`, with a truthy `on`. */
  predicate OnPullRequestTarget(doc: Value) {
    Truthy(Get(doc, "on")) && Str(Trigger) in Triggers(Get(doc, "on"))
  }

  /** Somewhere in the raw text a checkout is combined with a reference to the PR head. */
  predicate ChecksOutHead(content: string) {
    Contains(content, "actions/checkout")
    && (Contains(content, "github.event.pull_request.head") || Contains(content, "head.ref"))
  }

  /** `pullRequestTarget.check` */
  function Check(file: string, content: string, doc: Value): (r: seq<Finding>)
    ensures |r| <= 1
    ensures |r| == 1 <==> OnPullRequestTarget(doc)
    ensures Attributed(r, file, Name) && Located(r, content)
    ensures |r| == 1 ==> r[0].line == FindLineNumber(content, Trigger) && r[0].fix == Some(Fix)
    ensures |r| == 1 ==> (r[0].severity == Error <==> ChecksOutHead(content))
    ensures |r| == 1 ==> r[0].severity in {Error, Warning}
    ensures |r| == 1 ==> r[0].message == (if ChecksOutHead(content) then RiskMessage else ReviewMessage)
  {
    if !OnPullRequestTarget(doc) then []
    else
      var risky := ChecksOutHead(content);
      [Finding(file, FindLineNumber(content, Trigger), if risky then Error else Warning, Name,
               if risky then RiskMessage else ReviewMessage, Some(Fix))]
  }

  /** `on: pull_request_target`, `on: [push, pull_request_target]` and `on: {pull_request_target: …}` all count. */
  lemma TriggerShapes(v: Value, rest: seq<Value>)
    ensures Str(Trigger) in Triggers(Str(Trigger))
    ensures Str(Trigger) in Triggers(List(rest + [Str(Trigger)]))
    ensures Str(Trigger) in Triggers(Map([(Trigger, v)]))
    ensures Triggers(Int(1)) == [] && Triggers(Bool(true)) == []
  {
    assert Triggers(Map([(Trigger, v)]))[0] == Str(Trigger);
    assert (rest + [Str(Trigger)])[|rest|] == Str(Trigger);
  }
}
