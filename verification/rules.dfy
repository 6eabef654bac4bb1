/**
 * The rule registries: every check as a `Rule` value (a name plus a
 * `check(file, content, parsed)`), the two ordered registries, and running
 * a registry over one parsed document.
 */
module Rules {
  import Collect
  import opened Document
  import opened Findings
  import Parser
  import UnpinnedActions
  import MissingPermissions
  import MissingTimeout
  import HardcodedSecrets
  import MissingConcurrency
  import DeprecatedActions
  import DeprecatedFeatures
  import ArtifactRetention
  import PullRequestTarget
  import ShellInjection
  import LargeCheckoutDepth

  datatype RuleId =
    | UnpinnedActionsRule
    | MissingPermissionsRule
    | MissingTimeoutRule
    | HardcodedSecretsRule
    | MissingConcurrencyRule
    | DeprecatedActionsRule
    | DeprecatedFeaturesRule
    | ArtifactRetentionRule
    | PullRequestTargetRule
    | ShellInjectionRule
    | LargeCheckoutDepthRule

  /** `rule.name` */
  function RuleName(id: RuleId): string {
    match id
    case UnpinnedActionsRule => UnpinnedActions.Name
    case MissingPermissionsRule => MissingPermissions.Name
    case MissingTimeoutRule => MissingTimeout.Name
    case HardcodedSecretsRule => HardcodedSecrets.Name
    case MissingConcurrencyRule => MissingConcurrency.Name
    case DeprecatedActionsRule => DeprecatedActions.Name
    case DeprecatedFeaturesRule => DeprecatedFeatures.Name
    case ArtifactRetentionRule => ArtifactRetention.Name
    case PullRequestTargetRule => PullRequestTarget.Name
    case ShellInjectionRule => ShellInjection.Name
    case LargeCheckoutDepthRule => LargeCheckoutDepth.Name
  }

  /** No two rules share a name, and none is called `parse-error`. */
  lemma RuleNamesDistinct(a: RuleId, b: RuleId)
    ensures RuleName(a) == RuleName(b) <==> a == b
    ensures RuleName(a) != "parse-error"
  {
    if RuleName(a) == RuleName(b) {
      assert RuleName(a)[..3] == RuleName(b)[..3];
      assert RuleName(a)[..10] == RuleName(b)[..10];
    }
  }

  /**
   * `rule.check(file, content, parsed)`: every finding names the file and
   * the rule that produced it, and points at an existing line.
   */
  function Run(id: RuleId, file: string, content: string, doc: Value): (r: seq<Finding>)
    requires Shaped(doc)
    ensures Attributed(r, file, RuleName(id)) && Located(r, content)
  {
    match id
    case UnpinnedActionsRule => UnpinnedActions.Check(file, content, doc)
    case MissingPermissionsRule => MissingPermissions.Check(file, content, doc)
    case MissingTimeoutRule => MissingTimeout.Check(file, content, doc)
    case HardcodedSecretsRule => HardcodedSecrets.Check(file, content, doc)
    case MissingConcurrencyRule => MissingConcurrency.Check(file, content, doc)
    case DeprecatedActionsRule => DeprecatedActions.Check(file, content, doc)
    case DeprecatedFeaturesRule => DeprecatedFeatures.Check(file, content, doc)
    case ArtifactRetentionRule => ArtifactRetention.Check(file, content, doc)
    case PullRequestTargetRule => PullRequestTarget.Check(file, content, doc)
    case ShellInjectionRule => ShellInjection.Check(file, content, doc)
    case LargeCheckoutDepthRule => LargeCheckoutDepth.Check(file, content, doc)
  }

  /** The command-line registry, in evaluation order. */
  const CliRegistry: seq<RuleId> := [
    UnpinnedActionsRule, MissingPermissionsRule, MissingTimeoutRule, HardcodedSecretsRule,
    MissingConcurrencyRule, DeprecatedActionsRule, DeprecatedFeaturesRule, ArtifactRetentionRule,
    PullRequestTargetRule, ShellInjectionRule, LargeCheckoutDepthRule
  ]

  /** The GitHub Action registry, in evaluation order. */
  const ActionRegistry: seq<RuleId> := [
    UnpinnedActionsRule, MissingPermissionsRule, MissingTimeoutRule, HardcodedSecretsRule,
    MissingConcurrencyRule, DeprecatedActionsRule, ArtifactRetentionRule, PullRequestTargetRule
  ]

  /** Rules the GitHub Action does not run. */
  predicate CliOnly(id: RuleId) {
    id == DeprecatedFeaturesRule || id == ShellInjectionRule || id == LargeCheckoutDepthRule
  }

  /** The command-line registry holds every rule exactly once. */
  lemma CliRegistryHoldsEveryRule(id: RuleId)
    ensures |CliRegistry| == 11
    ensures id in CliRegistry
    ensures forall i, j :: 0 <= i < j < |CliRegistry| ==> CliRegistry[i] != CliRegistry[j]
  {
  }

  /**
   * The Action registry is the command-line registry, in the same order,
   * without deprecated-features, shell-injection and large-checkout-depth.
   */
  lemma ActionRegistryOmitsThree()
    ensures |ActionRegistry| == 8
    ensures ActionRegistry == CliRegistry[..6] + CliRegistry[7..9]
    ensures forall id :: id in ActionRegistry <==> !CliOnly(id)
  {
  }

  /** What each rule of `registry` reports, in registry order. */
  function Outputs(registry: seq<RuleId>, file: string, content: string, doc: Value): (r: seq<seq<Finding>>)
    requires Shaped(doc)
    ensures |r| == |registry|
  {
    seq(|registry|, j requires 0 <= j < |registry| => Run(registry[j], file, content, doc))
  }

  /** A finding this engine reports for a parsed file: right file, real line, a rule's name. */
  predicate FromRule(f: Finding, file: string, content: string) {
    f.file == file && 1 <= f.line <= |Parser.Lines(content)| && f.rule != "parse-error"
  }

  /** The names of the rules in `registry`. */
  function RegistryNames(registry: seq<RuleId>): set<string> {
    set i | 0 <= i < |registry| :: RuleName(registry[i])
  }

  /**
   * The findings of a registry: each rule's findings, concatenated in
   * registry order. Each is attributed to one of the registry's rules.
   */
  function RunAll(registry: seq<RuleId>, file: string, content: string, doc: Value): (r: seq<Finding>)
    requires Shaped(doc)
    ensures forall k :: 0 <= k < |r| ==> FromRule(r[k], file, content) && r[k].rule in RegistryNames(registry)
  {
    var outs := Outputs(registry, file, content, doc);
    var names := RegistryNames(registry);
    forall i, k | 0 <= i < |outs| && 0 <= k < |outs[i]|
      ensures FromRule(outs[i][k], file, content) && outs[i][k].rule in names
    {
      RuleNamesDistinct(registry[i], registry[i]);
    }
    Collect.FlattenAll(outs, f => FromRule(f, file, content) && f.rule in names);
    Collect.Flatten(outs)
  }

  /** Running `a + b` is running `a`, then `b`. */
  lemma RunAllAppend(a: seq<RuleId>, b: seq<RuleId>, file: string, content: string, doc: Value)
    requires Shaped(doc)
    ensures RunAll(a + b, file, content, doc) == RunAll(a, file, content, doc) + RunAll(b, file, content, doc)
  {
    var oa, ob := Outputs(a, file, content, doc), Outputs(b, file, content, doc);
    var oab := Outputs(a + b, file, content, doc);
    forall j | 0 <= j < |oab| ensures oab[j] == (oa + ob)[j] {
      if j < |a| {
        assert (a + b)[j] == a[j];
      } else {
        assert (a + b)[j] == b[j - |a|];
      }
    }
    assert oab == oa + ob;
    Collect.FlattenAppend(Outputs(a, file, content, doc), Outputs(b, file, content, doc));
  }

  /** A registry of one rule reports what that rule reports. */
  lemma RunAllSingle(id: RuleId, file: string, content: string, doc: Value)
    requires Shaped(doc)
    ensures RunAll([id], file, content, doc) == Run(id, file, content, doc)
  {
    var outs := Outputs([id], file, content, doc);
    assert outs[1..] == [];
    assert Collect.Flatten(outs) == outs[0] + Collect.Flatten(outs[1..]);
  }
}
