/** `deprecated-actions`: a step uses an action from a fixed table of retired actions. */
module DeprecatedActions {
  import opened Wrappers
  import opened Text
  import opened Document
  import opened Findings
  import opened Parser
  import opened Collect

  const Name := "deprecated-actions"

  /** The `DEPRECATED` table: retired action to suggested replacement. */
  const Deprecated: map<string, string> := map[
    "actions/create-release" := "Use softprops/action-gh-release instead",
    "actions/upload-release-asset" := "Use softprops/action-gh-release instead",
    "actions-rs/toolchain" := "Use dtolnay/rust-toolchain instead"
  ]

  /** `uses.split('@')[0]` */
  function ActionOf(uses: string): string {
    Split(uses, '@')[0]
  }

  /** The action is the text before the first `@`, or all of `uses` when there is none. */
  lemma ActionBeforeFirstAt(uses: string, action: string)
    ensures ActionOf(uses) == action <==> IsHeadSegment(uses, '@', action)
  {
    SplitHead(uses, '@', action);
  }

  /**
   * Member names every plain JavaScript object inherits from
   * `Object.prototype`; indexing the table with one of them yields a truthy
   * function or object rather than `undefined`.
   */
  const ObjectPrototypeMembers: set<string> := {
    "constructor", "hasOwnProperty", "isPrototypeOf", "propertyIsEnumerable",
    "toString", "toLocaleString", "valueOf", "__proto__",
    "__defineGetter__", "__defineSetter__", "__lookupGetter__", "__lookupSetter__"
  }

  /** `if (DEPRECATED[action])` as written: inherited members are truthy too. */
  predicate FlaggedAsWritten(action: string) {
    action in Deprecated || action in ObjectPrototypeMembers
  }

  /** As written, `uses: constructor@v1` is reported although no table entry names it. */
  lemma PrototypeMemberFlaggedAsWritten()
    ensures FlaggedAsWritten("constructor") && "constructor" !in Deprecated
    ensures FixFor("constructor") == None
  {
  }

  /** The intended lookup: a replacement exactly for the table's own keys. */
  function FixFor(action: string): (r: Option<string>)
    ensures r.Some? <==> action in {"actions/create-release", "actions/upload-release-asset", "actions-rs/toolchain"}
    ensures r.Some? ==> r.value == Deprecated[action]
  {
    if action in Deprecated then Some(Deprecated[action]) else None
  }

  function Message(action: string): string {
    "Action \"" + action + "\" is deprecated"
  }

  /** The finding for one step with a truthy string `uses`. */
  function StepFinding(file: string, content: string, step: Value): (r: Option<Finding>)
    ensures r.Some? <==> UsesOf(step).Str? && ActionOf(UsesOf(step).s) in Deprecated
    ensures r.Some? ==>
      var uses := UsesOf(step).s;
      r.value == Finding(file, FindLineNumber(content, uses), Warning, Name,
                         Message(ActionOf(uses)), Some(Deprecated[ActionOf(uses)]))
  {
    match UsesOf(step)
    case Str(uses) =>
      var action := ActionOf(uses);
      (match FixFor(action)
       case Some(fix) => Some(Finding(file, FindLineNumber(content, uses), Warning, Name, Message(action), Some(fix)))
       case None => None)
    case _ => None
  }

  /** The loop over the steps: one finding per step using a retired action, in step order. */
  function CheckSteps(file: string, content: string, steps: seq<Value>): (r: seq<Finding>)
    ensures |r| <= |steps|
    ensures Attributed(r, file, Name) && Located(r, content)
    ensures forall k :: 0 <= k < |r| ==> r[k].severity == Warning && r[k].fix.Some?
    ensures forall f :: f in r ==>
      exists i :: 0 <= i < |steps| && StepFinding(file, content, steps[i]) == Some(f)
    ensures forall i :: (0 <= i < |steps| && UsesOf(steps[i]).Str?
                         && ActionOf(UsesOf(steps[i]).s) in Deprecated) ==>
      StepFinding(file, content, steps[i]).value in r
  {
    var judge := (step: Value) => StepFinding(file, content, step);
    FilterMapSound(steps, judge);
    FilterMapComplete(steps, judge);
    FilterMapAll(steps, judge, (f: Finding) =>
      f.file == file && f.rule == Name && f.severity == Warning && f.fix.Some? && 1 <= f.line <= |Lines(content)|);
    FilterMap(steps, judge)
  }

  /** Findings follow step order: the steps of a prefix are reported before the rest. */
  lemma FindingsFollowStepOrder(file: string, content: string, a: seq<Value>, b: seq<Value>)
    ensures CheckSteps(file, content, a + b) == CheckSteps(file, content, a) + CheckSteps(file, content, b)
  {
    FilterMapAppend(a, b, (step: Value) => StepFinding(file, content, step));
  }

  /** A single step yields exactly one finding when it uses a retired action and none otherwise. */
  lemma OneFindingPerStep(file: string, content: string, step: Value)
    ensures |CheckSteps(file, content, [step])| == if UsesOf(step).Str? && ActionOf(UsesOf(step).s) in Deprecated then 1 else 0
    ensures CheckSteps(file, content, [step]) != [] ==> CheckSteps(file, content, [step])[0] == StepFinding(file, content, step).value
  {
    FilterMapOne(step, (step: Value) => StepFinding(file, content, step));
  }

  /** `deprecatedActions.check`, with the intended table lookup. */
  function Check(file: string, content: string, doc: Value): (r: seq<Finding>)
    requires Shaped(doc)
    ensures !Truthy(Get(doc, "jobs")) ==> r == []
    ensures |r| <= |AllSteps(doc)|
    ensures Attributed(r, file, Name) && Located(r, content)
    ensures forall k :: 0 <= k < |r| ==> r[k].severity == Warning && r[k].fix.Some?
    ensures forall f :: f in r ==>
      exists i :: 0 <= i < |AllSteps(doc)| && StepFinding(file, content, AllSteps(doc)[i]) == Some(f)
    ensures forall i :: (0 <= i < |AllSteps(doc)| && UsesOf(AllSteps(doc)[i]).Str?
                         && ActionOf(UsesOf(AllSteps(doc)[i]).s) in Deprecated) ==>
      StepFinding(file, content, AllSteps(doc)[i]).value in r
  {
    CheckSteps(file, content, AllSteps(doc))
  }
}
