/** `missing-permissions`: neither the workflow nor every job restricts the token permissions. */
module MissingPermissions {
  import opened Wrappers
  import opened Document
  import opened Findings

  const Name := "missing-permissions"
  const Message := "Workflow has no explicit permissions block \U{2014} defaults to broad read/write access"
  const Fix := "Add top-level `permissions: {}` (least privilege) or specify needed permissions"

  /** `Object.values(parsed.jobs).every(j => j?.permissions)` */
  predicate EveryJobHasPermissions(doc: Value) {
    forall k :: 0 <= k < |Jobs(doc)| ==> Truthy(Get(Jobs(doc)[k].1, "permissions"))
  }

  /** `missingPermissions.check` */
  function Check(file: string, content: string, doc: Value): (r: seq<Finding>)
    ensures |r| <= 1
    ensures !Truthy(Get(doc, "jobs")) ==> r == []
    ensures Truthy(Get(doc, "permissions")) ==> r == []
    ensures |r| == 1 <==>
      && Truthy(Get(doc, "jobs"))
      && !Truthy(Get(doc, "permissions"))
      && exists k :: 0 <= k < |Jobs(doc)| && !Truthy(Get(Jobs(doc)[k].1, "permissions"))
    ensures |r| == 1 ==> r[0] == Finding(file, 1, Warning, Name, Message, Some(Fix))
  {
    if !Truthy(Get(doc, "jobs")) then []
    else if Truthy(Get(doc, "permissions")) then []
    else if EveryJobHasPermissions(doc) then []
    else [Finding(file, 1, Warning, Name, Message, Some(Fix))]
  }

  /** `permissions: {}` at the top counts as present, since an empty mapping is truthy. */
  lemma EmptyPermissionsBlockSatisfies(file: string, content: string, doc: Value)
    requires Get(doc, "permissions") == Map([])
    ensures Check(file, content, doc) == []
  {
  }

  /** An empty `jobs` mapping is truthy, and every one of its (no) jobs declares permissions. */
  lemma EmptyJobsMapHasNoFinding(file: string, content: string, doc: Value)
    requires Get(doc, "jobs") == Map([])
    ensures Check(file, content, doc) == []
  {
  }
}
