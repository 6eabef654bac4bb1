/** `missing-timeout`: one warning per job without a truthy `timeout-minutes`. */
module MissingTimeout {
  import opened Wrappers
  import opened Document
  import opened Findings
  import opened Parser
  import opened Collect

  const Name := "missing-timeout"
  const Fix := "Add `timeout-minutes: 30` (or appropriate limit) to the job"

  function Message(job: string): string {
    "Job \"" + job + "\" has no timeout-minutes \U{2014} could run indefinitely"
  }

  /** `!job?.['timeout-minutes']`: absent, `0`, `""`, `false` and `null` all count as missing. */
  predicate LacksTimeout(job: Value) {
    !Truthy(Get(job, "timeout-minutes"))
  }

  /** The finding for the job `name: job`, located at the first line containing `name:`. */
  function JobFinding(file: string, content: string, job: (string, Value)): (r: Option<Finding>)
    ensures r.Some? <==> LacksTimeout(job.1)
    ensures r.Some? ==> r.value == Finding(file, FindLineNumber(content, job.0 + ":"), Warning, Name,
                                           Message(job.0), Some(Fix))
  {
    if LacksTimeout(job.1) then
      Some(Finding(file, FindLineNumber(content, job.0 + ":"), Warning, Name, Message(job.0), Some(Fix)))
    else None
  }

  /** The loop over `Object.entries(parsed.jobs)`. */
  function CheckJobs(file: string, content: string, jobs: seq<(string, Value)>): (r: seq<Finding>)
    ensures |r| <= |jobs|
    ensures Attributed(r, file, Name) && Located(r, content)
    ensures forall k :: 0 <= k < |r| ==> r[k].severity == Warning
    ensures forall f :: f in r ==>
      exists i :: 0 <= i < |jobs| && LacksTimeout(jobs[i].1)
                  && f.line == FindLineNumber(content, jobs[i].0 + ":") && f.message == Message(jobs[i].0)
    ensures forall i :: 0 <= i < |jobs| && LacksTimeout(jobs[i].1) ==>
      Finding(file, FindLineNumber(content, jobs[i].0 + ":"), Warning, Name, Message(jobs[i].0), Some(Fix)) in r
  {
    var judge := (job: (string, Value)) => JobFinding(file, content, job);
    FilterMapSound(jobs, judge);
    FilterMapComplete(jobs, judge);
    FilterMapAll(jobs, judge, (f: Finding) =>
      f.file == file && f.rule == Name && f.severity == Warning && 1 <= f.line <= |Lines(content)|);
    FilterMap(jobs, judge)
  }

  /** Findings follow job order: the jobs of a prefix are reported before the rest. */
  lemma FindingsFollowJobOrder(file: string, content: string, a: seq<(string, Value)>, b: seq<(string, Value)>)
    ensures CheckJobs(file, content, a + b) == CheckJobs(file, content, a) + CheckJobs(file, content, b)
  {
    FilterMapAppend(a, b, (job: (string, Value)) => JobFinding(file, content, job));
  }

  /** `missingTimeout.check` */
  function Check(file: string, content: string, doc: Value): (r: seq<Finding>)
    ensures !Truthy(Get(doc, "jobs")) ==> r == []
    ensures |r| <= |Jobs(doc)|
    ensures Attributed(r, file, Name) && Located(r, content)
  {
    CheckJobs(file, content, Jobs(doc))
  }

  /** A job with `timeout-minutes: 30` is not reported; one with `timeout-minutes: 0` is. */
  lemma TimeoutExamples(file: string, content: string, name: string)
    ensures JobFinding(file, content, (name, Map([("timeout-minutes", Int(30))]))) == None
    ensures JobFinding(file, content, (name, Map([("timeout-minutes", Int(0))]))).Some?
    ensures JobFinding(file, content, (name, Map([]))).Some?
  {
  }
}
