/**
 * The deserialised workflow document. js-yaml yields plain JavaScript data;
 * `Value` mirrors it, and the functions here are the JavaScript operations
 * the checks apply to it: truthiness, optional property access `v?.[key]`,
 * `Object.entries`, and the step iteration `job?.steps ?? []`.
 */
module Document {
  import opened Text

  /** `Null` stands for both `null` and `undefined`: no check tells them apart. */
  datatype Value =
    | Null
    | Bool(b: bool)
    | Int(n: int)
    | Str(s: string)
    | List(items: seq<Value>)
    | Map(entries: seq<(string, Value)>)

  /** JavaScript truthiness: `0`, `""`, `false` and `null` are falsy; `{}` and `[]` are not. */
  predicate Truthy(v: Value) {
    match v
    case Null => false
    case Bool(b) => b
    case Int(n) => n != 0
    case Str(s) => s != ""
    case List(_) => true
    case Map(_) => true
  }

  /** Value of the first entry named `key`, or `Null` when there is none. */
  function Lookup(entries: seq<(string, Value)>, key: string): (r: Value)
    ensures (forall k :: 0 <= k < |entries| ==> entries[k].0 != key) ==> r == Null
    ensures forall k :: (0 <= k < |entries| && entries[k].0 == key
                         && forall j :: 0 <= j < k ==> entries[j].0 != key) ==> r == entries[k].1
  {
    if |entries| == 0 then Null
    else if entries[0].0 == key then entries[0].1
    else Lookup(entries[1..], key)
  }

  /**
   * `v?.[key]`: scalars, arrays and `null` have none of the property names
   * a check asks for, so only a mapping can answer.
   */
  function Get(v: Value, key: string): Value {
    if v.Map? then Lookup(v.entries, key) else Null
  }

  /** `Object.entries(v)` for a value known to be truthy. */
  function Entries(v: Value): seq<(string, Value)> {
    match v
    case Map(es) => es
    case List(items) => seq(|items|, k requires 0 <= k < |items| => (NatToString(k), items[k]))
    case Str(s) => seq(|s|, k requires 0 <= k < |s| => (NatToString(k), Str([s[k]])))
    case _ => []
  }

  /** `parsed.jobs`, as the `[name, job]` pairs the checks iterate; empty unless truthy. */
  function Jobs(doc: Value): seq<(string, Value)> {
    var jobs := Get(doc, "jobs");
    if Truthy(jobs) then Entries(jobs) else []
  }

  /**
   * `for (const step of job?.steps ?? [])` does not throw: the steps are
   * absent, a string, or an array without `null` entries (reading
   * `step.uses` of a `null` step throws).
   */
  predicate StepsIterable(job: Value) {
    match Get(job, "steps")
    case Null => true
    case Str(_) => true
    case List(items) => forall k :: 0 <= k < |items| ==> !items[k].Null?
    case _ => false
  }

  /** The values `for … of (job?.steps ?? [])` visits; a string yields its characters. */
  function StepsOf(job: Value): (r: seq<Value>)
    requires StepsIterable(job)
    ensures forall k :: 0 <= k < |r| ==> !r[k].Null?
  {
    match Get(job, "steps")
    case Null => []
    case Str(s) => seq(|s|, k requires 0 <= k < |s| => Str([s[k]]))
    case List(items) => items
  }

  predicate JobsIterable(jobs: seq<(string, Value)>) {
    forall k :: 0 <= k < |jobs| ==> StepsIterable(jobs[k].1)
  }

  /** Every step of every job, in job order then step order. */
  function StepsOfJobs(jobs: seq<(string, Value)>): seq<Value>
    requires JobsIterable(jobs)
  {
    if |jobs| == 0 then [] else StepsOf(jobs[0].1) + StepsOfJobs(jobs[1..])
  }

  /** The steps of consecutive runs of jobs are consecutive: job order is step order. */
  lemma {:induction false} StepsOfJobsAppend(a: seq<(string, Value)>, b: seq<(string, Value)>)
    requires JobsIterable(a) && JobsIterable(b)
    ensures JobsIterable(a + b)
    ensures StepsOfJobs(a + b) == StepsOfJobs(a) + StepsOfJobs(b)
    decreases |a|
  {
    assert forall k :: 0 <= k < |a + b| ==> (a + b)[k] == if k < |a| then a[k] else b[k - |a|];
    if |a| > 0 {
      assert (a + b)[1..] == a[1..] + b;
      assert JobsIterable(a[1..]) by {
        forall k | 0 <= k < |a[1..]| ensures StepsIterable(a[1..][k].1) {
          assert a[1..][k] == a[k + 1];
        }
      }
      StepsOfJobsAppend(a[1..], b);
    } else {
      assert a + b == b;
    }
  }

  function AllSteps(doc: Value): seq<Value>
    requires JobsIterable(Jobs(doc))
  {
    StepsOfJobs(Jobs(doc))
  }

  /** A step's `uses`, when it is truthy. */
  function UsesOf(step: Value): Value {
    var u := Get(step, "uses");
    if Truthy(u) then u else Null
  }

  /**
   * The shapes on which every check runs without throwing: iterable steps,
   * and a truthy `uses` is a string (`startsWith` and `split` are called on it).
   */
  predicate Shaped(doc: Value) {
    && JobsIterable(Jobs(doc))
    && forall k :: 0 <= k < |AllSteps(doc)| ==> UsesOf(AllSteps(doc)[k]).Null? || UsesOf(AllSteps(doc)[k]).Str?
  }
}
