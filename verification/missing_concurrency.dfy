/** `missing-concurrency`: an advisory finding when the workflow sets no concurrency group. */
module MissingConcurrency {
  import opened Wrappers
  import opened Document
  import opened Findings

  const Name := "missing-concurrency"
  const Message := "No concurrency group \U{2014} duplicate workflow runs won't be cancelled"
  const Fix := "Add `concurrency: { group: \"${{ github.workflow }}-${{ github.ref }}\", cancel-in-progress: true }`"

  /** `missingConcurrency.check` */
  function Check(file: string, content: string, doc: Value): (r: seq<Finding>)
    ensures |r| <= 1
    ensures |r| == 1 <==> Truthy(doc) && !Truthy(Get(doc, "concurrency"))
    ensures |r| == 1 ==> r[0] == Finding(file, 1, Info, Name, Message, Some(Fix))
  {
    if !Truthy(doc) then []
    else if Truthy(Get(doc, "concurrency")) then []
    else [Finding(file, 1, Info, Name, Message, Some(Fix))]
  }

  /**
   * A document that loads as a non-empty string (a file holding one plain
   * scalar) is truthy but has no `concurrency`, so it is reported.
   */
  lemma ScalarDocumentGetsFinding(file: string, content: string, text: string)
    requires text != ""
    ensures |Check(file, content, Str(text))| == 1
  {
  }

  /** The verdict ignores `jobs`: replacing it changes nothing. */
  lemma IndependentOfJobs(file: string, content: string, entries: seq<(string, Value)>, jobs: Value)
    requires forall k :: 0 <= k < |entries| ==> entries[k].0 != "jobs"
    ensures Check(file, content, Map(entries)) == Check(file, content, Map(entries + [("jobs", jobs)]))
  {
    assert Get(Map(entries), "concurrency") == Get(Map(entries + [("jobs", jobs)]), "concurrency")
      by { LookupAppendOther(entries, "jobs", jobs, "concurrency"); }
  }

  /** Appending an entry under another key does not change a lookup. */
  lemma {:induction false} LookupAppendOther(entries: seq<(string, Value)>, key: string, v: Value, other: string)
    requires key != other
    ensures Lookup(entries + [(key, v)], other) == Lookup(entries, other)
    decreases |entries|
  {
    if |entries| > 0 {
      assert (entries + [(key, v)])[1..] == entries[1..] + [(key, v)];
      LookupAppendOther(entries[1..], key, v, other);
    }
  }
}
