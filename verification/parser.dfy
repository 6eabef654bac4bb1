/**
 * The parse boundary and the position resolver. Deserialisation belongs to
 * js-yaml and is represented only by its type; `FindLineNumber` recovers an
 * approximate line for a finding by searching the raw text.
 */
module Parser {
  import opened Wrappers
  import opened Text
  import opened Document

  /** `yaml.load`: a document, or the message of the exception it throws. */
  type Deserializer = string -> Result<Value, string>

  /** `content.split('\n')` */
  function Lines(content: string): (lines: seq<string>)
    ensures |lines| >= 1
  {
    Split(content, '\n')
  }

  /** Index of the first line at or after `from` that contains `search`, or `|lines|`. */
  function FirstContaining(lines: seq<string>, search: string, from: nat): (i: nat)
    requires from <= |lines|
    ensures from <= i <= |lines|
    ensures i < |lines| ==> Contains(lines[i], search)
    ensures forall j :: from <= j < i ==> !Contains(lines[j], search)
    decreases |lines| - from
  {
    if from == |lines| then from
    else if Contains(lines[from], search) then from
    else FirstContaining(lines, search, from + 1)
  }

  /** `findLineNumber`: the 1-based number of the first line containing `search`, else 1. */
  function FindLineNumber(content: string, search: string): (n: nat)
    ensures 1 <= n <= |Lines(content)|
    ensures forall j :: 0 <= j < n - 1 ==> !Contains(Lines(content)[j], search)
    ensures (exists j :: 0 <= j < |Lines(content)| && Contains(Lines(content)[j], search))
              ==> Contains(Lines(content)[n - 1], search)
    ensures (forall j :: 0 <= j < |Lines(content)| ==> !Contains(Lines(content)[j], search))
              ==> n == 1
  {
    var lines := Lines(content);
    var i := FirstContaining(lines, search, 0);
    if i < |lines| then i + 1 else 1
  }

  /** The empty string is found on the first line. */
  lemma EmptySearchIsLineOne(content: string)
    ensures FindLineNumber(content, "") == 1
  {
    EmptyIsEverywhere(Lines(content)[0]);
  }
}
