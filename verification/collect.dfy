/** Sequence combinators the evaluator and the structural checks are built from. */
module Collect {
  import opened Wrappers

  /**
   * Keeps the `Some` results of `f` over `s`, in order: the shape of a
   * loop that pushes at most one result per element.
   */
  function FilterMap<T, U>(s: seq<T>, f: T -> Option<U>): (r: seq<U>)
    ensures |r| <= |s|
  {
    if |s| == 0 then []
    else
      var rest := FilterMap(s[1..], f);
      match f(s[0])
      case Some(u) => [u] + rest
      case None => rest
  }

  /** Every kept result is the result of some element. */
  lemma {:induction false} FilterMapSound<T, U>(s: seq<T>, f: T -> Option<U>)
    ensures forall u :: u in FilterMap(s, f) ==> exists i :: 0 <= i < |s| && f(s[i]) == Some(u)
    decreases |s|
  {
    if |s| > 0 {
      FilterMapSound(s[1..], f);
      forall u | u in FilterMap(s, f)
        ensures exists i :: 0 <= i < |s| && f(s[i]) == Some(u)
      {
        if f(s[0]) != Some(u) {
          assert u in FilterMap(s[1..], f);
          var i :| 0 <= i < |s[1..]| && f(s[1..][i]) == Some(u);
          assert s[1..][i] == s[i + 1];
        }
      }
    }
  }

  /** Every element with a result has that result kept. */
  lemma {:induction false} FilterMapComplete<T, U>(s: seq<T>, f: T -> Option<U>)
    ensures forall i :: 0 <= i < |s| && f(s[i]).Some? ==> f(s[i]).value in FilterMap(s, f)
    decreases |s|
  {
    if |s| > 0 {
      FilterMapComplete(s[1..], f);
      forall i | 0 <= i < |s| && f(s[i]).Some?
        ensures f(s[i]).value in FilterMap(s, f)
      {
        if i > 0 {
          assert s[1..][i - 1] == s[i];
        }
      }
    }
  }

  /** A property of every result of `f` holds of every kept result. */
  lemma FilterMapAll<T, U>(s: seq<T>, f: T -> Option<U>, p: U -> bool)
    requires forall i :: 0 <= i < |s| && f(s[i]).Some? ==> p(f(s[i]).value)
    ensures forall k :: 0 <= k < |FilterMap(s, f)| ==> p(FilterMap(s, f)[k])
  {
    FilterMapSound(s, f);
    forall k | 0 <= k < |FilterMap(s, f)| ensures p(FilterMap(s, f)[k]) {
      assert FilterMap(s, f)[k] in FilterMap(s, f);
    }
  }

  /** Nothing is kept when no element has a result. */
  lemma {:induction false} FilterMapNone<T, U>(s: seq<T>, f: T -> Option<U>)
    requires forall i :: 0 <= i < |s| ==> f(s[i]).None?
    ensures FilterMap(s, f) == []
    decreases |s|
  {
    if |s| > 0 {
      assert forall i :: 0 <= i < |s[1..]| ==> s[1..][i] == s[i + 1];
      FilterMapNone(s[1..], f);
    }
  }

  /** Results of consecutive parts of the input are consecutive in the output. */
  lemma {:induction false} FilterMapAppend<T, U>(a: seq<T>, b: seq<T>, f: T -> Option<U>)
    ensures FilterMap(a + b, f) == FilterMap(a, f) + FilterMap(b, f)
    decreases |a|
  {
    if |a| > 0 {
      assert (a + b)[1..] == a[1..] + b;
      assert (a + b)[0] == a[0];
      FilterMapAppend(a[1..], b, f);
    } else {
      assert a + b == b;
    }
  }

  /** One element contributes its result, if it has one, and nothing else. */
  lemma FilterMapOne<T, U>(x: T, f: T -> Option<U>)
    ensures FilterMap([x], f) == if f(x).Some? then [f(x).value] else []
  {
    assert [x][1..] == [];
  }

  /** Concatenation of a sequence of sequences. */
  function Flatten<T>(ss: seq<seq<T>>): seq<T>
  {
    if |ss| == 0 then [] else ss[0] + Flatten(ss[1..])
  }

  lemma {:induction false} FlattenAppend<T>(a: seq<seq<T>>, b: seq<seq<T>>)
    ensures Flatten(a + b) == Flatten(a) + Flatten(b)
    decreases |a|
  {
    if |a| > 0 {
      assert (a + b)[1..] == a[1..] + b;
      assert (a + b)[0] == a[0];
      FlattenAppend(a[1..], b);
    } else {
      assert a + b == b;
    }
  }

  /** A property every element of every part has, every element of the concatenation has. */
  lemma {:induction false} FlattenAll<T>(ss: seq<seq<T>>, p: T -> bool)
    requires forall i, k :: 0 <= i < |ss| && 0 <= k < |ss[i]| ==> p(ss[i][k])
    ensures forall k :: 0 <= k < |Flatten(ss)| ==> p(Flatten(ss)[k])
    decreases |ss|
  {
    if |ss| > 0 {
      FlattenAll(ss[1..], p);
      forall k | 0 <= k < |Flatten(ss)| ensures p(Flatten(ss)[k]) {
        if k >= |ss[0]| {
          assert Flatten(ss)[k] == Flatten(ss[1..])[k - |ss[0]|];
        }
      }
    }
  }
}
