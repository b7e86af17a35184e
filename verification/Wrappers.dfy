/** Optional values, results that carry an error, and facts about sequences, as used by the other modules. */
module Wrappers {
  datatype Option<+T> = None | Some(value: T)

  datatype Result<+T, +E> = Ok(value: T) | Err(error: E)

  /** Python's truth value of an optional list or string. */
  predicate Given<T(==)>(x: Option<seq<T>>) {
    x.Some? && x.value != []
  }

  ghost predicate Distinct<T>(s: seq<T>) {
    forall i, j :: 0 <= i < j < |s| ==> s[i] != s[j]
  }

  lemma SameIndex<T>(s: seq<T>, i: nat, j: nat)
    requires Distinct(s) && i < |s| && j < |s| && s[i] == s[j]
    ensures i == j
  {
  }

  /** `prefix` followed by the rest, if there is a rest. */
  function Extend<T>(prefix: seq<T>, rest: Option<seq<T>>): (r: Option<seq<T>>)
    ensures prefix == [] ==> r == rest
    ensures rest == Some([]) ==> r == Some(prefix)
  {
    match rest
    case None => None
    case Some(tail) =>
      assert prefix == [] ==> prefix + tail == tail;
      assert tail == [] ==> prefix + tail == prefix;
      Some(prefix + tail)
  }

  lemma ExtendTwice<T>(a: seq<T>, b: seq<T>, rest: Option<seq<T>>)
    ensures Extend(a, Extend(b, rest)) == Extend(a + b, rest)
  {
    if rest.Some? {
      assert a + (b + rest.value) == a + b + rest.value;
    }
  }
}
