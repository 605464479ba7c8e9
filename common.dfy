/** Stock wrappers shared by every module of the model. */
module Common {
  /** A value that may be absent: `undefined` in the source's own terms. */
  datatype Option<T> = None | Some(value: T)

  /** The outcome of an operation that may throw; `error` is the thrown message. */
  datatype Result<T> = Ok(value: T) | Err(error: string)

  /** The message a JavaScript engine raises when a property of `undefined` or `null` is read. */
  const TypeErrorMessage: string := "TypeError"

  /** The index of `s.find(p)` / `s.findIndex(p)`: the first element satisfying `p`. */
  function FindFirst<T>(s: seq<T>, p: T -> bool): (r: Option<nat>)
    ensures r.Some? ==> r.value < |s| && p(s[r.value])
    ensures r.Some? ==> forall i :: 0 <= i < r.value ==> !p(s[i])
    ensures r.None? ==> forall i :: 0 <= i < |s| ==> !p(s[i])
  {
    if s == [] then None
    else if p(s[0]) then Some(0)
    else
      var rest := FindFirst(s[1..], p);
      assert forall i :: 1 <= i < |s| ==> s[i] == s[1..][i - 1];
      if rest.Some? then Some(rest.value + 1) else None
  }

  /** Concatenation regroups; stated generically so that no element function is unfolded. */
  lemma AppendAssoc<T>(a: seq<T>, b: seq<T>, c: seq<T>)
    ensures (a + b) + c == a + (b + c)
  {
  }

  lemma AppendEmpty<T>(a: seq<T>)
    ensures a + [] == a && [] + a == a
  {
  }
}
