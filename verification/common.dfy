/** Small shared vocabulary: optional values, results, JavaScript truthiness of
    optional strings, and first-match search over sequences. */
module Common {

  /** A value that may be absent: `undefined`/`null` in the JavaScript source. */
  datatype Option<+T> = None | Some(value: T)

  /** Either a returned value or a thrown error message. */
  datatype Result<+T> = Success(value: T) | Failure(error: string)

  /** `!!v` for a value that is either absent or a string: only a non-empty
      string is truthy. */
  predicate Truthy(v: Option<string>) {
    v.Some? && v.value != ""
  }

  /** Position of the first element satisfying `p`, if there is one. */
  function FirstIndex<T>(s: seq<T>, p: T -> bool): (r: Option<nat>)
    ensures r.None? <==> forall i :: 0 <= i < |s| ==> !p(s[i])
    ensures r.Some? ==> r.value < |s| && p(s[r.value])
    ensures r.Some? ==> forall i :: 0 <= i < r.value ==> !p(s[i])
  {
    if |s| == 0 then None
    else if p(s[0]) then Some(0)
    else
      match FirstIndex(s[1..], p)
      case None => None
      case Some(k) => Some(k + 1)
  }
}
