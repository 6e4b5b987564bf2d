/** Shapes shared by every service: optional values, the `{ ok, error? }`
    result objects, and the first-match lookup that both `Array.prototype.find`
    and a repository `findOne` by column perform. */
module Common {

  datatype Option<+T> = None | Some(value: T)

  /** `Ok(v)` is a `{ ok: true, ...v }` answer, `Fail(e)` is `{ ok: false, error: e }`. */
  datatype Output<+T> = Ok(value: T) | Fail(error: string)

  /** Index of the first element of `s` that satisfies `p`. */
  function Find<T>(s: seq<T>, p: T -> bool): (r: Option<nat>)
    ensures r.Some? ==> r.value < |s| && p(s[r.value])
    ensures r.Some? ==> forall j :: 0 <= j < r.value ==> !p(s[j])
    ensures r.None? ==> forall j :: 0 <= j < |s| ==> !p(s[j])
  {
    if s == [] then None
    else if p(s[0]) then Some(0)
    else match Find(s[1..], p)
      case None => None
      case Some(k) => Some(k + 1)
  }
}
