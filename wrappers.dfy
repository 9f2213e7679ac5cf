/** Optional values and outcomes shared by every module of the model. */
module Wrappers {

  /** A JavaScript value that may be `undefined`/`null` (None) or present (Some). */
  datatype Option<+T> = None | Some(value: T) {
    function GetOr(default: T): T {
      match this
      case Some(v) => v
      case None => default
    }
  }

  /** The outcome of a JavaScript call that either returns a value or throws. */
  datatype Result<+T> = Ok(value: T) | Throws(reason: string)

  /**
   * `s.map((x, i) => f(i, x))` with a callback that may throw: every mapped value, or the
   * exception of the first index whose callback throws.
   */
  function MapIndexed<A, B>(s: seq<A>, f: (nat, A) -> Result<B>): (r: Result<seq<B>>)
    ensures r.Ok? <==> forall i :: 0 <= i < |s| ==> f(i, s[i]).Ok?
    ensures r.Ok? ==> |r.value| == |s| && forall i :: 0 <= i < |s| ==> f(i, s[i]) == Ok(r.value[i])
    ensures r.Throws? ==>
      exists i :: 0 <= i < |s| && f(i, s[i]) == Throws(r.reason) && (forall j :: 0 <= j < i ==> f(j, s[j]).Ok?)
  {
    if s == [] then Ok([])
    else
      var n := |s| - 1;
      var init := s[..n];
      assert forall i :: 0 <= i < n ==> init[i] == s[i];
      match MapIndexed(init, f)
      case Throws(e) => Throws(e)
      case Ok(done) =>
        match f(n, s[n])
        case Throws(e) => Throws(e)
        case Ok(b) => Ok(done + [b])
  }
}
