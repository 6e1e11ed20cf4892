/** Optional values and backend replies, shared by every module of the model. */
module Wrappers {

  /** A value that may be absent (`null` or `undefined` on the JavaScript side). */
  datatype Option<T> = None | Some(value: T) {
    function GetOr(default: T): T {
      match this
      case Some(v) => v
      case None => default
    }
  }

  /** What a failed call carries: `error.response?.data?.message` and `error.message`. */
  datatype ApiError = ApiError(responseMessage: Option<string>, message: Option<string>)

  /** The outcome of one backend call, supplied to the model as an input. */
  datatype Reply<T> = Ok(value: T) | Failed(error: ApiError)

  /** JavaScript's `a || b` on an optional string: the empty string counts as missing. */
  function TextOr(a: Option<string>, b: string): (r: string)
    ensures r == b || (a.Some? && r == a.value && r != "")
  {
    if a.Some? && a.value != "" then a.value else b
  }
}
