/** Option and result types shared by every handler, and JavaScript's `||` on request-body values. */
module Wrappers {

  datatype Option<T> = None | Some(value: T)

  /** How a handler can end without success. */
  datatype Error =
    | BadRequest    // res.status(400)
    | Unauthorized  // res.status(401)
    | Forbidden     // res.status(403)
    | NotFound      // res.status(404)
    | Thrown        // an exception the handler does not catch (a null dereference, a failed
                    // schema validation); the error middleware chooses the status

  datatype Result<T> = Ok(value: T) | Fail(error: Error)

  /** A request-body string is truthy when it is present and not empty. */
  predicate Truthy(v: Option<string>) {
    v.Some? && v.value != ""
  }

  /** `v || current`: the supplied value when it is truthy, the current one otherwise. */
  function OrElse(v: Option<string>, current: string): string {
    if Truthy(v) then v.value else current
  }

  /** `v || current` for an enumerated body value; an absent or empty value keeps `current`. */
  function OrKeep<T>(v: Option<T>, current: T): T {
    if v.Some? then v.value else current
  }
}
