/** Values the handlers hand back to the web framework, and the optional value. */
module Outcomes {

  datatype Option<+T> = None | Some(value: T) {
    function GetOr(default: T): T {
      match this
      case Some(v) => v
      case None => default
    }
  }

  const BadRequest: int := 400
  const Unauthorized: int := 401
  const NotFound: int := 404
  const Unprocessable: int := 422

  /** The outcome of a handler, as the client sees it. */
  datatype Reply<+T> =
      /** a success carrying the handler's value: usually `{"status": "ok", "data": ...}`, but
          the shape varies (the profile upload answers `"filename"`, the product delete
          `{"status": "ok"}` alone, and the product-image upload no body at all) */
    | Ok(data: T)
      /** `{"status": "error"}` (with a detail when one is given), returned with HTTP 200 */
    | StatusError(detail: Option<string>)
      /** an `HTTPException` raised by the handler itself */
    | Raise(status: int, message: string)
      /** an ORM exception turned into a response by the handlers the ORM registers on the
          application: a missing row gives 404, a uniqueness violation gives 422 */
    | StoreError(status: int)
      /** any other exception: the framework answers 500 */
    | Crash
  {
    /** The same failure, as the reply of a handler with another success type. */
    function Forward<U>(): Reply<U>
      requires !Ok?
    {
      match this
      case StatusError(d) => StatusError(d)
      case Raise(s, m) => Raise(s, m)
      case StoreError(s) => StoreError(s)
      case Crash => Crash
    }
  }
}
