/** Optional values, results, and the outcome of one call to the REST API.
    The HTTP client itself is not modelled: every awaited request is replaced
    by an `ApiResult` argument saying how the server answered. */
module Outcomes {

  /** A value that may be absent (`null` or `undefined` in the client). */
  datatype Option<+T> = None | Some(value: T) {
    function GetOr(default: T): T
    {
      match this
      case Some(v) => v
      case None => default
    }
  }

  /** Either a value or an error, for operations that can throw. */
  datatype Result<+T, +E> = Success(value: T) | Failure(error: E)

  /** How the server answered one request: its payload, or a rejection that
      may carry a `message` in the response body. */
  datatype ApiResult<+T> = Ok(data: T) | Fail(message: Option<string>)

  /** A request whose payload the caller ignores. */
  type Ack = ApiResult<()>

  /** The error text a handler shows: `err.response?.data?.message || fallback`.
      An empty message is falsy, so it also falls back. */
  function ErrorText<T>(r: ApiResult<T>, fallback: string): string
    requires r.Fail?
  {
    if r.message.Some? && r.message.value != "" then r.message.value else fallback
  }
}
