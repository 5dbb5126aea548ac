/**
 * What a handler sends back. `Fail` is a status with a `{ message }` body, whether the
 * handler wrote it (`res.status(s).json(...)`) or threw an error carrying the status
 * (`err.statusCode = s`, or `res.status(s)` before `throw`). `Thrown` is an error that
 * carries no status of its own (a library error, a failed precondition).
 */
module Http {
  import opened Wrappers

  datatype Reply<T> =
    | Ok(status: int, body: T)
    | Fail(status: int, message: string)
    | Thrown(message: string)

  /** A `Set-Cookie` the handler writes. `expires` is epoch milliseconds when given. */
  datatype Cookie = Cookie(
    name: string,
    value: string,
    httpOnly: bool,
    secure: bool,
    sameSite: string,
    expires: Option<int>)
}
