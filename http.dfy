/** Values exchanged with the Fetch API: responses and the outcome of one `fetch` call. */
module Http {

  datatype Option<T> = None | Some(value: T)

  /** An HTTP response, taken as an immutable value (status code and body text).
      `response.clone()` on such a value is the identity. */
  datatype Response = Response(status: int, body: string)

  /** `response.ok`: the status lies in the range 200-299. */
  predicate IsOk(r: Response)
  {
    200 <= r.status <= 299
  }

  /** A partial-content response (status 206), which the Cache API refuses to store. */
  predicate IsPartial(r: Response)
  {
    r.status == 206
  }

  /** What one call to `fetch` settles to: a response of any status, or a rejection
      (a network error, which is not an HTTP status). */
  datatype Fetched = Received(response: Response) | NetworkError

  /** The first fetch came back with status exactly 404 (the source tests `=== 404`). */
  predicate IsNotFound(f: Fetched)
  {
    f.Received? && f.response.status == 404
  }
}
