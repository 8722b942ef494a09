/**
 * The outcome of one `requests.get`: either the call raised a
 * `RequestException` before any response arrived, or a response with a
 * status code and a body (already turned into structured content by the
 * HTML extractor, which is not part of this model).
 */
module Http {

  datatype Response<+T> = RequestFailed | Received(status: int, body: T)

  /** The status codes for which `Response.raise_for_status` raises an `HTTPError`. */
  predicate RaisesForStatus(status: int)
  {
    400 <= status < 600
  }

  /** HTTP 429 Too Many Requests, tested before `raise_for_status` is called. */
  const TooManyRequests: int := 429
}
