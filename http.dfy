/**
 * The shapes the services see from the network. A call made through the rate
 * limiter settles either with a `Response` or with a thrown value; a response
 * carries its status and a body that `response.json()` either parses or
 * rejects.
 */
module Http {

  datatype Option<+T> = None | Some(value: T)

  /**
   * A value thrown by a network action: an HTTP `Response` thrown as such
   * (only its status matters), or any other error.
   */
  datatype Failure = ThrownResponse(status: int) | OtherError(message: string)

  /**
   * How an awaited call settled: with a value, or with a thrown value.
   * `Raised(None)` is `throw undefined`, what `retry` does when it is given no
   * attempts at all.
   */
  datatype Settled<+T> = Returned(value: T) | Raised(error: Option<Failure>)

  /** The body of a response, as `response.json()` sees it. */
  datatype Body<+B> = Json(value: B) | NotJson

  /**
   * A fetch `Response`. Its `ok` flag is not stored: the Fetch standard
   * defines it as a status in the range 200 to 299.
   */
  datatype Response<+B> = Response(status: int, body: Body<B>)
  {
    predicate Ok() { 200 <= status <= 299 }
  }

  /** What `callApi(() => session.get(url))` or `callApi(() => session.post(...))` settles with. */
  type Reply<B> = Settled<Response<B>>
}
