/** The response error handler's classification: a response is an error
    exactly when its status code is in the client-error (4xx) series. */
module ResponseErrors {

  /** The series number of client errors. */
  const ClientErrorSeries: int := 4

  /** The series of a status code: the code divided by 100 with Java's `/`,
      which rounds toward zero. */
  function StatusSeries(status: int): (series: int)
    ensures status >= 0 ==> 100 * series <= status < 100 * series + 100
    ensures status < 0 ==> 100 * series - 100 < status <= 100 * series
  {
    if status >= 0 then status / 100 else -((-status) / 100)
  }

  /** `hasError`: the response's status is a client error, that is, one of
      400 to 499. */
  predicate HasError(status: int)
    ensures HasError(status) <==> 400 <= status <= 499
  {
    StatusSeries(status) == ClientErrorSeries
  }
}
