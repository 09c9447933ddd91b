/** Failure-carrying values shared by the modules of the model. */
module Wrappers {

  datatype Option<+T> = None | Some(value: T)

  datatype Result<+T, +E> = Ok(value: T) | Err(error: E)

  /** The ways one pass of `finance()` can end without a result list. */
  datatype FinanceError =
    | StatusNotOk                     // the finance response's status is not 1
    | MissingTrend                    // a listed coin has no trend record (`trend["yprice"]` throws)
    | ZeroYesterdayPrice(coin: string) // a kept coin's today's rate divides by a zero yesterday price
    | NoPosition(coin: string)         // the coin's average cost would divide by a zero net quantity

  /** No element occurs twice. */
  predicate Distinct<T(==)>(s: seq<T>)
  {
    forall i, j :: 0 <= i < j < |s| ==> s[i] != s[j]
  }
}
