/** The errors the core produces. Each Go `fmt.Errorf` wrapping layer is one
    constructor, so a wrapped error keeps its cause. */
module Errors {

  datatype Error =
      /** "an error occured while reading the CSV, error: ..." (csvsource.go) */
    | CsvReadFailed(message: string)
      /** "failed to unmarshal CSV: ..." (coingecko.go) */
    | CurrencyCsvInvalid(message: string)
      /** "currency symbol not supported: <symbol>" (agg.go) */
    | CurrencyNotSupported(symbol: string)
      /** "unable to aggregate transactions: ..." (agg.go, the reducer) */
    | UnableToAggregate(cause: Error)
      /** "failed to aggregate batch: ..." (aggpipeline.go, DoAggBatch) */
    | AggregateBatchFailed(cause: Error)
      /** "failed to read currency values: ..." (aggpipeline.go, DoAgg) */
    | ReadCurrencyValuesFailed(cause: Error)
      /** "failed to reduce aggregated transactions: ..." (aggpipeline.go, DoAgg) */
    | ReduceFailed(cause: Error)
      /** "failed to write aggregated transactions: ..." (aggpipeline.go, DoAgg) */
    | WriteAggFailed(message: string)
      /** "URI must start with 'bq://'" (bq.go) */
    | UriMissingScheme
      /** "URI must have the format 'bq://projectid/datasetid/tableid'" (bq.go) */
    | UriBadFormat
}
