/** pkg/pipeline/aggpipeline.go and the per-batch loop of a worker
    (pkg/worker/parallel.go), run sequentially: read the currency table,
    chunk the records, clean and aggregate every batch, reduce the partial
    aggregates, write the result. */
module AggPipeline {
  import opened Wrappers
  import opened Errors
  import opened Channels
  import CsvSource
  import Extract
  import CoinGecko
  import opened Aggregation

  /** What `DoAggBatch` returns for one source batch: the aggregate of its
      cleaned records, or the aggregation error wrapped once more. */
  function AggBatch(batch: CsvSource.MicroBatch, p: Extract.Parsers, rates: CoinGecko.Currency2Values)
    : Result<AggMap, Error>
  {
    match Aggregate(Extract.CleanedOf(batch.data, p), rates)
    case Ok(m) => Ok(m)
    case Err(e) => Err(AggregateBatchFailed(e))
  }

  /** A batch aggregates exactly when all its cleaned symbols are in the
      table; otherwise the error names the first missing symbol, wrapped
      twice. */
  lemma AggBatchOutcome(batch: CsvSource.MicroBatch, p: Extract.Parsers, rates: CoinGecko.Currency2Values)
    ensures var cleaned := Extract.CleanedOf(batch.data, p);
            && (AggBatch(batch, p, rates).Ok? <==> Supported(cleaned, rates))
            && (Supported(cleaned, rates) ==> AggBatch(batch, p, rates) == Ok(AggOf(cleaned, rates)))
            && (!Supported(cleaned, rates) ==>
                  var i := FirstUnsupported(cleaned, rates);
                  && cleaned[i].currencySymbol !in rates
                  && (forall j :: 0 <= j < i ==> cleaned[j].currencySymbol in rates)
                  && AggBatch(batch, p, rates)
                     == Err(AggregateBatchFailed(CurrencyNotSupported(cleaned[i].currencySymbol))))
  {
  }

  /** `DoAggBatch`: cleanup runs first, so every outlier of the batch is sent
      even when the aggregation then fails. `DoCleanup` has no error result,
      so the "failed to clean up batch" branch cannot be taken and is not
      part of the model. */
  method DoAggBatch(batch: CsvSource.MicroBatch, outlierChan: Channel<Extract.Outlier>,
                    p: Extract.Parsers, currencyValues: CoinGecko.Currency2Values)
    returns (r: Result<AggMap, Error>)
    requires !outlierChan.closed
    modifies outlierChan
    ensures !outlierChan.closed
    ensures outlierChan.sent == old(outlierChan.sent) + Extract.OutliersOf(batch.data, p)
    ensures r == AggBatch(batch, p, currencyValues)
  {
    var cleanedBatch := Extract.DoCleanup(batch, p, outlierChan);
    var agg := Aggregation.DoAgg(cleanedBatch, currencyValues);
    if agg.Err? {
      return Err(AggregateBatchFailed(agg.error));
    }
    return Ok(agg.value);
  }

  /** The result a worker sends for a processed batch: the error alone, or
      the aggregate alone. */
  function ToAggResult(r: Result<AggMap, Error>): (res: AggResult)
    ensures res.err.None? <==> r.Ok?
    ensures r.Ok? ==> res.agg == r.value
    ensures r.Err? ==> res.err == Some(r.error) && res.agg == map[]
  {
    match r
    case Ok(m) => AggResult(m, None)
    case Err(e) => AggResult(map[], Some(e))
  }

  /** One result per batch, in batch order; an error does not stop the worker. */
  function WorkerResults(batches: seq<CsvSource.MicroBatch>, p: Extract.Parsers, rates: CoinGecko.Currency2Values)
    : (rs: seq<AggResult>)
    ensures |rs| == |batches|
    ensures forall i :: 0 <= i < |batches| ==> rs[i] == ToAggResult(AggBatch(batches[i], p, rates))
  {
    if batches == [] then []
    else
      WorkerResults(batches[..|batches| - 1], p, rates)
      + [ToAggResult(AggBatch(batches[|batches| - 1], p, rates))]
  }

  /** One more batch through the worker: its outliers follow those before
      it, and its result follows theirs. */
  lemma WorkerStep(batches: seq<CsvSource.MicroBatch>, i: nat, p: Extract.Parsers, rates: CoinGecko.Currency2Values)
    requires i < |batches|
    ensures Extract.OutliersOf(CsvSource.Flatten(batches[..i + 1]), p)
            == Extract.OutliersOf(CsvSource.Flatten(batches[..i]), p) + Extract.OutliersOf(batches[i].data, p)
    ensures WorkerResults(batches[..i + 1], p, rates)
            == WorkerResults(batches[..i], p, rates) + [ToAggResult(AggBatch(batches[i], p, rates))]
  {
    assert batches[..i + 1][..i] == batches[..i];
    assert CsvSource.Flatten(batches[..i + 1]) == CsvSource.Flatten(batches[..i]) + batches[i].data;
    Extract.CleanupConcat(CsvSource.Flatten(batches[..i]), batches[i].data, p);
  }

  /** A worker's loop (`Worker`, parallel.go) over the batches it receives,
      here all of them: each batch goes through `DoAggBatch` and its result
      is sent on, the error alone or the aggregate alone. */
  method RunWorker(batches: seq<CsvSource.MicroBatch>, outlierChan: Channel<Extract.Outlier>,
                   p: Extract.Parsers, currencyValues: CoinGecko.Currency2Values)
    returns (out: seq<AggResult>)
    requires !outlierChan.closed
    modifies outlierChan
    ensures !outlierChan.closed
    ensures outlierChan.sent == old(outlierChan.sent) + Extract.OutliersOf(CsvSource.Flatten(batches), p)
    ensures out == WorkerResults(batches, p, currencyValues)
  {
    out := [];
    for i := 0 to |batches|
      invariant !outlierChan.closed
      invariant outlierChan.sent == old(outlierChan.sent) + Extract.OutliersOf(CsvSource.Flatten(batches[..i]), p)
      invariant out == WorkerResults(batches[..i], p, currencyValues)
    {
      var batch := batches[i];
      WorkerStep(batches, i, p, currencyValues);
      var agg := DoAggBatch(batch, outlierChan, p, currencyValues);
      SeqAssoc(old(outlierChan.sent), Extract.OutliersOf(CsvSource.Flatten(batches[..i]), p), Extract.OutliersOf(batch.data, p));
      if agg.Err? {
        out := out + [AggResult(map[], Some(agg.error))];
        continue;
      }
      out := out + [AggResult(agg.value, None)];
    }
    assert batches[..|batches|] == batches;
  }

  lemma {:induction false} WorkerResultsConcat(a: seq<CsvSource.MicroBatch>, b: seq<CsvSource.MicroBatch>,
                                               p: Extract.Parsers, rates: CoinGecko.Currency2Values)
    ensures WorkerResults(a + b, p, rates) == WorkerResults(a, p, rates) + WorkerResults(b, p, rates)
    decreases |b|
  {
    if b == [] {
      assert a + b == a;
    } else {
      var b' := b[..|b| - 1];
      assert (a + b)[..|a + b| - 1] == a + b' && (a + b)[|a + b| - 1] == b[|b| - 1];
      WorkerResultsConcat(a, b', p, rates);
    }
  }

  lemma NoErrorsSnoc(rs: seq<AggResult>, r: AggResult)
    ensures NoErrors(rs + [r]) <==> NoErrors(rs) && r.err.None?
  {
    assert forall i :: 0 <= i < |rs| ==> (rs + [r])[i] == rs[i];
    assert (rs + [r])[|rs|] == r;
  }

  /** Some batch fails exactly when some cleaned record of the whole input
      carries a symbol the table lacks. */
  lemma {:induction false} WorkerErrorsIff(batches: seq<CsvSource.MicroBatch>, p: Extract.Parsers,
                                           rates: CoinGecko.Currency2Values)
    ensures NoErrors(WorkerResults(batches, p, rates))
            <==> Supported(Extract.CleanedOf(CsvSource.Flatten(batches), p), rates)
  {
    if batches != [] {
      var init, last := batches[..|batches| - 1], batches[|batches| - 1];
      var x, y := Extract.CleanedOf(CsvSource.Flatten(init), p), Extract.CleanedOf(last.data, p);
      WorkerErrorsIff(init, p, rates);
      Extract.CleanupConcat(CsvSource.Flatten(init), last.data, p);
      SupportedConcat(x, y, rates);
      NoErrorsSnoc(WorkerResults(init, p, rates), ToAggResult(AggBatch(last, p, rates)));
      assert AggBatch(last, p, rates).Ok? <==> Supported(y, rates);
    }
  }

  /** When every symbol is known, reducing the per-batch aggregates gives the
      aggregate of all the cleaned records at once. */
  lemma {:induction false} ReduceWorkerResults(batches: seq<CsvSource.MicroBatch>, p: Extract.Parsers,
                                               rates: CoinGecko.Currency2Values)
    requires Supported(Extract.CleanedOf(CsvSource.Flatten(batches), p), rates)
    ensures Reduce(WorkerResults(batches, p, rates)) == Ok(AggOf(Extract.CleanedOf(CsvSource.Flatten(batches), p), rates))
  {
    if batches == [] {
      assert AggOf([], rates) == map[];
    } else {
      var init, last := batches[..|batches| - 1], batches[|batches| - 1];
      var x, y := Extract.CleanedOf(CsvSource.Flatten(init), p), Extract.CleanedOf(last.data, p);
      var rs := WorkerResults(batches, p, rates);
      Extract.CleanupConcat(CsvSource.Flatten(init), last.data, p);
      AggOfConcat(x, y, rates);
      ReduceWorkerResults(init, p, rates);
      AggBatchOutcome(last, p, rates);
      assert rs[..|rs| - 1] == WorkerResults(init, p, rates);
    }
  }

  /** The partial aggregates the reducer receives: none when no worker is
      started (`parallelism <= 0`), otherwise one per emitted batch, in
      emission order, and an error among them exactly when some cleaned
      record's symbol is not in the table. */
  function Partials(records: seq<CsvSource.RawTransaction>, decodeErr: Option<string>, microBatchSize: nat,
                    p: Extract.Parsers, rates: CoinGecko.Currency2Values, parallelism: int): (rs: seq<AggResult>)
    ensures parallelism <= 0 ==> rs == []
    ensures parallelism > 0 ==>
              var batches := CsvSource.Emitted(records, decodeErr, microBatchSize);
              && |rs| == |batches|
              && (forall i :: 0 <= i < |batches| ==> rs[i] == ToAggResult(AggBatch(batches[i], p, rates)))
              && (NoErrors(rs) <==> Supported(Extract.CleanedOf(records, p), rates))
  {
    if parallelism <= 0 then []
    else
      var batches := CsvSource.Emitted(records, decodeErr, microBatchSize);
      WorkerErrorsIff(batches, p, rates);
      CsvSource.EmittedRecords(records, decodeErr, microBatchSize);
      WorkerResults(batches, p, rates)
  }

  /** End to end: the reduce succeeds exactly when every cleaned record's
      symbol is in the table, and then it equals one `DoAgg` over all the
      cleaned records, whatever the batch size and whether or not decoding
      stopped early. */
  lemma EndToEnd(records: seq<CsvSource.RawTransaction>, decodeErr: Option<string>, microBatchSize: nat,
                 p: Extract.Parsers, rates: CoinGecko.Currency2Values)
    ensures var results := WorkerResults(CsvSource.Emitted(records, decodeErr, microBatchSize), p, rates);
            var cleaned := Extract.CleanedOf(records, p);
            && (Reduce(results).Ok? <==> Supported(cleaned, rates))
            && (Supported(cleaned, rates) ==> Reduce(results) == Ok(AggOf(cleaned, rates)))
  {
    var batches := CsvSource.Emitted(records, decodeErr, microBatchSize);
    CsvSource.EmittedRecords(records, decodeErr, microBatchSize);
    WorkerErrorsIff(batches, p, rates);
    ReduceFailsIff(WorkerResults(batches, p, rates));
    if Supported(Extract.CleanedOf(records, p), rates) {
      ReduceWorkerResults(batches, p, rates);
    }
  }

  /** The same holds for any order in which the workers' results arrive:
      the reduce succeeds exactly when every cleaned symbol is known, and
      then gives the one aggregate over all cleaned records. */
  lemma EndToEndAnyOrder(records: seq<CsvSource.RawTransaction>, decodeErr: Option<string>, microBatchSize: nat,
                         p: Extract.Parsers, rates: CoinGecko.Currency2Values, arrived: seq<AggResult>)
    requires multiset(arrived) == multiset(WorkerResults(CsvSource.Emitted(records, decodeErr, microBatchSize), p, rates))
    ensures Reduce(arrived).Ok? <==> Supported(Extract.CleanedOf(records, p), rates)
    ensures Reduce(arrived).Ok? ==> Reduce(arrived) == Ok(AggOf(Extract.CleanedOf(records, p), rates))
  {
    var batches := CsvSource.Emitted(records, decodeErr, microBatchSize);
    var results := WorkerResults(batches, p, rates);
    CsvSource.EmittedRecords(records, decodeErr, microBatchSize);
    WorkerErrorsIff(batches, p, rates);
    EndToEnd(records, decodeErr, microBatchSize, p, rates);
    ReduceFailsIff(results);
    ReduceFailsIff(arrived);
    NoErrorsSameMultiset(results, arrived);
    if Supported(Extract.CleanedOf(records, p), rates) {
      ReducePermutation(results, arrived);
    }
  }

  /** Two result lists with the same elements are error-free together. */
  lemma NoErrorsSameMultiset(a: seq<AggResult>, b: seq<AggResult>)
    requires multiset(a) == multiset(b)
    ensures NoErrors(a) <==> NoErrors(b)
  {
    if !NoErrors(a) {
      var i :| 0 <= i < |a| && a[i].err.Some?;
      assert a[i] in multiset(b);
      var j :| 0 <= j < |b| && b[j] == a[i];
    }
    if !NoErrors(b) {
      var j :| 0 <= j < |b| && b[j].err.Some?;
      assert b[j] in multiset(a);
      var i :| 0 <= i < |a| && a[i] == b[j];
    }
  }

  /** The batch that carries a decode error has no records, so its worker
      result is an empty aggregate with no error. */
  lemma ErrorBatchResult(message: string, p: Extract.Parsers, rates: CoinGecko.Currency2Values)
    ensures ToAggResult(AggBatch(CsvSource.ErrorBatch(message), p, rates)) == AggResult(map[], None)
  {
    assert AggOf([], rates) == map[];
  }

  /** An error-free empty aggregate merges to nothing, wherever it arrives. */
  lemma {:induction false} ReduceDropEmpty(a: seq<AggResult>, b: seq<AggResult>)
    ensures Reduce(a + [AggResult(map[], None)] + b) == Reduce(a + b)
    decreases |b|
  {
    var e := AggResult(map[], None);
    if b == [] {
      assert (a + [e] + b)[..|a + [e] + b| - 1] == a && a + b == a;
      if Reduce(a).Ok? {
        MergeIdentity(Reduce(a).value);
      }
    } else {
      var b' := b[..|b| - 1];
      assert (a + [e] + b)[..|a + [e] + b| - 1] == a + [e] + b';
      assert (a + b)[..|a + b| - 1] == a + b';
      assert (a + [e] + b)[|a + [e] + b| - 1] == (a + b)[|a + b| - 1];
      ReduceDropEmpty(a, b');
    }
  }

  /** A CSV decode error never reaches the reduce: the outcome is the one the
      records read before the error give without it. */
  lemma DecodeErrorSwallowed(records: seq<CsvSource.RawTransaction>, message: string, microBatchSize: nat,
                             p: Extract.Parsers, rates: CoinGecko.Currency2Values)
    ensures Reduce(WorkerResults(CsvSource.Emitted(records, Some(message), microBatchSize), p, rates))
            == Reduce(WorkerResults(CsvSource.Emitted(records, None, microBatchSize), p, rates))
  {
    var n := CsvSource.FlushLength(microBatchSize);
    var full := CsvSource.AsDataBatches(CsvSource.FullBatches(records, n));
    var rest: seq<CsvSource.MicroBatch> :=
      if |CsvSource.Leftover(records, n)| > 0 then [CsvSource.MicroBatch(CsvSource.Leftover(records, n), None)] else [];
    var eb := CsvSource.ErrorBatch(message);
    assert CsvSource.Emitted(records, Some(message), microBatchSize) == full + [eb] + rest;
    assert CsvSource.Emitted(records, None, microBatchSize) == full + rest;
    WorkerResultsConcat(full + [eb], rest, p, rates);
    WorkerResultsConcat(full, [eb], p, rates);
    WorkerResultsConcat(full, rest, p, rates);
    assert WorkerResults([eb], p, rates) == [ToAggResult(AggBatch(eb, p, rates))];
    ErrorBatchResult(message, p, rates);
    ReduceDropEmpty(WorkerResults(full, p, rates), WorkerResults(rest, p, rates));
  }

  /** An aggregate sink (`sink.AggSink`). It records every write it receives;
      whether a write fails depends on the storage behind it, which is not
      modelled, so the failure, if any, is fixed when the sink is created. */
  class AggSink {
    var writes: seq<AggMap>
    const failure: Option<string>

    constructor(failure: Option<string>)
      ensures writes == [] && this.failure == failure
    {
      writes := [];
      this.failure := failure;
    }

    /** Both sinks report the number of aggregates written, or 0 and the
        error. */
    method WriteAgg(aggs: AggMap) returns (size: nat, err: Option<string>)
      modifies this
      ensures writes == old(writes) + [aggs]
      ensures err == failure
      ensures size == if failure.None? then |aggs| else 0
    {
      writes := writes + [aggs];
      if failure.Some? {
        return 0, failure;
      }
      return |aggs|, None;
    }
  }

  /** `DoAgg`, sequentially: a currency table that does not decode fails
      before anything else happens; a failed reduce returns before the sink
      is written and leaves the outlier channel open; otherwise the reduced
      aggregate is written once, a write error is reported, and the outlier
      channel is closed only after a successful write. The outlier sink that
      drains the channel is not modelled: the channel's contents are what it
      would receive. */
  method DoAgg(currencyCsv: Result<seq<CoinGecko.Coin>, string>,
               records: seq<CsvSource.RawTransaction>, decodeErr: Option<string>,
               aggSink: AggSink, p: Extract.Parsers, parallelism: int, microBatchSize: int)
    returns (err: Option<Error>, outlierCh: Channel?<Extract.Outlier>)
    requires microBatchSize >= 0
    modifies aggSink
    ensures currencyCsv.Err? ==>
              err == Some(ReadCurrencyValuesFailed(CurrencyCsvInvalid(currencyCsv.error)))
              && outlierCh == null && aggSink.writes == old(aggSink.writes)
    ensures currencyCsv.Ok? ==>
              var rates := CoinGecko.CurrencyTable(currencyCsv.value);
              var reduced := Reduce(Partials(records, decodeErr, microBatchSize, p, rates, parallelism));
              && outlierCh != null && fresh(outlierCh)
              && outlierCh.sent == (if parallelism > 0 then Extract.OutliersOf(records, p) else [])
              && (reduced.Err? ==>
                    err == Some(ReduceFailed(reduced.error))
                    && aggSink.writes == old(aggSink.writes) && !outlierCh.closed)
              && (reduced.Ok? ==>
                    aggSink.writes == old(aggSink.writes) + [reduced.value]
                    && err == (if aggSink.failure.Some? then Some(WriteAggFailed(aggSink.failure.value)) else None)
                    && outlierCh.closed == aggSink.failure.None?)
  {
    var currencyValues := CoinGecko.ReadCurrencyValues(currencyCsv);
    if currencyValues.Err? {
      return Some(ReadCurrencyValuesFailed(currencyValues.error)), null;
    }
    var rates := currencyValues.value;
    // ReadCSV never reports an error of its own, so its error branch is not modelled.
    var sourceTransactionCh, _ := CsvSource.ReadCsv(records, decodeErr, microBatchSize);
    var ch := new Channel<Extract.Outlier>();
    outlierCh := ch;
    var partialAgg: seq<AggResult> := [];
    if parallelism > 0 {
      partialAgg := RunWorker(sourceTransactionCh.sent, ch, p, rates);
      CsvSource.EmittedRecords(records, decodeErr, microBatchSize);
    }
    assert partialAgg == Partials(records, decodeErr, microBatchSize, p, rates, parallelism);
    var agg := DoAggReducer(partialAgg);
    if agg.Err? {
      return Some(ReduceFailed(agg.error)), outlierCh;
    }
    var _, writeErr := aggSink.WriteAgg(agg.value);
    if writeErr.Some? {
      return Some(WriteAggFailed(writeErr.value)), outlierCh;
    }
    ch.Close();
    return None, outlierCh;
  }
}
