# hodctl aggregation pipeline, modelled in Dafny

hodctl reads a CSV of raw blockchain transactions and a CSV of coin prices.
It cleans each record into a transaction or sets it aside as an outlier with
a reason. It then groups the cleaned transactions by (day, project), counts
them and sums their USD volume, merges the per-batch aggregates and writes
the result to a sink (a file or a BigQuery table).

This project models that sequential data path. It covers these parts:

- how `ReadCSV` chunks records into micro-batches (`csvsource.dfy`);
- how `DoCleanup` classifies records (`extract.dfy`);
- how `DoAgg` groups a batch and how `DoAggReducer` merges results (`agg.dfy`);
- how the pipeline composes these steps per batch and end to end (`aggpipeline.dfy`);
- the currency table built by `ReadCurrencyValues` (`coingecko.dfy`);
- URI parsing and the row layout of the BigQuery sink (`bq.dfy`).

Two small modules support the rest:

- `time.dfy` holds the parsed timestamp and its "2006-01-02" rendering.
- `channels.dfy` holds a Go channel, seen as the sequence of values sent on it plus a closed flag.

The imperative loops of the Go code stay loops here:

- `Extract.DoCleanup`
- `Aggregation.DoAgg`
- `Aggregation.DoAggReducer`
- `CsvSource.ReadCsv`
- `CoinGecko.ReadCurrencyValues`
- `AggPipeline.RunWorker`

Each loop is proved against a specification function:

- `CleanedOf` and `OutliersOf`
- `AggOf` and `Aggregate`
- `Reduce`
- `Emitted`
- `CurrencyTable`
- `WorkerResults`

The lemmas state what the code promises about those functions.

Library calls become parameters, as follows:

- `time.Parse`, the two `json.Unmarshal` calls and `strconv.ParseFloat` are the arrow functions of `Extract.Parsers`.
- The outcome of gocsv decoding is an input. For transactions it is the decoded records plus an optional decode error. For coins it is a `Result`.
- Whether a sink write fails is fixed when the `AggSink` is created.

Three modelling choices follow from the Go code:

- **Grouping key.** In Go the grouping key is the string `date + "_" + project`. Here aggregates are keyed by the pair (calendar day, project). `Aggregation.TransactionKeys` proves the two name the same groups: the rendered date is always 10 characters, digits apart from the two dashes, and reads back as the date (`Time.FormatDate`), so rendering is injective (`Time.FormatDateInjective`). `Aggregation.GroupKeyNeedsFixedWidth` gives one collision of an unpadded key, which shows why the fixed width is needed.
- **Partial results.** The workers of `pkg/worker/parallel.go` are modelled as one sequential worker over the emitted batches (`AggPipeline.RunWorker`). Its results may arrive in any order: `AggPipeline.EndToEndAnyOrder` shows the reduce fails or succeeds regardless, and on success gives the same aggregate.
- **`parallelism <= 0`.** No worker starts, so the reducer receives nothing and an empty aggregate is written. `AggPipeline.Partials` states this.

Where a reading of the behaviour and the code could differ, the model follows the code:

- The checks run in the order timestamp, `Nums` JSON, `Props` JSON, float parse, range.
- The cleaned currency symbol is not upper-cased, while the table's keys are. A lower-case symbol therefore fails aggregation (`CoinGecko.LowercaseSymbolAbsent`).
- A negative volume gets the "volume over threshold" reason.
- A CSV decode error never reaches the reducer (`AggPipeline.DecodeErrorSwallowed`).
- The leftover batch is still sent after the error batch.

## Model

| member | source | states |
|---|---|---|
| Extract.Classify | pkg/worker/extract.go:50-108 | an outlier carries the raw record unchanged; a cleaned record has the parsed timestamp, the project id copied, the parsed symbol with no case change, the parsed volume, and a volume in [0, 1e15] |
| Extract.ClassifyReasons | pkg/worker/extract.go:51-98 | each reason is given exactly when all earlier checks passed and that check failed (timestamp, Nums JSON, Props JSON, float parse, range), and a record is cleaned exactly when all pass; a negative volume gets the over-threshold reason, 0 and 1e15 pass |
| Extract.Reason.Message | pkg/worker/extract.go:53-96 | every outlier message begins with its fixed prefix followed by ": " |
| Extract.CleanupPartition | pkg/worker/extract.go:50-109 | #cleaned + #outliers equals the number of records |
| Extract.CleanupConcat | pkg/worker/extract.go:50-109 | cleaning a concatenation gives the concatenation of the cleaned transactions and of the outliers |
| Extract.CleanedOrder | pkg/worker/extract.go:50-108 | the k-th cleaned transaction comes from a record at a strictly increasing position, which classifies as exactly that transaction, and every cleaned volume lies in [0, MaxVolumeThreshold] |
| Extract.OutliersOrder | pkg/worker/extract.go:50-97 | the k-th outlier carries the record at a strictly increasing position, and that record classifies as exactly that outlier |
| Extract.PositionsCover | pkg/worker/extract.go:50-109 | a record position is listed as cleaned iff it classifies as cleaned, and as an outlier iff it is rejected |
| Extract.PositionsBound | pkg/worker/extract.go:50 | every listed position is a record index |
| Extract.CleanupStep | pkg/worker/extract.go:50-108 | one more record extends exactly the run of its class |
| Extract.DoCleanup | pkg/worker/extract.go:46-112 | returns the cleaned transactions of the batch with no error and ignores the batch's error; sends exactly the batch's outliers, in order, on the open channel |
| Time.FormatDate | pkg/worker/agg.go:30 | the "2006-01-02" rendering is 10 characters with dashes at positions 4 and 7 and decimal digits elsewhere, and its year, month and day digits read back as the date's year, month and day |
| Time.FormatDateInjective | pkg/worker/agg.go:30 | two dates render the same iff they are equal |
| Time.Padded | pkg/worker/agg.go:30 | a zero-padded number has the requested width, consists of decimal digits and reads back as the number |
| Aggregation.GroupKeyInjective | pkg/worker/agg.go:33 | with 10-character dates, equal keys mean equal date and project |
| Aggregation.TransactionKeys | pkg/worker/agg.go:30-33 | two transactions get the same Go key iff they have the same (day, project) |
| Aggregation.RowKey | pkg/worker/agg.go:73 | the key the reducer recomputes from a row's `Date` and `ProjectId` is the same for two rows iff they come from the same (day, project) group |
| Aggregation.GroupKeyNeedsFixedWidth | pkg/worker/agg.go:33 | an example, not a general proof: without the fixed width the key is not injective, for instance dates "a_b" and "a" with projects "c" and "b_c" give the same key |
| Aggregation.FirstUnsupported | pkg/worker/agg.go:20-26 | the first transaction whose symbol is missing from the table, with all earlier symbols present |
| Aggregation.FirstUnsupportedAt | pkg/worker/agg.go:20-26 | an index whose symbol is missing while all earlier ones are present is the first unsupported one |
| Aggregation.GroupsSnoc | pkg/worker/agg.go:30-49 | one more transaction adds exactly its group |
| Aggregation.AbsentGroup | pkg/worker/agg.go:36-46 | a group with no transaction has zero count and zero volume |
| Aggregation.SupportedSnoc | pkg/worker/agg.go:23-26 | a supported batch has a supported prefix and a supported last symbol |
| Aggregation.CountSnoc | pkg/worker/agg.go:45 | one more transaction adds one to the count of its group only |
| Aggregation.UsdVolumeSnoc | pkg/worker/agg.go:28-46 | one more transaction adds rate * volume to the volume of its group only |
| Aggregation.AggOfSnoc | pkg/worker/agg.go:36-49 | one more transaction updates only its group's entry: one more count, plus rate * volume, starting from zero for a new group |
| Aggregation.SupportedConcat | pkg/worker/agg.go:23-26 | a concatenation is supported iff both parts are |
| Aggregation.GroupsConcat | pkg/worker/agg.go:30-49 | the groups of a concatenation are the union of the groups |
| Aggregation.CountConcat | pkg/worker/agg.go:45 | counts add over a concatenation |
| Aggregation.UsdVolumeConcat | pkg/worker/agg.go:28-46 | USD volumes add over a concatenation |
| Aggregation.AggOfConcatAt | pkg/worker/agg.go:36-83 | per group, aggregating a concatenation gives the merge of the two aggregates |
| Aggregation.AggOfConcat | pkg/worker/agg.go:16-84 | aggregating a concatenation is merging the two aggregates |
| Aggregation.DoAgg | pkg/worker/agg.go:16-59 | fails iff some symbol is missing from the table, with no partial result; on success there is exactly one entry per (day, project), and it holds that group's count and sum of rate * volume; equals `Aggregate` |
| Aggregation.SumCountsRemove | pkg/worker/agg.go:45 | the count total over a key set splits off one key |
| Aggregation.SumCountsAgree | pkg/worker/agg.go:45 | maps with the same counts on a key set have the same count total |
| Aggregation.AggOfTotalCount | pkg/worker/agg.go:36-49 | the counts of a successful aggregate add up to the number of transactions |
| Aggregation.SumCountsStep | pkg/worker/agg.go:45-49 | adding one to one key's count adds one to the total |
| Aggregation.MergeCommutative | pkg/worker/agg.go:71-84 | merging is commutative |
| Aggregation.MergeAssociative | pkg/worker/agg.go:71-84 | merging is associative |
| Aggregation.MergeIdentity | pkg/worker/agg.go:63-77 | the empty aggregate is the identity for merging |
| Aggregation.ReduceFailsIff | pkg/worker/agg.go:66-69 | the reduce fails iff some result carries an error |
| Aggregation.ReduceFirstError | pkg/worker/agg.go:66-69 | the first error result decides the reduce's error, whatever follows it |
| Aggregation.ReduceSums | pkg/worker/agg.go:62-94 | with no error results, the reduce has exactly one entry per key of any partial, holding the sums of counts and volumes over all partials |
| Aggregation.KeyTotalsAbsent | pkg/worker/agg.go:71-84 | a key in no partial has zero totals |
| Aggregation.ReduceMoveLast | pkg/worker/agg.go:71-84 | any error-free partial can be merged last without changing the reduce |
| Aggregation.ReducePermutation | pkg/worker/agg.go:62-94 | the reduce of error-free partials does not depend on their arrival order |
| Aggregation.MergeStep | pkg/worker/agg.go:73-83 | merging one more key of a partial updates only that key: it is added, or its entry is accumulated |
| Aggregation.RestrictAll | pkg/worker/agg.go:71 | once every key of a partial is merged, the whole partial is merged |
| Aggregation.ReduceStep | pkg/worker/agg.go:66-85 | an error-free result extends the reduce by its merge |
| Aggregation.ReduceStopsAt | pkg/worker/agg.go:66-69 | an error result after an error-free prefix ends the reduce with that error |
| Aggregation.DoAggReducer | pkg/worker/agg.go:62-94 | returns `Reduce` of the results in arrival order: it stops at the first error and otherwise merges key by key |
| CsvSource.AsDataBatches | pkg/io/csvsource.go:45 | one data batch with no error per chunk, in order |
| CsvSource.StepOne | pkg/io/csvsource.go:40-47 | one more record either completes a batch of size FlushLength and empties the pending batch, or grows the pending batch |
| CsvSource.FullBatchesConcat | pkg/io/csvsource.go:39-49 | the full batches followed by the leftover give back the records |
| CsvSource.FullBatchesSizes | pkg/io/csvsource.go:44-47 | every full batch has exactly FlushLength records; the leftover has fewer |
| CsvSource.FullBatchesCount | pkg/io/csvsource.go:44-47 | #full batches * FlushLength + #leftover = #records |
| CsvSource.FlattenAppend | pkg/io/csvsource.go:45-58 | the records of concatenated batch lists concatenate |
| CsvSource.FlattenDataBatches | pkg/io/csvsource.go:45 | the records of the full batches are their concatenation |
| CsvSource.EmittedRecords | pkg/io/csvsource.go:39-59 | the data of the emitted batches, in order, is exactly the decoded records; the error batch adds none |
| CsvSource.EmittedLength | pkg/io/csvsource.go:44-59 | the number of batches: full ones, plus one for an error, plus one for a non-empty leftover |
| CsvSource.EmittedAt | pkg/io/csvsource.go:44-59 | each emitted batch is a full batch, the error batch right after the full ones, or the non-empty leftover at the end |
| CsvSource.BatchCountBounds | pkg/io/csvsource.go:44-59 | m batches of at most n records, all full but the last, hold more than (m-1)*n and at most m*n records |
| CsvSource.EmittedShape | pkg/io/csvsource.go:44-59 | full batches come first with exactly FlushLength records; no data batch is empty or too large; without a decode error no batch has an error and there are ceil(records / size) batches; with one, exactly the batch after the full ones is the error batch with no data, and at most the leftover follows it |
| CsvSource.ReadCsv | pkg/io/csvsource.go:30-65 | returns a nil error and a fresh channel that is closed after the last send, and the channel holds exactly `Emitted` |
| CsvSource.AsDataBatchesAppend | pkg/io/csvsource.go:45 | flushing one more chunk appends one data batch |
| CoinGecko.ToUpper | pkg/io/coingecko.go:154 | upper-casing keeps the length and maps each character |
| CoinGecko.ToUpperNormal | pkg/io/coingecko.go:154 | upper-casing leaves no lower-case letter and is idempotent |
| CoinGecko.LastCoinWins | pkg/io/coingecko.go:153-155 | when upper-cased symbols collide, the last coin's price wins |
| CoinGecko.ReadCurrencyValues | pkg/io/coingecko.go:145-158 | a decode failure gives an error and no table; otherwise the keys are exactly the upper-cased symbols, each with its last coin's price (an empty list gives an empty table) |
| CoinGecko.LowercaseSymbolAbsent | pkg/io/coingecko.go:154 | a symbol holding a lower-case letter is never a key |
| AggPipeline.AggBatchOutcome | pkg/pipeline/aggpipeline.go:52-67 | a batch aggregates iff all its cleaned symbols are known, giving the aggregate of its cleaned transactions; otherwise the error is "failed to aggregate batch" wrapping the unsupported symbol |
| AggPipeline.DoAggBatch | pkg/pipeline/aggpipeline.go:52-67 | cleanup runs first, so all of the batch's outliers are sent even when aggregation then fails; the result is `AggBatch` |
| AggPipeline.ToAggResult | pkg/worker/parallel.go:54-58 | a worker's result has no error iff the batch succeeded; it then carries the aggregate, otherwise the error alone and no aggregate |
| AggPipeline.WorkerResults | pkg/worker/parallel.go:51-59 | one result per batch, the i-th being the outcome of batch i |
| AggPipeline.WorkerStep | pkg/worker/parallel.go:51-59 | one more batch appends its outliers and its result |
| AggPipeline.RunWorker | pkg/worker/parallel.go:48-60 | one result per batch, in order, an error result for a failed batch, and the worker continues after it; sends the outliers of all records |
| AggPipeline.WorkerResultsConcat | pkg/worker/parallel.go:51-59 | the results of concatenated batch lists concatenate |
| AggPipeline.NoErrorsSnoc | pkg/worker/parallel.go:54-58 | a result list with one more result is error-free iff both are |
| AggPipeline.WorkerErrorsIff | pkg/worker/parallel.go:51-59 | no worker result carries an error iff all cleaned symbols are known |
| AggPipeline.Partials | pkg/worker/parallel.go:25-59 | no worker starts when `parallelism <= 0`, so there are no results; otherwise one result per emitted batch in emission order, with an error among them iff some cleaned symbol is not in the table |
| AggPipeline.ReduceWorkerResults | pkg/pipeline/aggpipeline.go:32-35 | with every symbol known, reducing the per-batch results gives the aggregate of all cleaned records |
| AggPipeline.EndToEnd | pkg/pipeline/aggpipeline.go:23-38 | the reduce succeeds iff every cleaned symbol is known, and then equals one aggregation over all cleaned records, whatever the batch size |
| AggPipeline.EndToEndAnyOrder | pkg/pipeline/aggpipeline.go:32-35 | for any arrival order of the per-batch results, the reduce succeeds iff every cleaned symbol is known, and then equals one aggregation over all cleaned records |
| AggPipeline.ErrorBatchResult | pkg/io/csvsource.go:52-54 | an error batch yields an empty, error-free aggregate |
| AggPipeline.ReduceDropEmpty | pkg/worker/agg.go:71-84 | an empty error-free result does not change the reduce |
| AggPipeline.DecodeErrorSwallowed | pkg/io/csvsource.go:51-59 | the reduce is the same with or without a CSV decode error |
| AggPipeline.AggSink.WriteAgg | pkg/sink/vfssink.go:21-29 | the write is recorded; the size written is the number of aggregates, or 0 with the error |
| AggPipeline.DoAgg | pkg/pipeline/aggpipeline.go:16-48 | a currency table that fails to decode fails first; a failed reduce returns before any write and leaves the outlier channel open; otherwise there is exactly one write of the reduced aggregate, a failed write is reported, and the channel is closed only after a successful write; the outliers sent are those of all records (none when no worker runs) |
| BigQuerySink.IndexOf | pkg/sink/bq.go:143 | the first occurrence, or the length when there is none |
| BigQuerySink.IndexOfAfter | pkg/sink/bq.go:143 | searching past a prefix without the character shifts the index |
| BigQuerySink.ParseUrl | pkg/sink/bq.go:143 | the host holds no '/'; the path is empty or starts with '/'; neither holds the '?' or '#' that end a path; "bq://" + host + path is a prefix of the URI |
| BigQuerySink.Trim | pkg/sink/bq.go:148 | the trimmed string is empty or neither starts nor ends with '/' |
| BigQuerySink.TrimLeftStart | pkg/sink/bq.go:148 | after trimming the left, no '/' is left at the start |
| BigQuerySink.TrimRightKeepsStart | pkg/sink/bq.go:148 | trimming the right of a string keeps a prefix, so a start without '/' stays so |
| BigQuerySink.TrimLeftDrops | pkg/sink/bq.go:148 | trimming the left keeps a suffix and drops only '/' characters |
| BigQuerySink.TrimRightDrops | pkg/sink/bq.go:148 | trimming the right keeps a prefix and drops only '/' characters |
| BigQuerySink.TrimStrips | pkg/sink/bq.go:148 | the trimmed string is a slice of the input with only '/' characters before and after it |
| BigQuerySink.Split | pkg/sink/bq.go:148 | there is at least one part, no part holds '/', and the parts joined by '/' give back the input |
| BigQuerySink.SlashCountConcat | pkg/sink/bq.go:148 | slash counts add over a concatenation |
| BigQuerySink.SplitLength | pkg/sink/bq.go:148-149 | splitting gives one more part than there are slashes |
| BigQuerySink.TrimRightSlashes | pkg/sink/bq.go:148 | all trailing slashes are trimmed |
| BigQuerySink.ParseUrlOf | pkg/sink/bq.go:143 | a bq URI splits into its host and its path |
| BigQuerySink.TrimPath | pkg/sink/bq.go:148 | trimming removes the leading slash and any number of trailing ones |
| BigQuerySink.SplitThree | pkg/sink/bq.go:148 | three slash-free segments split into three parts |
| BigQuerySink.ParseBigQueryUri | pkg/sink/bq.go:138-154 | the missing-prefix error occurs iff the URI does not start with "bq://"; on success the project is the URL's host, and dataset + "/" + table is the whole trimmed path |
| BigQuerySink.ParseBigQueryUriOf | pkg/sink/bq.go:138-154 | a bq URI is accepted iff its trimmed path splits into exactly two parts, with the host as project |
| BigQuerySink.ParseWellFormed | pkg/sink/bq.go:138-154 | "bq://P/D/T" parses to (P, D, T), also with trailing slashes and with an empty project |
| BigQuerySink.ParseEmptySegment | pkg/sink/bq.go:148-151 | "bq://P/D//T" is rejected: the empty interior segment counts |
| BigQuerySink.ParseSound | pkg/sink/bq.go:138-154 | an accepted URI starts with "bq://" and has non-empty, slash-free dataset and table |
| BigQuerySink.AggToRow | pkg/sink/bq.go:125-134 | the row carries the schema and one value per schema field, each position holding the value of the field the schema names there: Date at 0, ProjectId at 1, NumberOfTransactions at 2, TotalVolumeUsd at 3 |
| BigQuerySink.AggRow | pkg/sink/bq.go:125-134 | every value of the row is of its field's kind, and the row reads back as the aggregate |
| Channels.Channel.constructor | pkg/io/csvsource.go:31 | a new channel is open and holds nothing |
| Channels.Channel.Send | pkg/io/csvsource.go:45 | a send on an open channel appends the value and leaves it open |
| Channels.Channel.Close | pkg/io/csvsource.go:34 | closing an open channel marks it closed and keeps what was sent |

## Left out

- Concurrency: the goroutines of `ParallelProcessing`, its `WaitGroup`, channel buffers and blocking. The workers are one sequential worker whose results may be reordered (`AggPipeline.EndToEndAnyOrder`). The reducer's early return can leave workers blocked; that is not modelled.
- The outlier sink goroutine (`errSink.WriteError`). The model's outlier channel holds the outliers of all records in record order. With more than one worker the sink receives an interleaving of the batches' outlier runs instead: each batch's run stays in order, but runs of different batches can mix, and that order is not modelled.
- When `parallelism <= 0`, nobody drains the `ReadCSV` channel. Its buffer holds `DefaultChannelBufferSize` = 100 batches (pkg/io/csvsource.go:12 and 31), so once more than 100 batches are emitted the producer blocks for ever. The model only gives the empty set of partial results.
- The conversion of the aggregate maps to slices in `DoAgg` and `DoAggReducer`: Go's map iteration order is random, so the aggregates stay maps. The `Date` and `ProjectId` of each row are determined by its key, and the reducer's recomputed key tells groups apart (`Aggregation.RowKey`).
- Floating point: volumes and prices are `real`. Rounding that depends on summation order, NaN (which passes both range comparisons) and infinities are not modelled.
- The library parsers are parameters: `time.Parse`, `json.Unmarshal`, `strconv.ParseFloat` and gocsv decoding.
- `strings.ToUpper` is modelled on ASCII letters only.
- `url.Parse` is modelled for URIs with the `bq` scheme: it cuts at `#` and `?`, and the host runs up to the first `/`. Its own errors, percent-decoding and user info are not modelled, so `parseBigQueryURI`'s "invalid URI format" branch has no counterpart.
- The BigQuery client is not part of this model (`ensureTableExists`, `Put`, `Close`), nor is the CoinGecko HTTP code (`Ping`, `FetchCryptoData`, `Save`). The sink's write outcome is a parameter of `AggPipeline.AggSink`.
- Log and `Printf` lines.
- `DoCleanup` always returns a nil error, so the "failed to clean up batch" branch of `DoAggBatch` cannot be taken. `ReadCSV` always returns a nil error, so `DoAgg`'s "failed to read transactions" branch cannot be taken either.
- CsvSource.ReadCsv: requires a non-negative batch size. With a negative size Go panics in `make` at the first record; with no records the source would behave as for size 0.
- AggPipeline.DoAgg: requires a non-negative batch size, for the same reason.
- `DoAgg` only reads the currency table. That holds by construction, since the table is passed as a value.
