/** pkg/worker/extract.go: per-record validation. Each raw record becomes
    either a cleaned transaction or an outlier with a reason. The library
    parsers it calls are supplied as `Parsers`. */
module Extract {
  import opened Wrappers
  import opened Errors
  import opened Time
  import opened Channels
  import CsvSource

  /** A cleaned transaction. */
  datatype Transaction = Transaction(
    timestamp: DateTime, projectId: string, currencySymbol: string, volume: real)

  /** `worker.MicroBatch`: a batch of cleaned transactions. */
  datatype MicroBatch = MicroBatch(data: seq<Transaction>, err: Option<Error>)

  /** The reason an outlier was set aside; the error text of the failing
      parser, or the rejected volume, goes with it. */
  datatype Reason =
    | InvalidTimestamp(detail: string)
    | InvalidNumsJson(detail: string)
    | InvalidPropsJson(detail: string)
    | InvalidVolume(detail: string)
    | VolumeOverThreshold(volume: real)
  {
    /** The fixed text a reason message starts with. */
    function Prefix(): string
    {
      match this
      case InvalidTimestamp(_) => "invalid timestamp format"
      case InvalidNumsJson(_) => "invalid JSON format in Nums field"
      case InvalidPropsJson(_) => "invalid JSON format in Props field"
      case InvalidVolume(_) => "invalid volume format"
      case VolumeOverThreshold(_) => "volume over threshold"
    }

    /** The reason text; `formatVolume` stands for the `%f` rendering. */
    function Message(formatVolume: real -> string): (m: string)
      ensures Prefix() + ": " <= m
    {
      Prefix() + ": " + match this
        case InvalidTimestamp(d) => d
        case InvalidNumsJson(d) => d
        case InvalidPropsJson(d) => d
        case InvalidVolume(d) => d
        case VolumeOverThreshold(v) => formatVolume(v)
    }
  }

  /** An invalid record together with why it was rejected. */
  datatype Outlier = Outlier(reason: Reason, raw: CsvSource.RawTransaction)

  /** The library calls: `time.Parse("2006-01-02 15:04:05", _)`,
      `json.Unmarshal` into the Nums struct (its `currencyValueDecimal`
      field, "" when absent), into the Props struct (its `currencySymbol`
      field, "" when absent), and `strconv.ParseFloat(_, 64)`. Each yields
      its value or its error text. */
  datatype Parsers = Parsers(
    parseTimestamp: string -> Result<DateTime, string>,
    unmarshalNums: string -> Result<string, string>,
    unmarshalProps: string -> Result<string, string>,
    parseFloat: string -> Result<real, string>)

  /** `MaxVolumeThreshold` (1e15). */
  const MaxVolumeThreshold: real := 1_000_000_000_000_000.0

  datatype Classified = Cleaned(tx: Transaction) | Rejected(outlier: Outlier)

  /** The checks for one record, in the order the loop body runs them; the
      first that fails decides the reason. */
  function Classify(raw: CsvSource.RawTransaction, p: Parsers): (c: Classified)
    ensures c.Rejected? ==> c.outlier.raw == raw
    ensures c.Cleaned? ==>
              && p.parseTimestamp(raw.timestamp) == Ok(c.tx.timestamp)
              && c.tx.projectId == raw.projectId
              && p.unmarshalProps(raw.props) == Ok(c.tx.currencySymbol)
              && p.unmarshalNums(raw.nums).Ok?
              && p.parseFloat(p.unmarshalNums(raw.nums).value) == Ok(c.tx.volume)
              && 0.0 <= c.tx.volume <= MaxVolumeThreshold
  {
    match p.parseTimestamp(raw.timestamp)
    case Err(e) => Rejected(Outlier(InvalidTimestamp(e), raw))
    case Ok(parsedTime) =>
      match p.unmarshalNums(raw.nums)
      case Err(e) => Rejected(Outlier(InvalidNumsJson(e), raw))
      case Ok(decimal) =>
        match p.unmarshalProps(raw.props)
        case Err(e) => Rejected(Outlier(InvalidPropsJson(e), raw))
        case Ok(symbol) =>
          match p.parseFloat(decimal)
          case Err(e) => Rejected(Outlier(InvalidVolume(e), raw))
          case Ok(volume) =>
            if volume < 0.0 || volume > MaxVolumeThreshold then
              Rejected(Outlier(VolumeOverThreshold(volume), raw))
            else
              Cleaned(Transaction(parsedTime, raw.projectId, symbol, volume))
  }

  /** Which reason a record gets, stated check by check: a check's reason is
      given exactly when every earlier check passed and that one failed. A
      negative volume gets the over-threshold reason too; 0 and the
      threshold itself pass. */
  lemma ClassifyReasons(raw: CsvSource.RawTransaction, p: Parsers)
    ensures var c := Classify(raw, p);
            var t := p.parseTimestamp(raw.timestamp);
            var nums := p.unmarshalNums(raw.nums);
            var props := p.unmarshalProps(raw.props);
            && (c.Rejected? && c.outlier.reason.InvalidTimestamp? <==> t.Err?)
            && (c.Rejected? && c.outlier.reason.InvalidNumsJson? <==> t.Ok? && nums.Err?)
            && (c.Rejected? && c.outlier.reason.InvalidPropsJson? <==>
                  t.Ok? && nums.Ok? && props.Err?)
            && (c.Rejected? && c.outlier.reason.InvalidVolume? <==>
                  t.Ok? && nums.Ok? && props.Ok? && p.parseFloat(nums.value).Err?)
            && (c.Rejected? && c.outlier.reason.VolumeOverThreshold? <==>
                  t.Ok? && nums.Ok? && props.Ok? && p.parseFloat(nums.value).Ok?
                  && (p.parseFloat(nums.value).value < 0.0
                      || p.parseFloat(nums.value).value > MaxVolumeThreshold))
            && (c.Cleaned? <==>
                  t.Ok? && nums.Ok? && props.Ok? && p.parseFloat(nums.value).Ok?
                  && 0.0 <= p.parseFloat(nums.value).value <= MaxVolumeThreshold)
  {
  }

  /** The cleaned transactions of a run of records, in record order. */
  function CleanedOf(records: seq<CsvSource.RawTransaction>, p: Parsers): seq<Transaction>
  {
    if records == [] then []
    else
      var c := Classify(records[|records| - 1], p);
      CleanedOf(records[..|records| - 1], p) + (if c.Cleaned? then [c.tx] else [])
  }

  /** The outliers of a run of records, in record order. */
  function OutliersOf(records: seq<CsvSource.RawTransaction>, p: Parsers): seq<Outlier>
  {
    if records == [] then []
    else
      var c := Classify(records[|records| - 1], p);
      OutliersOf(records[..|records| - 1], p) + (if c.Rejected? then [c.outlier] else [])
  }

  /** Every record yields exactly one of the two. */
  lemma {:induction false} CleanupPartition(records: seq<CsvSource.RawTransaction>, p: Parsers)
    ensures |CleanedOf(records, p)| + |OutliersOf(records, p)| == |records|
  {
    if records != [] {
      CleanupPartition(records[..|records| - 1], p);
    }
  }

  /** Cleansing distributes over concatenation: the records before a point
      give the cleaned transactions and the outliers before that point. */
  lemma {:induction false} CleanupConcat(a: seq<CsvSource.RawTransaction>, b: seq<CsvSource.RawTransaction>, p: Parsers)
    ensures CleanedOf(a + b, p) == CleanedOf(a, p) + CleanedOf(b, p)
    ensures OutliersOf(a + b, p) == OutliersOf(a, p) + OutliersOf(b, p)
    decreases |b|
  {
    if b == [] {
      assert a + b == a;
    } else {
      var b' := b[..|b| - 1];
      assert (a + b)[..|a + b| - 1] == a + b';
      assert (a + b)[|a + b| - 1] == b[|b| - 1];
      CleanupConcat(a, b', p);
    }
  }

  /** The positions of the records that pass, in increasing order. */
  function CleanPositions(records: seq<CsvSource.RawTransaction>, p: Parsers): seq<nat>
  {
    if records == [] then []
    else
      var last := |records| - 1;
      CleanPositions(records[..last], p) + (if Classify(records[last], p).Cleaned? then [last] else [])
  }

  /** The positions of the records that are rejected, in increasing order. */
  function OutlierPositions(records: seq<CsvSource.RawTransaction>, p: Parsers): seq<nat>
  {
    if records == [] then []
    else
      var last := |records| - 1;
      OutlierPositions(records[..last], p) + (if Classify(records[last], p).Rejected? then [last] else [])
  }

  /** The k-th cleaned transaction comes from the record at the k-th
      increasing position that passes: cleaning keeps the input's relative
      order, and every cleaned volume lies in [0, MaxVolumeThreshold]. */
  lemma {:induction false} CleanedOrder(records: seq<CsvSource.RawTransaction>, p: Parsers)
    ensures var idx := CleanPositions(records, p);
            && |idx| == |CleanedOf(records, p)|
            && (forall k :: 0 <= k < |idx| ==>
                  (idx[k] < |records| && Classify(records[idx[k]], p) == Cleaned(CleanedOf(records, p)[k])))
            && (forall k, l :: 0 <= k < l < |idx| ==> idx[k] < idx[l])
    ensures forall tx :: tx in CleanedOf(records, p) ==> 0.0 <= tx.volume <= MaxVolumeThreshold
    decreases |records|
  {
    if records != [] {
      var init := records[..|records| - 1];
      CleanedOrder(init, p);
      assert forall k :: 0 <= k < |init| ==> init[k] == records[k];
    }
  }

  /** The k-th outlier is the record at the k-th increasing position that is
      rejected, carried unchanged: outliers are emitted in input order. */
  lemma {:induction false} OutliersOrder(records: seq<CsvSource.RawTransaction>, p: Parsers)
    ensures var idx := OutlierPositions(records, p);
            && |idx| == |OutliersOf(records, p)|
            && (forall k :: 0 <= k < |idx| ==>
                  (idx[k] < |records| && OutliersOf(records, p)[k].raw == records[idx[k]]
                   && Classify(records[idx[k]], p) == Rejected(OutliersOf(records, p)[k])))
            && (forall k, l :: 0 <= k < l < |idx| ==> idx[k] < idx[l])
    decreases |records|
  {
    if records != [] {
      var init := records[..|records| - 1];
      OutliersOrder(init, p);
      assert forall k :: 0 <= k < |init| ==> init[k] == records[k];
    }
  }

  /** Each record position is in exactly one of the two position lists. */
  lemma {:induction false} PositionsCover(records: seq<CsvSource.RawTransaction>, p: Parsers, i: nat)
    requires i < |records|
    ensures i in CleanPositions(records, p) <==> Classify(records[i], p).Cleaned?
    ensures i in OutlierPositions(records, p) <==> Classify(records[i], p).Rejected?
    decreases |records|
  {
    var init := records[..|records| - 1];
    PositionsBound(init, p);
    if i < |records| - 1 {
      PositionsCover(init, p, i);
    }
  }

  lemma {:induction false} PositionsBound(records: seq<CsvSource.RawTransaction>, p: Parsers)
    ensures forall k :: k in CleanPositions(records, p) ==> k < |records|
    ensures forall k :: k in OutlierPositions(records, p) ==> k < |records|
    decreases |records|
  {
    if records != [] {
      PositionsBound(records[..|records| - 1], p);
    }
  }

  /** One more record: its classification extends exactly one of the two runs. */
  lemma CleanupStep(records: seq<CsvSource.RawTransaction>, i: nat, p: Parsers)
    requires i < |records|
    ensures var c := Classify(records[i], p);
            && CleanedOf(records[..i + 1], p)
               == CleanedOf(records[..i], p) + (if c.Cleaned? then [c.tx] else [])
            && OutliersOf(records[..i + 1], p)
               == OutliersOf(records[..i], p) + (if c.Rejected? then [c.outlier] else [])
  {
    assert records[..i + 1][..i] == records[..i];
  }

  /** `DoCleanup`: every record of `batch.Data` is classified in order; the
      outliers are sent on `outlierChan` as they are found and the cleaned
      transactions are returned. `batch.Err` is not looked at and no error
      is ever returned. */
  method DoCleanup(batch: CsvSource.MicroBatch, p: Parsers, outlierChan: Channel<Outlier>)
    returns (cleaned: MicroBatch)
    requires !outlierChan.closed
    modifies outlierChan
    ensures !outlierChan.closed
    ensures cleaned == MicroBatch(CleanedOf(batch.data, p), None)
    ensures outlierChan.sent == old(outlierChan.sent) + OutliersOf(batch.data, p)
  {
    var cleanedTransactions: seq<Transaction> := [];
    for i := 0 to |batch.data|
      invariant !outlierChan.closed
      invariant cleanedTransactions == CleanedOf(batch.data[..i], p)
      invariant outlierChan.sent == old(outlierChan.sent) + OutliersOf(batch.data[..i], p)
    {
      var transaction := batch.data[i];
      CleanupStep(batch.data, i, p);
      ghost var c := Classify(transaction, p);
      if c.Rejected? {
        SeqAssoc(old(outlierChan.sent), OutliersOf(batch.data[..i], p), [c.outlier]);
      }
      var parsedTime := p.parseTimestamp(transaction.timestamp);
      if parsedTime.Err? {
        outlierChan.Send(Outlier(InvalidTimestamp(parsedTime.error), transaction));
        continue;
      }
      var numsJson := p.unmarshalNums(transaction.nums);
      if numsJson.Err? {
        outlierChan.Send(Outlier(InvalidNumsJson(numsJson.error), transaction));
        continue;
      }
      var propsJson := p.unmarshalProps(transaction.props);
      if propsJson.Err? {
        outlierChan.Send(Outlier(InvalidPropsJson(propsJson.error), transaction));
        continue;
      }
      var currencyValueDecimal := p.parseFloat(numsJson.value);
      if currencyValueDecimal.Err? {
        outlierChan.Send(Outlier(InvalidVolume(currencyValueDecimal.error), transaction));
        continue;
      }
      var volume := currencyValueDecimal.value;
      if volume < 0.0 || volume > MaxVolumeThreshold {
        outlierChan.Send(Outlier(VolumeOverThreshold(volume), transaction));
        continue;
      }
      cleanedTransactions := cleanedTransactions + [
        Transaction(parsedTime.value, transaction.projectId, propsJson.value, volume)];
    }
    assert batch.data[..|batch.data|] == batch.data;
    return MicroBatch(cleanedTransactions, None);
  }
}
