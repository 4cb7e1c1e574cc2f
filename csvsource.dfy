/** pkg/io/csvsource.go: the micro-batch source. The CSV decoder is outside
    the model: its output is the sequence of records it decoded, in file
    order, and the error it stopped on, if any. */
module CsvSource {
  import opened Wrappers
  import opened Errors
  import opened Channels

  /** One CSV row (the columns the core reads). */
  datatype RawTransaction = RawTransaction(
    timestamp: string, projectId: string, event: string, props: string, nums: string)

  /** `io.MicroBatch`: decoded rows, or the decode error of the stream. */
  datatype MicroBatch = MicroBatch(data: seq<RawTransaction>, err: Option<Error>)

  /** The batch length at which the callback flushes: `len(batch) >= size`
      holds after the first append when the size is 0. */
  function FlushLength(microBatchSize: nat): nat
  {
    if microBatchSize == 0 then 1 else microBatchSize
  }

  /** The batches the callback flushes while decoding `records`. */
  function FullBatches(records: seq<RawTransaction>, n: nat): seq<seq<RawTransaction>>
    requires n >= 1
    decreases |records|
  {
    if |records| < n then [] else [records[..n]] + FullBatches(records[n..], n)
  }

  /** What is left in `batch` when decoding ends. */
  function Leftover(records: seq<RawTransaction>, n: nat): seq<RawTransaction>
    requires n >= 1
    decreases |records|
  {
    if |records| < n then records else Leftover(records[n..], n)
  }

  function AsDataBatches(chunks: seq<seq<RawTransaction>>): (bs: seq<MicroBatch>)
    ensures |bs| == |chunks|
    ensures forall i :: 0 <= i < |bs| ==> bs[i] == MicroBatch(chunks[i], None)
  {
    if chunks == [] then [] else [MicroBatch(chunks[0], None)] + AsDataBatches(chunks[1..])
  }

  /** The error batch sent when the decoder fails. */
  function ErrorBatch(message: string): MicroBatch
  {
    MicroBatch([], Some(CsvReadFailed(message)))
  }

  /** Everything `ReadCSV` sends on its channel, in order: the full batches,
      then the error batch if decoding failed, then the leftover batch if it
      is not empty. */
  function Emitted(records: seq<RawTransaction>, decodeErr: Option<string>, microBatchSize: nat)
    : seq<MicroBatch>
  {
    var n := FlushLength(microBatchSize);
    AsDataBatches(FullBatches(records, n))
    + (if decodeErr.Some? then [ErrorBatch(decodeErr.value)] else [])
    + (if |Leftover(records, n)| > 0 then [MicroBatch(Leftover(records, n), None)] else [])
  }

  /** The records carried by a sequence of batches, in order. */
  function Flatten(batches: seq<MicroBatch>): seq<RawTransaction>
  {
    if batches == [] then [] else Flatten(batches[..|batches| - 1]) + batches[|batches| - 1].data
  }

  function Concat(chunks: seq<seq<RawTransaction>>): seq<RawTransaction>
  {
    if chunks == [] then [] else chunks[0] + Concat(chunks[1..])
  }

  /** Appending one record either completes a batch or grows the leftover. */
  lemma {:induction false} StepOne(prefix: seq<RawTransaction>, r: RawTransaction, n: nat)
    requires n >= 1
    ensures |Leftover(prefix, n)| < n
    ensures |Leftover(prefix, n)| + 1 >= n ==>
              FullBatches(prefix + [r], n) == FullBatches(prefix, n) + [Leftover(prefix, n) + [r]]
              && Leftover(prefix + [r], n) == []
    ensures |Leftover(prefix, n)| + 1 < n ==>
              FullBatches(prefix + [r], n) == FullBatches(prefix, n)
              && Leftover(prefix + [r], n) == Leftover(prefix, n) + [r]
    decreases |prefix|
  {
    var s := prefix + [r];
    if |prefix| < n {
      if |prefix| + 1 >= n {
        assert s[..n] == s && s[n..] == [];
      }
    } else {
      assert s[..n] == prefix[..n] && s[n..] == prefix[n..] + [r];
      StepOne(prefix[n..], r, n);
    }
  }

  lemma {:induction false} FullBatchesConcat(records: seq<RawTransaction>, n: nat)
    requires n >= 1
    ensures Concat(FullBatches(records, n)) + Leftover(records, n) == records
    decreases |records|
  {
    if |records| >= n {
      var head, rest := records[..n], records[n..];
      var c, l := Concat(FullBatches(rest, n)), Leftover(rest, n);
      FullBatchesConcat(rest, n);
      assert Concat(FullBatches(records, n)) == head + c by {
        assert FullBatches(records, n) == [head] + FullBatches(rest, n);
      }
      assert Leftover(records, n) == l;
      SeqAssoc(head, c, l);
      assert records == head + rest;
    }
  }

  lemma {:induction false} FullBatchesSizes(records: seq<RawTransaction>, n: nat)
    requires n >= 1
    ensures forall i :: 0 <= i < |FullBatches(records, n)| ==> |FullBatches(records, n)[i]| == n
    ensures |Leftover(records, n)| < n
    decreases |records|
  {
    if |records| >= n {
      FullBatchesSizes(records[n..], n);
    }
  }

  lemma {:induction false} FullBatchesCount(records: seq<RawTransaction>, n: nat)
    requires n >= 1
    ensures |FullBatches(records, n)| * n + |Leftover(records, n)| == |records|
    decreases |records|
  {
    if |records| >= n {
      var rest := records[n..];
      FullBatchesCount(rest, n);
      var k := |FullBatches(rest, n)|;
      assert |FullBatches(records, n)| == k + 1;
      assert (k + 1) * n == k * n + n;
    }
  }

  lemma {:induction false} FlattenAppend(a: seq<MicroBatch>, b: seq<MicroBatch>)
    ensures Flatten(a + b) == Flatten(a) + Flatten(b)
    decreases |b|
  {
    if b == [] {
      assert a + b == a;
    } else {
      var b' := b[..|b| - 1];
      assert (a + b)[..|a + b| - 1] == a + b';
      FlattenAppend(a, b');
    }
  }

  lemma {:induction false} FlattenDataBatches(chunks: seq<seq<RawTransaction>>)
    ensures Flatten(AsDataBatches(chunks)) == Concat(chunks)
    decreases |chunks|
  {
    if chunks != [] {
      var rest := AsDataBatches(chunks[1..]);
      assert AsDataBatches(chunks) == [MicroBatch(chunks[0], None)] + rest;
      FlattenAppend([MicroBatch(chunks[0], None)], rest);
      FlattenDataBatches(chunks[1..]);
      assert Flatten([MicroBatch(chunks[0], None)]) == chunks[0];
    }
  }

  /** The emitted batches carry exactly the decoded records, in source
      order; the error batch adds none. */
  lemma EmittedRecords(records: seq<RawTransaction>, decodeErr: Option<string>, microBatchSize: nat)
    ensures Flatten(Emitted(records, decodeErr, microBatchSize)) == records
  {
    var n := FlushLength(microBatchSize);
    var full := AsDataBatches(FullBatches(records, n));
    var errs := if decodeErr.Some? then [ErrorBatch(decodeErr.value)] else [];
    var tail := if |Leftover(records, n)| > 0 then [MicroBatch(Leftover(records, n), None)] else [];
    assert Flatten(full + errs) == Concat(FullBatches(records, n)) by {
      FlattenAppend(full, errs);
      FlattenDataBatches(FullBatches(records, n));
      if decodeErr.Some? { assert Flatten(errs) == Flatten([]) + []; }
      assert Concat(FullBatches(records, n)) + [] == Concat(FullBatches(records, n));
    }
    assert Flatten(full + errs + tail) == Concat(FullBatches(records, n)) + Leftover(records, n) by {
      FlattenAppend(full + errs, tail);
      if |Leftover(records, n)| > 0 {
        assert Flatten(tail) == Flatten([]) + Leftover(records, n);
      } else {
        assert Leftover(records, n) == [];
      }
    }
    FullBatchesConcat(records, n);
  }

  lemma EmittedLength(records: seq<RawTransaction>, decodeErr: Option<string>, microBatchSize: nat)
    ensures var n := FlushLength(microBatchSize);
            |Emitted(records, decodeErr, microBatchSize)|
            == |FullBatches(records, n)| + (if decodeErr.Some? then 1 else 0)
               + (if |Leftover(records, n)| > 0 then 1 else 0)
  {
  }

  /** Where each emitted batch comes from: the full batches in order, then
      the error batch if decoding failed, then the leftover if non-empty. */
  lemma EmittedAt(records: seq<RawTransaction>, decodeErr: Option<string>, microBatchSize: nat, i: nat)
    requires i < |Emitted(records, decodeErr, microBatchSize)|
    ensures var out := Emitted(records, decodeErr, microBatchSize);
            var n := FlushLength(microBatchSize);
            var k := |FullBatches(records, n)|;
            var e := if decodeErr.Some? then 1 else 0;
            && (i < k ==> out[i] == MicroBatch(FullBatches(records, n)[i], None))
            && (decodeErr.Some? && i == k ==> out[i] == ErrorBatch(decodeErr.value))
            && (i >= k + e ==> out[i] == MicroBatch(Leftover(records, n), None) && |Leftover(records, n)| > 0)
  {
    var n := FlushLength(microBatchSize);
    var full := AsDataBatches(FullBatches(records, n));
    var errs := if decodeErr.Some? then [ErrorBatch(decodeErr.value)] else [];
    var tail := if |Leftover(records, n)| > 0 then [MicroBatch(Leftover(records, n), None)] else [];
    var out := full + errs + tail;
    assert Emitted(records, decodeErr, microBatchSize) == out;
    if i < |full| {
      assert out[i] == full[i];
    } else if i < |full| + |errs| {
      assert out[i] == errs[i - |full|];
    } else {
      assert out[i] == tail[i - |full| - |errs|];
    }
  }

  /** `m` batches of at most `n` records, all but the last full, hold
      between `(m - 1) * n` (exclusive) and `m * n` records. */
  lemma BatchCountBounds(k: nat, n: nat, left: nat, total: nat, m: nat)
    requires n >= 1 && left < n && k * n + left == total
    requires m == k + (if left > 0 then 1 else 0)
    ensures (m - 1) * n < total <= m * n
  {
    assert (k + 1) * n == k * n + n;
    assert (k - 1) * n == k * n - n;
  }

  /** Shape of the output: the first batches are the full ones, each of
      exactly `FlushLength` records; no data batch is empty or longer than
      that; without a decode error no batch carries an error and there are
      ceil(|records| / FlushLength) batches; with one, exactly the batch after
      the full ones is the error batch, with no data, and at most the
      leftover batch follows it. */
  lemma EmittedShape(records: seq<RawTransaction>, decodeErr: Option<string>, microBatchSize: nat)
    ensures var out := Emitted(records, decodeErr, microBatchSize);
            var n := FlushLength(microBatchSize);
            var k := |FullBatches(records, n)|;
            && k <= |out|
            && (forall i :: 0 <= i < k ==> |out[i].data| == n && out[i].err.None?)
            && (forall i :: 0 <= i < |out| && out[i].err.None? ==> 0 < |out[i].data| <= n)
            && (decodeErr.None? ==>
                  (forall i :: 0 <= i < |out| ==> out[i].err.None?)
                  && (|out| - 1) * n < |records| <= |out| * n)
            && (decodeErr.Some? ==>
                  k < |out| && out[k] == ErrorBatch(decodeErr.value) && |out| <= k + 2
                  && forall i :: 0 <= i < |out| && i != k ==> out[i].err.None?)
  {
    var out := Emitted(records, decodeErr, microBatchSize);
    var n := FlushLength(microBatchSize);
    var k := |FullBatches(records, n)|;
    FullBatchesSizes(records, n);
    EmittedLength(records, decodeErr, microBatchSize);
    forall i | 0 <= i < |out|
      ensures i < k ==> |out[i].data| == n && out[i].err.None?
      ensures out[i].err.None? ==> 0 < |out[i].data| <= n
      ensures i != k || decodeErr.None? ==> out[i].err.None?
    {
      EmittedAt(records, decodeErr, microBatchSize, i);
    }
    if decodeErr.None? {
      FullBatchesCount(records, n);
      BatchCountBounds(k, n, |Leftover(records, n)|, |records|, |out|);
    } else {
      EmittedAt(records, decodeErr, microBatchSize, k);
    }
  }

  /** `ReadCSV` with the producer goroutine run to completion: the callback
      appends each record and flushes a full batch; afterwards the error
      batch and the non-empty leftover batch are sent and the channel is
      closed (the deferred close). The returned error is always nil. */
  method ReadCsv(records: seq<RawTransaction>, decodeErr: Option<string>, microBatchSize: int)
    returns (dataCh: Channel<MicroBatch>, err: Option<Error>)
    requires microBatchSize >= 0
    ensures fresh(dataCh) && dataCh.closed
    ensures dataCh.sent == Emitted(records, decodeErr, microBatchSize)
    ensures err == None
  {
    dataCh := new Channel();
    ghost var n := FlushLength(microBatchSize);
    var batch: seq<RawTransaction> := [];
    var numTransactions := 0;
    for i := 0 to |records|
      invariant !dataCh.closed
      invariant numTransactions == i
      invariant dataCh.sent == AsDataBatches(FullBatches(records[..i], n))
      invariant batch == Leftover(records[..i], n)
    {
      var rt := records[i];
      ghost var prefix := records[..i];
      StepOne(prefix, rt, n);
      assert records[..i + 1] == prefix + [rt];
      numTransactions := numTransactions + 1;
      batch := batch + [rt];
      if |batch| >= microBatchSize {
        assert FullBatches(records[..i + 1], n) == FullBatches(prefix, n) + [batch];
        AsDataBatchesAppend(FullBatches(prefix, n), batch);
        dataCh.Send(MicroBatch(batch, None));
        batch := [];
      } else {
        assert FullBatches(records[..i + 1], n) == FullBatches(prefix, n);
      }
    }
    assert records[..|records|] == records;
    if decodeErr.Some? {
      dataCh.Send(ErrorBatch(decodeErr.value));
    }
    if |batch| > 0 {
      dataCh.Send(MicroBatch(batch, None));
    }
    dataCh.Close();
    err := None;
  }

  lemma AsDataBatchesAppend(chunks: seq<seq<RawTransaction>>, c: seq<RawTransaction>)
    ensures AsDataBatches(chunks + [c]) == AsDataBatches(chunks) + [MicroBatch(c, None)]
  {
  }
}
