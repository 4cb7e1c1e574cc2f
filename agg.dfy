/** pkg/worker/agg.go: grouping a batch of cleaned transactions by (date,
    project) with the currency table, and merging the per-batch results.
    Aggregates are maps keyed by the pair (date, project); the Go code keys
    them by the string `date + "_" + project`, which names the same groups
    (GroupKeyInjective). */
module Aggregation {
  import opened Wrappers
  import opened Errors
  import opened Time
  import Extract
  import CoinGecko

  /** (calendar day, project). */
  type Group = (Date, string)

  /** An aggregate entry: number of transactions and summed USD volume. */
  datatype Totals = Totals(count: nat, volume: real)

  type AggMap = map<Group, Totals>

  /** `worker.Agg`, one row of an aggregate. */
  datatype Agg = Agg(date: string, projectId: string, numberOfTransactions: nat, totalVolumeUsd: real)

  function RowOf(g: Group, t: Totals): Agg
  {
    Agg(FormatDate(g.0), g.1, t.count, t.volume)
  }

  /** The reducer recomputes the Go key from a row's `Date` and `ProjectId`;
      two rows get the same key exactly when they come from the same group,
      so merging the rows by key merges them by group. */
  lemma RowKey(g1: Group, t1: Totals, g2: Group, t2: Totals)
    ensures GroupKey(RowOf(g1, t1).date, RowOf(g1, t1).projectId)
              == GroupKey(RowOf(g2, t2).date, RowOf(g2, t2).projectId)
            <==> g1 == g2
  {
    FormatDateInjective(g1.0, g2.0);
    GroupKeyInjective(FormatDate(g1.0), g1.1, FormatDate(g2.0), g2.1);
  }

  /** `worker.AggResult`: a batch's partial aggregate, or its error. */
  datatype AggResult = AggResult(agg: AggMap, err: Option<Error>)

  function GroupOf(tx: Extract.Transaction): Group
  {
    (DateOf(tx.timestamp), tx.projectId)
  }

  /** The Go map key. */
  function GroupKey(date: string, projectId: string): string
  {
    date + "_" + projectId
  }

  /** With a ten-character date the key determines the pair. */
  lemma GroupKeyInjective(d1: string, p1: string, d2: string, p2: string)
    requires |d1| == 10 && |d2| == 10
    ensures GroupKey(d1, p1) == GroupKey(d2, p2) <==> d1 == d2 && p1 == p2
  {
    if GroupKey(d1, p1) == GroupKey(d2, p2) {
      assert d1 == GroupKey(d1, p1)[..10] && d2 == GroupKey(d2, p2)[..10];
      assert p1 == GroupKey(d1, p1)[11..] && p2 == GroupKey(d2, p2)[11..];
    }
  }

  /** Two transactions share a Go key exactly when they share a group, so
      keying by the pair loses nothing. */
  lemma TransactionKeys(a: Extract.Transaction, b: Extract.Transaction)
    ensures GroupKey(FormatDate(DateOf(a.timestamp)), a.projectId)
              == GroupKey(FormatDate(DateOf(b.timestamp)), b.projectId)
            <==> GroupOf(a) == GroupOf(b)
  {
    var da, db := DateOf(a.timestamp), DateOf(b.timestamp);
    FormatDateInjective(da, db);
    GroupKeyInjective(FormatDate(da), a.projectId, FormatDate(db), b.projectId);
  }

  /** Without the fixed width the key is not injective: for instance the
      dates "a_b" and "a" with projects "c" and "b_c" collide. */
  lemma GroupKeyNeedsFixedWidth()
    ensures GroupKey("a_b", "c") == GroupKey("a", "b_c")
  {
  }

  predicate Supported(txs: seq<Extract.Transaction>, rates: CoinGecko.Currency2Values)
  {
    forall i :: 0 <= i < |txs| ==> txs[i].currencySymbol in rates
  }

  /** The position of the first transaction whose symbol is not in the table. */
  function FirstUnsupported(txs: seq<Extract.Transaction>, rates: CoinGecko.Currency2Values): (i: nat)
    requires !Supported(txs, rates)
    ensures i < |txs| && txs[i].currencySymbol !in rates
    ensures Supported(txs[..i], rates)
  {
    if txs[0].currencySymbol !in rates then 0
    else
      var j := FirstUnsupported(txs[1..], rates);
      assert forall k :: 0 <= k < j ==> txs[1..][..j][k] == txs[k + 1];
      j + 1
  }

  /** The first unknown symbol is the one the loop stops on. */
  lemma {:induction false} FirstUnsupportedAt(txs: seq<Extract.Transaction>, rates: CoinGecko.Currency2Values, i: nat)
    requires i < |txs| && txs[i].currencySymbol !in rates && Supported(txs[..i], rates)
    ensures !Supported(txs, rates) && FirstUnsupported(txs, rates) == i
  {
    if i > 0 {
      assert txs[..i][0] == txs[0];
      assert txs[1..][..i - 1] == txs[..i][1..];
      FirstUnsupportedAt(txs[1..], rates, i - 1);
    }
  }

  /** The number of transactions in group `g`. */
  function Count(txs: seq<Extract.Transaction>, g: Group): nat
  {
    if txs == [] then 0
    else Count(txs[..|txs| - 1], g) + (if GroupOf(txs[|txs| - 1]) == g then 1 else 0)
  }

  /** The sum of rate[symbol] * volume over the transactions of group `g`. */
  function UsdVolume(txs: seq<Extract.Transaction>, g: Group, rates: CoinGecko.Currency2Values): real
    requires Supported(txs, rates)
  {
    if txs == [] then 0.0
    else
      var tx := txs[|txs| - 1];
      UsdVolume(txs[..|txs| - 1], g, rates)
      + (if GroupOf(tx) == g then rates[tx.currencySymbol] * tx.volume else 0.0)
  }

  function Groups(txs: seq<Extract.Transaction>): set<Group>
  {
    set i | 0 <= i < |txs| :: GroupOf(txs[i])
  }

  /** The aggregate of a batch whose symbols are all known: one entry per
      group present, with its count and its USD volume. */
  function AggOf(txs: seq<Extract.Transaction>, rates: CoinGecko.Currency2Values): AggMap
    requires Supported(txs, rates)
  {
    map g | g in Groups(txs) :: Totals(Count(txs, g), UsdVolume(txs, g, rates))
  }

  /** What `DoAgg` computes. */
  function Aggregate(txs: seq<Extract.Transaction>, rates: CoinGecko.Currency2Values): Result<AggMap, Error>
  {
    if Supported(txs, rates) then Ok(AggOf(txs, rates))
    else Err(CurrencyNotSupported(txs[FirstUnsupported(txs, rates)].currencySymbol))
  }

  lemma GroupsSnoc(txs: seq<Extract.Transaction>, tx: Extract.Transaction)
    ensures Groups(txs + [tx]) == Groups(txs) + {GroupOf(tx)}
  {
    var s := txs + [tx];
    forall g | g in Groups(s) ensures g in Groups(txs) + {GroupOf(tx)} {
      var i :| 0 <= i < |s| && GroupOf(s[i]) == g;
      if i < |txs| { assert s[i] == txs[i]; }
    }
    forall g | g in Groups(txs) ensures g in Groups(s) {
      var i :| 0 <= i < |txs| && GroupOf(txs[i]) == g;
      assert s[i] == txs[i];
    }
    assert s[|txs|] == tx;
  }

  /** A group that does not occur has count 0 and volume 0. */
  lemma {:induction false} AbsentGroup(txs: seq<Extract.Transaction>, g: Group, rates: CoinGecko.Currency2Values)
    requires Supported(txs, rates) && g !in Groups(txs)
    ensures Count(txs, g) == 0 && UsdVolume(txs, g, rates) == 0.0
  {
    if txs != [] {
      var init := txs[..|txs| - 1];
      GroupsSnoc(init, txs[|txs| - 1]);
      assert init + [txs[|txs| - 1]] == txs;
      AbsentGroup(init, g, rates);
    }
  }

  lemma SupportedSnoc(txs: seq<Extract.Transaction>, tx: Extract.Transaction, rates: CoinGecko.Currency2Values)
    requires Supported(txs + [tx], rates)
    ensures Supported(txs, rates) && tx.currencySymbol in rates
  {
    assert (txs + [tx])[|txs|] == tx;
    assert forall i :: 0 <= i < |txs| ==> (txs + [tx])[i] == txs[i];
  }

  lemma CountSnoc(txs: seq<Extract.Transaction>, tx: Extract.Transaction, g: Group)
    ensures Count(txs + [tx], g) == Count(txs, g) + (if GroupOf(tx) == g then 1 else 0)
  {
    var s := txs + [tx];
    assert s[..|s| - 1] == txs && s[|s| - 1] == tx;
  }

  lemma UsdVolumeSnoc(txs: seq<Extract.Transaction>, tx: Extract.Transaction, g: Group, rates: CoinGecko.Currency2Values)
    requires Supported(txs + [tx], rates)
    ensures Supported(txs, rates) && tx.currencySymbol in rates
    ensures UsdVolume(txs + [tx], g, rates)
            == UsdVolume(txs, g, rates) + (if GroupOf(tx) == g then rates[tx.currencySymbol] * tx.volume else 0.0)
  {
    SupportedSnoc(txs, tx, rates);
    var s := txs + [tx];
    assert s[..|s| - 1] == txs && s[|s| - 1] == tx;
  }

  /** The aggregate with one more transaction: its group counts one more
      and gains its volume in USD. */
  function AddTo(m: AggMap, tx: Extract.Transaction, rates: CoinGecko.Currency2Values): AggMap
    requires tx.currencySymbol in rates
  {
    var g := GroupOf(tx);
    var before := if g in m then m[g] else Totals(0, 0.0);
    m[g := Totals(before.count + 1, before.volume + rates[tx.currencySymbol] * tx.volume)]
  }

  /** Folding one more transaction into the aggregate: the step of the loop. */
  lemma AggOfSnoc(txs: seq<Extract.Transaction>, tx: Extract.Transaction, rates: CoinGecko.Currency2Values)
    requires Supported(txs + [tx], rates)
    ensures Supported(txs, rates) && tx.currencySymbol in rates
    ensures AggOf(txs + [tx], rates) == AddTo(AggOf(txs, rates), tx, rates)
  {
    SupportedSnoc(txs, tx, rates);
    var s := txs + [tx];
    GroupsSnoc(txs, tx);
    var g := GroupOf(tx);
    var m := AggOf(txs, rates);
    var before := if g in m then m[g] else Totals(0, 0.0);
    var expected := AddTo(m, tx, rates);
    if g !in Groups(txs) {
      AbsentGroup(txs, g, rates);
    }
    var agg := AggOf(s, rates);
    forall h | h in Groups(s)
      ensures agg[h] == expected[h]
    {
      CountSnoc(txs, tx, h);
      UsdVolumeSnoc(txs, tx, h, rates);
    }
    assert agg.Keys == expected.Keys;
  }

  lemma SupportedConcat(x: seq<Extract.Transaction>, y: seq<Extract.Transaction>, rates: CoinGecko.Currency2Values)
    ensures Supported(x + y, rates) <==> Supported(x, rates) && Supported(y, rates)
  {
    assert forall i :: 0 <= i < |x| ==> (x + y)[i] == x[i];
    assert forall i :: 0 <= i < |y| ==> (x + y)[|x| + i] == y[i];
  }

  lemma GroupsConcat(x: seq<Extract.Transaction>, y: seq<Extract.Transaction>)
    ensures Groups(x + y) == Groups(x) + Groups(y)
  {
    var s := x + y;
    forall g | g in Groups(s) ensures g in Groups(x) + Groups(y) {
      var i :| 0 <= i < |s| && GroupOf(s[i]) == g;
      if i < |x| { assert s[i] == x[i]; } else { assert s[i] == y[i - |x|]; }
    }
    forall g | g in Groups(x) + Groups(y) ensures g in Groups(s) {
      if g in Groups(x) {
        var i :| 0 <= i < |x| && GroupOf(x[i]) == g;
        assert s[i] == x[i];
      } else {
        var i :| 0 <= i < |y| && GroupOf(y[i]) == g;
        assert s[|x| + i] == y[i];
      }
    }
  }

  lemma {:induction false} CountConcat(x: seq<Extract.Transaction>, y: seq<Extract.Transaction>, g: Group)
    ensures Count(x + y, g) == Count(x, g) + Count(y, g)
    decreases |y|
  {
    if y == [] {
      assert x + y == x;
    } else {
      var y' := y[..|y| - 1];
      assert (x + y)[..|x + y| - 1] == x + y' && (x + y)[|x + y| - 1] == y[|y| - 1];
      CountConcat(x, y', g);
    }
  }

  lemma {:induction false} UsdVolumeConcat(x: seq<Extract.Transaction>, y: seq<Extract.Transaction>, g: Group, rates: CoinGecko.Currency2Values)
    requires Supported(x + y, rates)
    ensures Supported(x, rates) && Supported(y, rates)
    ensures UsdVolume(x + y, g, rates) == UsdVolume(x, g, rates) + UsdVolume(y, g, rates)
    decreases |y|
  {
    SupportedConcat(x, y, rates);
    if y == [] {
      assert x + y == x;
    } else {
      var y' := y[..|y| - 1];
      assert (x + y)[..|x + y| - 1] == x + y' && (x + y)[|x + y| - 1] == y[|y| - 1];
      SupportedConcat(x, y', rates);
      SupportedConcat(y', [y[|y| - 1]], rates);
      assert y' + [y[|y| - 1]] == y;
      UsdVolumeConcat(x, y', g, rates);
    }
  }

  lemma AggOfConcatAt(x: seq<Extract.Transaction>, y: seq<Extract.Transaction>, rates: CoinGecko.Currency2Values, g: Group)
    requires Supported(x, rates) && Supported(y, rates) && Supported(x + y, rates)
    requires g in Groups(x) || g in Groups(y)
    ensures Totals(Count(x + y, g), UsdVolume(x + y, g, rates)) == Merge(AggOf(x, rates), AggOf(y, rates))[g]
  {
    var mx, my := AggOf(x, rates), AggOf(y, rates);
    CountConcat(x, y, g);
    UsdVolumeConcat(x, y, g, rates);
    if g in Groups(x) && g in Groups(y) {
      assert Merge(mx, my)[g] == Combine(mx[g], my[g]);
    } else if g in Groups(x) {
      AbsentGroup(y, g, rates);
      assert Merge(mx, my)[g] == mx[g];
    } else {
      AbsentGroup(x, g, rates);
      assert Merge(mx, my)[g] == my[g];
    }
  }

  /** Aggregating two runs of transactions one after the other is merging
      their aggregates: the basis for splitting the input into batches. */
  lemma AggOfConcat(x: seq<Extract.Transaction>, y: seq<Extract.Transaction>, rates: CoinGecko.Currency2Values)
    requires Supported(x + y, rates)
    ensures Supported(x, rates) && Supported(y, rates)
    ensures AggOf(x + y, rates) == Merge(AggOf(x, rates), AggOf(y, rates))
  {
    SupportedConcat(x, y, rates);
    var all, merged := AggOf(x + y, rates), Merge(AggOf(x, rates), AggOf(y, rates));
    assert all.Keys == merged.Keys by {
      GroupsConcat(x, y);
    }
    assert forall g :: g in all ==> all[g] == merged[g] by {
      GroupsConcat(x, y);
      forall g | g in Groups(x + y) ensures all[g] == merged[g] {
        AggOfConcatAt(x, y, rates, g);
      }
    }
  }

  /** The update the loop in `DoAgg` writes is `AddTo`. */
  lemma AddToIs(m: AggMap, tx: Extract.Transaction, rates: CoinGecko.Currency2Values, t: Totals)
    requires tx.currencySymbol in rates
    requires var before := if GroupOf(tx) in m then m[GroupOf(tx)] else Totals(0, 0.0);
             t == Totals(before.count + 1, before.volume + rates[tx.currencySymbol] * tx.volume)
    ensures m[GroupOf(tx) := t] == AddTo(m, tx, rates)
  {
    assert AddTo(m, tx, rates)[GroupOf(tx)] == t;
  }

  /** One step of the loop in `DoAgg`: the aggregate of one more
      transaction updates that transaction's group only. */
  lemma AggStep(data: seq<Extract.Transaction>, i: nat, rates: CoinGecko.Currency2Values)
    requires i < |data| && Supported(data[..i + 1], rates)
    ensures Supported(data[..i], rates) && data[i].currencySymbol in rates
    ensures AggOf(data[..i + 1], rates) == AddTo(AggOf(data[..i], rates), data[i], rates)
  {
    assert data[..i + 1] == data[..i] + [data[i]];
    AggOfSnoc(data[..i], data[i], rates);
  }

  /** `DoAgg`: on the first transaction whose symbol is absent from the
      table it fails with no partial aggregate; otherwise it returns one
      entry per (date, project) present, counting that group's transactions
      and summing rate[symbol] * volume over them. The table is only read. */
  method DoAgg(batch: Extract.MicroBatch, currencyValues: CoinGecko.Currency2Values)
    returns (r: Result<AggMap, Error>)
    ensures r == Aggregate(batch.data, currencyValues)
    ensures r.Err? <==> exists i :: 0 <= i < |batch.data| && batch.data[i].currencySymbol !in currencyValues
    ensures r.Ok? ==> r.value.Keys == Groups(batch.data)
    ensures r.Ok? ==> forall g :: g in r.value ==>
              r.value[g] == Totals(Count(batch.data, g), UsdVolume(batch.data, g, currencyValues))
  {
    var aggMap: AggMap := map[];
    for i := 0 to |batch.data|
      invariant Supported(batch.data[..i], currencyValues)
      invariant aggMap == AggOf(batch.data[..i], currencyValues)
    {
      var transaction := batch.data[i];
      if transaction.currencySymbol !in currencyValues {
        FirstUnsupportedAt(batch.data, currencyValues, i);
        return Err(CurrencyNotSupported(transaction.currencySymbol));
      }
      var toUsd := currencyValues[transaction.currencySymbol];
      var volume := toUsd * transaction.volume;
      var key := (DateOf(transaction.timestamp), transaction.projectId);
      var agg := if key in aggMap then aggMap[key] else Totals(0, 0.0);
      agg := Totals(agg.count + 1, agg.volume + volume);
      AggStep(batch.data, i, currencyValues);
      AddToIs(aggMap, transaction, currencyValues, agg);
      aggMap := aggMap[key := agg];
    }
    assert batch.data[..|batch.data|] == batch.data;
    return Ok(aggMap);
  }

  /** Sum of the counts of the entries under `keys`. */
  ghost function SumCounts(m: AggMap, keys: set<Group>): nat
    requires keys <= m.Keys
    decreases keys
  {
    if keys == {} then 0
    else
      var g :| g in keys;
      m[g].count + SumCounts(m, keys - {g})
  }

  lemma {:induction false} SumCountsRemove(m: AggMap, keys: set<Group>, g: Group)
    requires keys <= m.Keys && g in keys
    ensures SumCounts(m, keys) == m[g].count + SumCounts(m, keys - {g})
    decreases keys
  {
    var h :| h in keys && SumCounts(m, keys) == m[h].count + SumCounts(m, keys - {h});
    if h != g {
      SumCountsRemove(m, keys - {h}, g);
      SumCountsRemove(m, keys - {g}, h);
      assert keys - {h} - {g} == keys - {g} - {h};
    }
  }

  lemma {:induction false} SumCountsAgree(m: AggMap, m': AggMap, keys: set<Group>)
    requires keys <= m.Keys && keys <= m'.Keys
    requires forall g :: g in keys ==> m[g].count == m'[g].count
    ensures SumCounts(m, keys) == SumCounts(m', keys)
    decreases keys
  {
    if keys != {} {
      var g :| g in keys;
      SumCountsRemove(m, keys, g);
      SumCountsRemove(m', keys, g);
      SumCountsAgree(m, m', keys - {g});
    }
  }

  /** The counts of a batch's aggregate add up to the batch's length. */
  lemma {:induction false} AggOfTotalCount(txs: seq<Extract.Transaction>, rates: CoinGecko.Currency2Values)
    requires Supported(txs, rates)
    ensures SumCounts(AggOf(txs, rates), AggOf(txs, rates).Keys) == |txs|
    decreases |txs|
  {
    if txs == [] {
      assert AggOf(txs, rates).Keys == {};
    } else {
      var init, tx := txs[..|txs| - 1], txs[|txs| - 1];
      assert init + [tx] == txs;
      AggOfSnoc(init, tx, rates);
      AggOfTotalCount(init, rates);
      SumCountsStep(AggOf(init, rates), AggOf(txs, rates), GroupOf(tx));
    }
  }

  /** Adding one to the count of `g` (a new entry when `g` is absent) adds
      one to the sum of the counts. */
  lemma SumCountsStep(m: AggMap, m': AggMap, g: Group)
    requires m'.Keys == m.Keys + {g}
    requires forall h :: h in m && h != g ==> m'[h].count == m[h].count
    requires m'[g].count == (if g in m then m[g].count else 0) + 1
    ensures SumCounts(m', m'.Keys) == SumCounts(m, m.Keys) + 1
  {
    SumCountsRemove(m', m'.Keys, g);
    SumCountsAgree(m, m', m.Keys - {g});
    if g in m {
      SumCountsRemove(m, m.Keys, g);
      assert m'.Keys - {g} == m.Keys - {g};
    } else {
      assert m'.Keys - {g} == m.Keys;
      assert m.Keys - {g} == m.Keys;
    }
  }

  function Combine(a: Totals, b: Totals): Totals
  {
    Totals(a.count + b.count, a.volume + b.volume)
  }

  /** Key-wise merge of two aggregates. */
  function Merge(acc: AggMap, part: AggMap): AggMap
  {
    map g | g in acc.Keys + part.Keys ::
      if g in acc && g in part then Combine(acc[g], part[g])
      else if g in acc then acc[g] else part[g]
  }

  lemma MergeCommutative(a: AggMap, b: AggMap)
    ensures Merge(a, b) == Merge(b, a)
  {
  }

  lemma MergeAssociative(a: AggMap, b: AggMap, c: AggMap)
    ensures Merge(Merge(a, b), c) == Merge(a, Merge(b, c))
  {
  }

  lemma MergeIdentity(a: AggMap)
    ensures Merge(a, map[]) == a && Merge(map[], a) == a
  {
  }

  /** What `DoAggReducer` returns, folding the results in arrival order:
      the first error result ends the fold. */
  function Reduce(results: seq<AggResult>): Result<AggMap, Error>
  {
    if results == [] then Ok(map[])
    else
      var last := results[|results| - 1];
      match Reduce(results[..|results| - 1])
      case Err(e) => Err(e)
      case Ok(m) =>
        if last.err.Some? then Err(UnableToAggregate(last.err.value)) else Ok(Merge(m, last.agg))
  }

  predicate NoErrors(results: seq<AggResult>)
  {
    forall i :: 0 <= i < |results| ==> results[i].err.None?
  }

  /** The reduce fails exactly when some result carries an error. */
  lemma {:induction false} ReduceFailsIff(results: seq<AggResult>)
    ensures Reduce(results).Err? <==> !NoErrors(results)
  {
    if results != [] {
      var init := results[..|results| - 1];
      ReduceFailsIff(init);
      assert forall i :: 0 <= i < |init| ==> init[i] == results[i];
    }
  }

  /** The first error result decides the outcome, whatever comes after it:
      the results after it are never looked at. */
  lemma {:induction false} ReduceFirstError(results: seq<AggResult>, i: nat, rest: seq<AggResult>)
    requires i < |results| && results[i].err.Some?
    requires NoErrors(results[..i])
    ensures Reduce(results + rest) == Err(UnableToAggregate(results[i].err.value))
    decreases |results + rest|
  {
    var all := results + rest;
    var init := all[..|all| - 1];
    if |all| - 1 == i {
      assert init == results[..i];
      ReduceFailsIff(init);
    } else {
      if |rest| == 0 {
        assert all == results;
        assert init == init[..i + 1] + init[i + 1..];
        assert init[..i] == results[..i];
        ReduceFirstError(init[..i + 1], i, init[i + 1..]);
      } else {
        assert init == results + rest[..|rest| - 1];
        ReduceFirstError(results, i, rest[..|rest| - 1]);
      }
    }
  }

  /** The total count of group `g` over the partial aggregates. */
  function KeyCount(results: seq<AggResult>, g: Group): nat
  {
    if results == [] then 0
    else
      var a := results[|results| - 1].agg;
      KeyCount(results[..|results| - 1], g) + (if g in a then a[g].count else 0)
  }

  /** The total USD volume of group `g` over the partial aggregates. */
  function KeyVolume(results: seq<AggResult>, g: Group): real
  {
    if results == [] then 0.0
    else
      var a := results[|results| - 1].agg;
      KeyVolume(results[..|results| - 1], g) + (if g in a then a[g].volume else 0.0)
  }

  function AllGroups(results: seq<AggResult>): set<Group>
  {
    set i, g | 0 <= i < |results| && g in results[i].agg :: g
  }

  /** Without error results, the reduce has one entry per group present in
      any partial, holding the sums of that group's counts and volumes. */
  lemma {:induction false} ReduceSums(results: seq<AggResult>)
    requires NoErrors(results)
    ensures Reduce(results).Ok?
    ensures Reduce(results).value.Keys == AllGroups(results)
    ensures forall g :: g in Reduce(results).value ==>
              Reduce(results).value[g] == Totals(KeyCount(results, g), KeyVolume(results, g))
  {
    if results != [] {
      var init := results[..|results| - 1];
      var last := results[|results| - 1];
      assert forall i :: 0 <= i < |init| ==> init[i] == results[i];
      ReduceSums(init);
      AllGroupsSnoc(results);
      forall g | g !in AllGroups(init) ensures KeyCount(init, g) == 0 && KeyVolume(init, g) == 0.0 {
        KeyTotalsAbsent(init, g);
      }
    }
  }

  /** The groups of a sequence of partials are those of all but the last,
      together with the last one's. */
  lemma AllGroupsSnoc(results: seq<AggResult>)
    requires results != []
    ensures AllGroups(results) ==
            AllGroups(results[..|results| - 1]) + results[|results| - 1].agg.Keys
  {
    var init := results[..|results| - 1];
    var last := results[|results| - 1];
    forall g | g in AllGroups(results) ensures g in AllGroups(init) + last.agg.Keys {
      var i :| 0 <= i < |results| && g in results[i].agg;
      if i < |init| { assert g in init[i].agg; }
    }
    forall g | g in AllGroups(init) ensures g in AllGroups(results) {
      var i :| 0 <= i < |init| && g in init[i].agg;
      assert g in results[i].agg;
    }
  }

  lemma {:induction false} KeyTotalsAbsent(results: seq<AggResult>, g: Group)
    requires g !in AllGroups(results)
    ensures KeyCount(results, g) == 0 && KeyVolume(results, g) == 0.0
  {
    if results != [] {
      var init := results[..|results| - 1];
      assert g !in results[|results| - 1].agg;
      assert forall i :: 0 <= i < |init| ==> init[i] == results[i];
      assert forall i :: 0 <= i < |init| ==> g !in init[i].agg;
      KeyTotalsAbsent(init, g);
    }
  }

  /** Taking one error-free result out of the middle and merging it last
      gives the same aggregate. */
  lemma {:induction false} ReduceMoveLast(a: seq<AggResult>, x: AggResult, b: seq<AggResult>)
    requires NoErrors(a + [x] + b)
    ensures NoErrors(a + b)
    ensures Reduce(a + [x] + b).Ok? && Reduce(a + b).Ok?
    ensures Reduce(a + [x] + b).value == Merge(Reduce(a + b).value, x.agg)
    decreases |b|
  {
    var s := a + [x] + b;
    assert forall i :: 0 <= i < |a + b| ==> (a + b)[i] == if i < |a| then s[i] else s[i + 1];
    ReduceFailsIff(s);
    ReduceFailsIff(a + b);
    if b == [] {
      assert s[..|s| - 1] == a && a + b == a;
    } else {
      var b', y := b[..|b| - 1], b[|b| - 1];
      assert s[..|s| - 1] == a + [x] + b' && s[|s| - 1] == y;
      assert (a + b)[..|a + b| - 1] == a + b' && (a + b)[|a + b| - 1] == y;
      assert forall i :: 0 <= i < |a + [x] + b'| ==> (a + [x] + b')[i] == s[i];
      ReduceMoveLast(a, x, b');
      var r := Reduce(a + b').value;
      MergeAssociative(r, x.agg, y.agg);
      MergeCommutative(x.agg, y.agg);
      MergeAssociative(r, y.agg, x.agg);
    }
  }

  lemma MultisetCancel<T>(s: seq<T>, x: T, a: seq<T>, b: seq<T>)
    requires multiset(s + [x]) == multiset(a + [x] + b)
    ensures multiset(s) == multiset(a + b)
  {
    assert multiset(s + [x]) == multiset(s) + multiset{x};
    assert multiset(a + [x] + b) == multiset(a) + multiset{x} + multiset(b);
    assert multiset(a + b) == multiset(a) + multiset(b);
    forall y ensures multiset(s)[y] == multiset(a + b)[y] {
      assert multiset(s + [x])[y] == multiset(a + [x] + b)[y];
    }
  }

  /** Without error results, the reduce does not depend on the order in
      which the results arrive. */
  lemma {:induction false} ReducePermutation(results: seq<AggResult>, arrived: seq<AggResult>)
    requires multiset(results) == multiset(arrived)
    requires NoErrors(results)
    ensures Reduce(arrived) == Reduce(results)
    decreases |results|
  {
    if results == [] {
      assert |arrived| == |multiset(arrived)| == 0;
    } else {
      var init, x := results[..|results| - 1], results[|results| - 1];
      assert results == init + [x];
      assert x in multiset(arrived);
      var j :| 0 <= j < |arrived| && arrived[j] == x;
      var a, b := arrived[..j], arrived[j + 1..];
      assert arrived == a + [x] + b;
      MultisetCancel(init, x, a, b);
      assert forall i :: 0 <= i < |init| ==> init[i] == results[i];
      assert NoErrors(arrived) by {
        forall i | 0 <= i < |arrived| ensures arrived[i].err.None? {
          assert arrived[i] in multiset(results);
        }
      }
      ReducePermutation(init, a + b);
      ReduceMoveLast(a, x, b);
      ReduceFailsIff(init);
    }
  }

  function Restrict(m: AggMap, keys: set<Group>): AggMap
  {
    map g | g in keys && g in m :: m[g]
  }

  /** Merging one more entry of a partial into the accumulator. */
  lemma MergeStep(acc: AggMap, part: AggMap, done: set<Group>, key: Group)
    requires key in part && key !in done
    ensures var m := Merge(acc, Restrict(part, done));
            Merge(acc, Restrict(part, done + {key}))
              == m[key := if key in m then Combine(m[key], part[key]) else part[key]]
  {
    var m := Merge(acc, Restrict(part, done));
    assert key in m <==> key in acc;
    assert key in m ==> m[key] == acc[key];
  }

  lemma RestrictAll(m: AggMap)
    ensures Restrict(m, m.Keys) == m
  {
  }

  /** One more error-free result is merged into the reduce so far. */
  lemma ReduceStep(results: seq<AggResult>, i: nat, before: AggMap)
    requires i < |results| && results[i].err.None?
    requires Reduce(results[..i]) == Ok(before)
    ensures Reduce(results[..i + 1]) == Ok(Merge(before, results[i].agg))
  {
    assert results[..i + 1][..i] == results[..i];
  }

  /** An error result after an error-free prefix decides the whole reduce. */
  lemma ReduceStopsAt(results: seq<AggResult>, i: nat)
    requires i < |results| && results[i].err.Some?
    requires Reduce(results[..i]).Ok?
    ensures Reduce(results) == Err(UnableToAggregate(results[i].err.value))
  {
    ReduceFailsIff(results[..i]);
    assert results[..i + 1][..i] == results[..i];
    ReduceFirstError(results[..i + 1], i, results[i + 1..]);
    assert results[..i + 1] + results[i + 1..] == results;
  }

  /** `DoAggReducer`: results are read in arrival order; the first one that
      carries an error aborts with that error wrapped and no aggregate;
      otherwise every partial's entries are merged key by key (in whatever
      order the partial's entries come). */
  method DoAggReducer(in_: seq<AggResult>) returns (r: Result<AggMap, Error>)
    ensures r == Reduce(in_)
  {
    var aggMap: AggMap := map[];
    for i := 0 to |in_|
      invariant Reduce(in_[..i]) == Ok(aggMap)
    {
      var result := in_[i];
      if result.err.Some? {
        ReduceStopsAt(in_, i);
        return Err(UnableToAggregate(result.err.value));
      }
      ghost var before := aggMap;
      var pending := result.agg.Keys;
      while pending != {}
        invariant pending <= result.agg.Keys
        invariant aggMap == Merge(before, Restrict(result.agg, result.agg.Keys - pending))
        decreases pending
      {
        var key :| key in pending;
        MergeStep(before, result.agg, result.agg.Keys - pending, key);
        assert result.agg.Keys - pending + {key} == result.agg.Keys - (pending - {key});
        var agg := result.agg[key];
        if key !in aggMap {
          aggMap := aggMap[key := agg];
        } else {
          var existingAgg := aggMap[key];
          aggMap := aggMap[key := Totals(existingAgg.count + agg.count, existingAgg.volume + agg.volume)];
        }
        pending := pending - {key};
      }
      assert result.agg.Keys - pending == result.agg.Keys;
      RestrictAll(result.agg);
      ReduceStep(in_, i, before);
    }
    assert in_[..|in_|] == in_;
    return Ok(aggMap);
  }
}
