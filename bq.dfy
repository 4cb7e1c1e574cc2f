/** pkg/sink/bq.go without the BigQuery client: the parsing of a
    `bq://project/dataset/table` URI and the row an aggregate becomes. */
module BigQuerySink {
  import opened Wrappers
  import opened Errors
  import Aggregation

  /** The position of the first `c` in `s`, or `|s|` when there is none
      (Go's `strings.Index`, with "not found" as `|s|`). */
  function IndexOf(s: string, c: char): (i: nat)
    ensures i <= |s|
    ensures i < |s| ==> s[i] == c
    ensures forall k :: 0 <= k < i ==> s[k] != c
  {
    if s == [] then 0
    else if s[0] == c then 0
    else 1 + IndexOf(s[1..], c)
  }

  lemma {:induction false} IndexOfAfter(a: string, b: string, c: char)
    requires forall k :: 0 <= k < |a| ==> a[k] != c
    ensures IndexOf(a + b, c) == |a| + IndexOf(b, c)
  {
    if a == [] {
      assert a + b == b;
    } else {
      assert (a + b)[0] == a[0] && (a + b)[1..] == a[1..] + b;
      IndexOfAfter(a[1..], b, c);
    }
  }

  /** The two parts of a URL this code reads. */
  datatype Url = Url(host: string, path: string)

  /** `url.Parse` on a URI of scheme `bq`: the fragment (from `#`) and the
      query (from `?`) are cut off, the authority runs from after `//` up to
      the first `/`, and the rest is the path. */
  function ParseUrl(uri: string): (u: Url)
    requires "bq://" <= uri
    ensures NoSlash(u.host)
    ensures u.path == [] || u.path[0] == '/'
    ensures NoCut(u.host + u.path)
    ensures "bq://" + u.host + u.path <= uri
  {
    var noFragment := uri[..IndexOf(uri, '#')];
    var noQuery := noFragment[..IndexOf(noFragment, '?')];
    assert uri[..5] == "bq://";
    var rest := noQuery[5..];
    var slash := IndexOf(rest, '/');
    assert NoCut(rest) by {
      forall k | 0 <= k < |rest| ensures rest[k] != '?' && rest[k] != '#' {
        assert rest[k] == noQuery[k + 5] == noFragment[k + 5];
      }
    }
    assert "bq://" + rest <= uri by {
      assert "bq://" + rest == noQuery;
      assert noQuery <= noFragment <= uri;
    }
    var host, path := rest[..slash], rest[slash..];
    assert host + path == rest;
    SeqAssoc("bq://", host, path);
    Url(host, path)
  }

  function TrimLeft(s: string): string
  {
    if s != [] && s[0] == '/' then TrimLeft(s[1..]) else s
  }

  function TrimRight(s: string): string
  {
    if s != [] && s[|s| - 1] == '/' then TrimRight(s[..|s| - 1]) else s
  }

  /** `strings.Trim(s, "/")`: every leading and trailing `/` removed, so the
      result neither starts nor ends with one (`TrimStrips` says what is
      removed). */
  function Trim(s: string): (r: string)
    ensures r == [] || (r[0] != '/' && r[|r| - 1] != '/')
  {
    TrimLeftStart(s);
    TrimRightKeepsStart(TrimLeft(s));
    TrimRight(TrimLeft(s))
  }

  lemma {:induction false} TrimLeftStart(s: string)
    ensures TrimLeft(s) == [] || TrimLeft(s)[0] != '/'
  {
    if s != [] && s[0] == '/' {
      TrimLeftStart(s[1..]);
    }
  }

  lemma {:induction false} TrimRightKeepsStart(s: string)
    requires s == [] || s[0] != '/'
    ensures TrimRight(s) == [] || (TrimRight(s)[0] != '/' && TrimRight(s)[|TrimRight(s)| - 1] != '/')
    ensures TrimRight(s) <= s
  {
    if s != [] && s[|s| - 1] == '/' {
      var s' := s[..|s| - 1];
      TrimRightKeepsStart(s');
      assert TrimRight(s) <= s';
    }
  }

  /** Trimming drops only leading slashes. */
  lemma {:induction false} TrimLeftDrops(s: string)
    ensures |TrimLeft(s)| <= |s| && TrimLeft(s) == s[|s| - |TrimLeft(s)|..]
    ensures forall k :: 0 <= k < |s| - |TrimLeft(s)| ==> s[k] == '/'
  {
    if s != [] && s[0] == '/' {
      TrimLeftDrops(s[1..]);
      assert forall k :: 1 <= k < |s| - |TrimLeft(s)| ==> s[k] == s[1..][k - 1];
    }
  }

  /** Trimming drops only trailing slashes. */
  lemma {:induction false} TrimRightDrops(s: string)
    ensures |TrimRight(s)| <= |s| && TrimRight(s) == s[..|TrimRight(s)|]
    ensures forall k :: |TrimRight(s)| <= k < |s| ==> s[k] == '/'
  {
    if s != [] && s[|s| - 1] == '/' {
      TrimRightDrops(s[..|s| - 1]);
      assert forall k :: |TrimRight(s)| <= k < |s| - 1 ==> s[k] == s[..|s| - 1][k];
    }
  }

  /** `Trim` keeps a slice of `s` and removes only the slashes around it. */
  lemma TrimStrips(s: string)
    ensures exists i :: 0 <= i <= |s| && Trim(s) <= s[i..]
                        && (forall k :: 0 <= k < i ==> s[k] == '/')
                        && (forall k :: i + |Trim(s)| <= k < |s| ==> s[k] == '/')
  {
    var t := TrimLeft(s);
    TrimLeftDrops(s);
    TrimRightDrops(t);
    var r := Trim(s);
    var i := |s| - |t|;
    assert r <= s[i..];
    assert forall k :: i + |r| <= k < |s| ==> s[k] == t[k - i];
  }

  /** `strings.Split(s, "/")`: the pieces between the slashes, so the empty
      string splits into one empty piece. */
  function Split(s: string): (parts: seq<string>)
    ensures parts != []
    ensures forall k :: 0 <= k < |parts| ==> NoSlash(parts[k])
    ensures Join(parts) == s
    decreases |s|
  {
    var i := IndexOf(s, '/');
    if i == |s| then [s]
    else
      var rest := Split(s[i + 1..]);
      var parts := [s[..i]] + rest;
      assert parts[1..] == rest;
      assert s == s[..i] + "/" + s[i + 1..];
      parts
  }

  /** The pieces joined back with `/` (`strings.Join`). */
  function Join(parts: seq<string>): string
    requires parts != []
  {
    if |parts| == 1 then parts[0] else parts[0] + "/" + Join(parts[1..])
  }

  predicate NoSlash(s: string)
  {
    forall k :: 0 <= k < |s| ==> s[k] != '/'
  }

  function SlashCount(s: string): nat
  {
    if s == [] then 0 else SlashCount(s[1..]) + (if s[0] == '/' then 1 else 0)
  }

  lemma {:induction false} SlashCountConcat(a: string, b: string)
    ensures SlashCount(a + b) == SlashCount(a) + SlashCount(b)
  {
    if a == [] {
      assert a + b == b;
    } else {
      assert (a + b)[0] == a[0] && (a + b)[1..] == a[1..] + b;
      SlashCountConcat(a[1..], b);
    }
  }

  /** There is one more piece than there are slashes. */
  lemma {:induction false} SplitLength(s: string)
    ensures |Split(s)| == SlashCount(s) + 1
    decreases |s|
  {
    var i := IndexOf(s, '/');
    if i == |s| {
      NoSlashCount(s);
    } else {
      SplitLength(s[i + 1..]);
      assert s == s[..i] + ("/" + s[i + 1..]);
      SlashCountConcat(s[..i], "/" + s[i + 1..]);
      NoSlashCount(s[..i]);
      assert ("/" + s[i + 1..])[1..] == s[i + 1..];
    }
  }

  lemma {:induction false} NoSlashCount(s: string)
    requires NoSlash(s)
    ensures SlashCount(s) == 0
  {
    if s != [] {
      NoSlashCount(s[1..]);
    }
  }

  /** A string of `n` slashes. */
  function Slashes(n: nat): string
  {
    if n == 0 then "" else Slashes(n - 1) + "/"
  }

  lemma {:induction false} TrimRightSlashes(x: string, n: nat)
    requires x == [] || x[|x| - 1] != '/'
    ensures TrimRight(x + Slashes(n)) == x
  {
    if n == 0 {
      assert x + Slashes(n) == x;
    } else {
      assert (x + Slashes(n))[..|x + Slashes(n)| - 1] == x + Slashes(n - 1);
      TrimRightSlashes(x, n - 1);
    }
  }

  /** The table a sink writes to. */
  datatype BqTable = BqTable(projectId: string, datasetId: string, tableId: string)

  /** `parseBigQueryURI`: the prefix error exactly when `bq://` is missing;
      on success the project is the URL's host and the dataset and the
      table, joined by `/`, are the whole trimmed path. */
  function ParseBigQueryUri(uri: string): (r: Result<BqTable, Error>)
    ensures r == Err(UriMissingScheme) <==> !("bq://" <= uri)
    ensures r.Ok? ==>
              && "bq://" <= uri
              && r.value.projectId == ParseUrl(uri).host
              && r.value.datasetId + "/" + r.value.tableId == Trim(ParseUrl(uri).path)
  {
    if !("bq://" <= uri) then Err(UriMissingScheme)
    else
      var parsed := ParseUrl(uri);
      var parts := Split(Trim(parsed.path));
      if |parts| != 2 then Err(UriBadFormat)
      else
        assert parts[1..] == [parts[1]];
        Ok(BqTable(parsed.host, parts[0], parts[1]))
  }

  /** Holds no `?` and no `#`, the characters that end a URI's path. */
  predicate NoCut(s: string)
  {
    forall k :: 0 <= k < |s| ==> s[k] != '?' && s[k] != '#'
  }

  /** Usable as a segment of the URI. */
  predicate Plain(s: string)
  {
    NoSlash(s) && NoCut(s)
  }

  lemma NoCutConcat(a: string, b: string)
    ensures NoCut(a + b) <==> NoCut(a) && NoCut(b)
  {
    assert forall k :: 0 <= k < |a| ==> (a + b)[k] == a[k];
    assert forall k :: 0 <= k < |b| ==> (a + b)[|a| + k] == b[k];
  }

  lemma {:induction false} SlashesOnly(n: nat)
    ensures forall k :: 0 <= k < |Slashes(n)| ==> Slashes(n)[k] == '/'
    ensures |Slashes(n)| == n
  {
    if n > 0 {
      SlashesOnly(n - 1);
    }
  }

  /** The host and path `url.Parse` gives for `bq://` + host + path, when
      neither holds a `?` or `#`, the host holds no `/` and the path is
      empty or starts with one. */
  lemma ParseUrlOf(host: string, path: string)
    requires Plain(host) && NoCut(path)
    requires path == [] || path[0] == '/'
    ensures ParseUrl("bq://" + host + path) == Url(host, path)
  {
    var uri := "bq://" + host + path;
    NoCutConcat("bq://", host);
    NoCutConcat("bq://" + host, path);
    assert uri[..IndexOf(uri, '#')] == uri;
    assert uri[..IndexOf(uri, '?')] == uri;
    assert uri[5..] == host + path;
    IndexOfAfter(host, path, '/');
    if path == [] {
      assert IndexOf(path, '/') == 0;
    }
    assert (host + path)[..|host|] == host && (host + path)[|host|..] == path;
  }

  /** Trimming a path made of a leading slash, a segment run that neither
      starts nor ends with `/`, and any number of trailing slashes. */
  lemma TrimPath(inner: string, trailing: nat)
    requires inner != [] && inner[0] != '/' && inner[|inner| - 1] != '/'
    ensures Trim("/" + inner + Slashes(trailing)) == inner
  {
    var path := "/" + inner + Slashes(trailing);
    assert path[1..] == inner + Slashes(trailing);
    assert (inner + Slashes(trailing))[0] == inner[0];
    assert TrimLeft(path) == inner + Slashes(trailing);
    TrimRightSlashes(inner, trailing);
  }

  lemma SplitOne(a: string)
    requires NoSlash(a)
    ensures Split(a) == [a]
  {
    assert IndexOf(a, '/') == |a|;
  }

  lemma SplitCons(a: string, rest: string)
    requires NoSlash(a)
    ensures Split(a + "/" + rest) == [a] + Split(rest)
  {
    var s := a + "/" + rest;
    assert s == a + ("/" + rest);
    IndexOfAfter(a, "/" + rest, '/');
    assert ("/" + rest)[0] == '/';
    assert s[..|a|] == a && s[|a| + 1..] == rest;
  }

  lemma SplitTwo(a: string, b: string)
    requires NoSlash(a) && NoSlash(b)
    ensures Split(a + "/" + b) == [a, b]
  {
    SplitCons(a, b);
    SplitOne(b);
  }

  /** Regrouping a concatenation, stated once so that proofs can cite it
      instead of re-deriving it inside a large context. */
  lemma ThreeShape(a: string, b: string, c: string)
    ensures a + "/" + b + "/" + c == a + "/" + (b + "/" + c)
  {
  }

  lemma SplitThree(a: string, b: string, c: string)
    requires NoSlash(a) && NoSlash(b) && NoSlash(c)
    ensures Split(a + "/" + b + "/" + c) == [a, b, c]
  {
    ThreeShape(a, b, c);
    SplitCons(a, b + "/" + c);
    SplitTwo(b, c);
  }

  /** The parse of `bq://` + host + path, for a host and a path as in
      `ParseUrlOf`. */
  lemma ParseBigQueryUriOf(host: string, path: string)
    requires Plain(host) && NoCut(path)
    requires path == [] || path[0] == '/'
    ensures var parts := Split(Trim(path));
            ParseBigQueryUri("bq://" + host + path)
              == if |parts| != 2 then Err(UriBadFormat) else Ok(BqTable(host, parts[0], parts[1]))
  {
    ParseUrlOf(host, path);
  }

  lemma NoCutPath(a: string, sep: string, b: string, n: nat)
    requires NoCut(a) && NoCut(sep) && NoCut(b)
    ensures NoCut("/" + (a + sep + b) + Slashes(n))
  {
    SlashesOnly(n);
    NoCutConcat(a, sep);
    NoCutConcat(a + sep, b);
    NoCutConcat("/", a + sep + b);
    NoCutConcat("/" + (a + sep + b), Slashes(n));
  }

  /** The first and last characters of a + sep + b, for non-empty a and b. */
  lemma Ends(a: string, sep: string, b: string)
    requires a != [] && b != []
    ensures (a + sep + b)[0] == a[0] && (a + sep + b)[|a + sep + b| - 1] == b[|b| - 1]
  {
  }

  /** Regrouping a concatenation, stated once so that proofs can cite it
      instead of re-deriving it inside a large context. */
  lemma UriShape(project: string, dataset: string, sep: string, table: string, tail: string)
    ensures "bq://" + project + "/" + dataset + sep + table + tail
            == "bq://" + project + ("/" + (dataset + sep + table) + tail)
  {
  }

  /** "bq://P/D/T" parses to (P, D, T), also with any number of trailing
      slashes; P may be empty, since the host is not checked. */
  lemma ParseWellFormed(project: string, dataset: string, table: string, trailing: nat)
    requires Plain(project) && Plain(dataset) && Plain(table)
    requires dataset != [] && table != []
    ensures ParseBigQueryUri("bq://" + project + "/" + dataset + "/" + table + Slashes(trailing))
            == Ok(BqTable(project, dataset, table))
  {
    var inner := dataset + "/" + table;
    var path := "/" + inner + Slashes(trailing);
    UriShape(project, dataset, "/", table, Slashes(trailing));
    NoCutPath(dataset, "/", table, trailing);
    Ends(dataset, "/", table);
    TrimPath(inner, trailing);
    SplitTwo(dataset, table);
    ParseBigQueryUriOf(project, path);
  }

  /** An empty segment in the middle counts as a segment:
      "bq://P/D//T" has three and is rejected. */
  lemma ParseEmptySegment(project: string, dataset: string, table: string)
    requires Plain(project) && Plain(dataset) && Plain(table)
    requires dataset != [] && table != []
    ensures ParseBigQueryUri("bq://" + project + "/" + dataset + "//" + table) == Err(UriBadFormat)
  {
    var inner := dataset + "//" + table;
    var path := "/" + inner + Slashes(0);
    UriShape(project, dataset, "//", table, Slashes(0));
    assert "bq://" + project + "/" + dataset + "//" + table + Slashes(0)
        == "bq://" + project + "/" + dataset + "//" + table;
    NoCutPath(dataset, "//", table, 0);
    Ends(dataset, "//", table);
    TrimPath(inner, 0);
    ThreeShape(dataset, "", table);
    assert inner == dataset + "/" + "" + "/" + table;
    SplitThree(dataset, "", table);
    ParseBigQueryUriOf(project, path);
  }

  /** What a successful parse promises: the URI had the `bq://` prefix, and
      the dataset and the table are non-empty and hold no `/`. */
  lemma {:induction false} ParseSound(uri: string)
    ensures ParseBigQueryUri(uri).Ok? ==>
              var t := ParseBigQueryUri(uri).value;
              && "bq://" <= uri
              && t.datasetId != [] && t.tableId != []
              && NoSlash(t.datasetId) && NoSlash(t.tableId)
  {
    if "bq://" <= uri {
      var trimmed := Trim(ParseUrl(uri).path);
      var parts := Split(trimmed);
      if |parts| == 2 {
        assert ParseBigQueryUri(uri) == Ok(BqTable(ParseUrl(uri).host, parts[0], parts[1]));
        assert NoSlash(parts[0]) && NoSlash(parts[1]);
        assert Join(parts) == parts[0] + "/" + parts[1];
        assert trimmed == parts[0] + "/" + parts[1];
        assert trimmed[0] == if parts[0] != [] then parts[0][0] else '/';
        assert trimmed[|trimmed| - 1] == if parts[1] != [] then parts[1][|parts[1]| - 1] else '/';
      }
    }
  }

  /** The schema field names. */
  const FieldDate := "Date"
  const FieldProjectId := "ProjectId"
  const FieldNumberOfTransactions := "NumberOfTransactions"
  const FieldTotalVolumeUsd := "TotalVolumeUsd"

  datatype FieldType = DateField | StringField | IntegerField | FloatField

  datatype Field = Field(name: string, fieldType: FieldType, required: bool)

  /** The table's schema: all four fields required. */
  const Schema: seq<Field> := [
    Field(FieldDate, DateField, true),
    Field(FieldProjectId, StringField, true),
    Field(FieldNumberOfTransactions, IntegerField, true),
    Field(FieldTotalVolumeUsd, FloatField, true)
  ]

  /** A `bigquery.Value` of the kinds a row here holds. */
  datatype Value = StringValue(s: string) | IntValue(i: int) | FloatValue(r: real)

  /** `bigquery.ValuesSaver`: a schema and one row of values. */
  datatype ValuesSaver = ValuesSaver(schema: seq<Field>, row: seq<Value>)

  /** The value an aggregate gives the field of that name, if any. */
  function FieldValue(agg: Aggregation.Agg, name: string): Option<Value>
  {
    if name == FieldDate then Some(StringValue(agg.date))
    else if name == FieldProjectId then Some(StringValue(agg.projectId))
    else if name == FieldNumberOfTransactions then Some(IntValue(agg.numberOfTransactions))
    else if name == FieldTotalVolumeUsd then Some(FloatValue(agg.totalVolumeUsd))
    else None
  }

  /** `aggToRow`: the aggregate's fields in schema order, each position
      holding the value of the field the schema names there; the date goes
      out as its "2006-01-02" string. */
  function AggToRow(agg: Aggregation.Agg): (v: ValuesSaver)
    ensures v.schema == Schema && |v.row| == |Schema|
    ensures forall k :: 0 <= k < |Schema| ==> Some(v.row[k]) == FieldValue(agg, Schema[k].name)
  {
    ValuesSaver(Schema, [
      StringValue(agg.date),
      StringValue(agg.projectId),
      IntValue(agg.numberOfTransactions),
      FloatValue(agg.totalVolumeUsd)
    ])
  }

  /** Reading a row back as an aggregate. */
  function RowToAgg(row: seq<Value>): Option<Aggregation.Agg>
  {
    if |row| == 4 && row[0].StringValue? && row[1].StringValue? && row[2].IntValue? && row[2].i >= 0
       && row[3].FloatValue?
    then Some(Aggregation.Agg(row[0].s, row[1].s, row[2].i, row[3].r))
    else None
  }

  predicate Fits(v: Value, t: FieldType)
  {
    match t
    case DateField => v.StringValue?
    case StringField => v.StringValue?
    case IntegerField => v.IntValue?
    case FloatField => v.FloatValue?
  }

  /** Every value of a row is of its field's kind, and reading the row back
      gives the aggregate again. */
  lemma AggRow(agg: Aggregation.Agg)
    ensures forall k :: 0 <= k < |Schema| ==> Fits(AggToRow(agg).row[k], Schema[k].fieldType)
    ensures RowToAgg(AggToRow(agg).row) == Some(agg)
  {
  }
}
