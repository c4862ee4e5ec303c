/**
 `GET /filter`: the upstream document's `DATA` text is a table, one line per
 row and `|` between cells, whose first line names the columns. Each later
 line becomes a record of its first three cells under the first three
 column names; the records are then filtered by the optional query
 parameters `name`, `nim` and `ymd`.
 */
module FilterProxy {
  import opened Wrappers
  import opened JsString

  /** A parsed line: property name to value, where `None` is a property whose
      value is `undefined` (the line had fewer cells than the column). */
  type Record = map<string, Option<string>>

  /** The lines of the document. */
  function Lines(data: string): (lines: seq<string>)
    ensures |lines| == multiset(data)['\n'] + 1
  {
    SplitCount(data, '\n');
    Split(data, '\n')
  }

  /** The column names: the cells of the first line. */
  function Headers(data: string): (headers: seq<string>)
    ensures |headers| == multiset(Lines(data)[0])['|'] + 1
    ensures SeparatorFree(headers, '|') && SeparatorFree(headers, '\n')
  {
    var first := Lines(data)[0];
    SplitCount(first, '|');
    SplitPiecesSeparatorFree(first, '|');
    SplitPiecesSeparatorFree(data, '\n');
    SplitPiecesStayFree(first, '|', '\n');
    Split(first, '|')
  }

  /** `headers[i]` used as a computed property name: a missing column name
      is `undefined`, which becomes the property name "undefined". */
  function HeaderKey(headers: seq<string>, i: nat): string
  {
    if i < |headers| then headers[i] else "undefined"
  }

  /** `values[i]`: `undefined` past the end of the line. */
  function Cell(values: seq<string>, i: nat): Option<string>
  {
    if i < |values| then Some(values[i]) else None
  }

  /** The object literal built for one line: the three properties are
      written in order, so when two column names coincide the later cell
      wins. Cells after the third are dropped. */
  function ParseRecord(headers: seq<string>, line: string): (rec: Record)
    ensures rec.Keys == {HeaderKey(headers, 0), HeaderKey(headers, 1), HeaderKey(headers, 2)}
  {
    var values := Split(line, '|');
    map[HeaderKey(headers, 0) := Cell(values, 0)]
       [HeaderKey(headers, 1) := Cell(values, 1)]
       [HeaderKey(headers, 2) := Cell(values, 2)]
  }

  /** Every line after the first, in order, as a record; one record per
      newline character in the document. */
  function Parse(data: string): (records: seq<Record>)
    ensures |records| == multiset(data)['\n']
  {
    var lines := Lines(data);
    var headers := Headers(data);
    seq(|lines| - 1, k requires 0 <= k < |lines| - 1 => ParseRecord(headers, lines[k + 1]))
  }

  /** The property named by column `i` holds cell `i` of the line, or
      `undefined` when the line is shorter, unless a later one of the first
      three columns has the same name (then that later cell is kept). */
  lemma RecordField(headers: seq<string>, line: string, i: nat)
    requires i < 3
    requires forall j :: i < j < 3 ==> HeaderKey(headers, j) != HeaderKey(headers, i)
    ensures ParseRecord(headers, line)[HeaderKey(headers, i)] == Cell(Split(line, '|'), i)
  {
  }

  /** A trailing newline adds one more record: the record parsed from an
      empty line. */
  lemma {:induction false} TrailingNewlineAddsRecord(data: string)
    ensures Parse(data + "\n") == Parse(data) + [ParseRecord(Headers(data), "")]
  {
    assert data + "\n" == data + ['\n'] + "";
    SplitAround(data, "", '\n');
    SplitCount(data, '\n');
    assert Lines(data + "\n") == Lines(data) + [""];
    assert Headers(data + "\n") == Headers(data);
  }

  /** The first three cells of a row under the first three column names. */
  function RowRecord(header: seq<string>, row: seq<string>): Record
    requires |header| >= 3 && |row| >= 3
  {
    map[header[0] := Some(row[0]), header[1] := Some(row[1]), header[2] := Some(row[2])]
  }

  /** The lines of a document in the upstream format: the header line, then
      one line per row, cells joined with `|`. */
  function RenderedLines(header: seq<string>, rows: seq<seq<string>>): (lines: seq<string>)
    requires |header| >= 1
    requires forall k :: 0 <= k < |rows| ==> |rows[k]| >= 1
    ensures |lines| == |rows| + 1
  {
    [Join(header, '|')] + seq(|rows|, k requires 0 <= k < |rows| => Join(rows[k], '|'))
  }

  /** The whole document: its lines joined with newlines. */
  function Render(header: seq<string>, rows: seq<seq<string>>): string
    requires |header| >= 1
    requires forall k :: 0 <= k < |rows| ==> |rows[k]| >= 1
  {
    Join(RenderedLines(header, rows), '\n')
  }

  /** Cells with neither separator in them. */
  predicate PlainCells(cells: seq<string>)
  {
    SeparatorFree(cells, '|') && SeparatorFree(cells, '\n')
  }

  /** Splitting a rendered document on newlines gives back its lines. */
  lemma LinesOfRender(header: seq<string>, rows: seq<seq<string>>)
    requires |header| >= 1 && PlainCells(header)
    requires forall k :: 0 <= k < |rows| ==> |rows[k]| >= 1 && PlainCells(rows[k])
    ensures Lines(Render(header, rows)) == RenderedLines(header, rows)
  {
    var lines := RenderedLines(header, rows);
    forall i | 0 <= i < |lines| ensures '\n' !in lines[i] {
      if i == 0 {
        JoinAvoids(header, '|', '\n');
      } else {
        JoinAvoids(rows[i - 1], '|', '\n');
      }
    }
    SplitJoin(lines, '\n');
  }

  /** A rendered row parses back to its first three cells. */
  lemma RecordOfRenderedRow(header: seq<string>, row: seq<string>)
    requires |header| >= 3 && |row| >= 3 && PlainCells(row)
    ensures ParseRecord(header, Join(row, '|')) == RowRecord(header, row)
  {
    SplitJoin(row, '|');
  }

  /** Parsing a well-formed document whose rows have at least three cells
      gives back, row by row and in order, the first three cells under the
      first three column names. */
  lemma {:induction false} ParseRendered(header: seq<string>, rows: seq<seq<string>>)
    requires |header| >= 3 && PlainCells(header)
    requires forall k :: 0 <= k < |rows| ==> |rows[k]| >= 3 && PlainCells(rows[k])
    ensures Parse(Render(header, rows)) ==
            seq(|rows|, k requires 0 <= k < |rows| => RowRecord(header, rows[k]))
  {
    var data := Render(header, rows);
    var lines := RenderedLines(header, rows);
    LinesOfRender(header, rows);
    SplitJoin(header, '|');
    assert Headers(data) == header;
    var parsed := Parse(data);
    assert |parsed| == |rows|;
    forall k | 0 <= k < |rows|
      ensures parsed[k] == RowRecord(header, rows[k])
    {
      assert lines[k + 1] == Join(rows[k], '|');
      RecordOfRenderedRow(header, rows[k]);
    }
  }

  /** The query parameters; an absent one is `None`. */
  datatype Query = Query(name: Option<string>, nim: Option<string>, ymd: Option<string>)

  /** `item[key]`: `undefined` when the record has no such property. */
  function Field(rec: Record, key: string): Option<string>
  {
    if key in rec then rec[key] else None
  }

  /** `item.NAMA || ''`. */
  function NameValue(rec: Record): (name: string)
    ensures name == "" <==> Field(rec, "NAMA") in {None, Some("")}
    ensures name != "" ==> Field(rec, "NAMA") == Some(name)
  {
    match Field(rec, "NAMA")
    case Some(v) => v
    case None => ""
  }

  /** The filter callback: every active filter must pass. `name` is a
      case-insensitive substring test on NAMA; `nim` and `ymd` are strict
      equalities with NIM and YMD. */
  predicate Matches(q: Query, rec: Record)
    ensures !Truthy(q.name) && !Truthy(q.nim) && !Truthy(q.ymd) ==> Matches(q, rec)
    ensures Truthy(q.name) && NameValue(rec) == "" ==> !Matches(q, rec)
    ensures Truthy(q.nim) && Matches(q, rec) ==> Field(rec, "NIM") == q.nim
    ensures Truthy(q.ymd) && Matches(q, rec) ==> Field(rec, "YMD") == q.ymd
  {
    && (Truthy(q.name) ==> Includes(Lower(NameValue(rec)), Lower(q.name.value)))
    && (Truthy(q.nim) ==> Field(rec, "NIM") == q.nim)
    && (Truthy(q.ymd) ==> Field(rec, "YMD") == q.ymd)
  }

  /** `a` is `b` with some elements left out, the rest in the same order. */
  predicate IsSubsequence<T(==)>(a: seq<T>, b: seq<T>)
    decreases |b|
  {
    a == [] ||
    (b != [] && ((a[0] == b[0] && IsSubsequence(a[1..], b[1..])) || IsSubsequence(a, b[1..])))
  }

  /** `records.filter(...)`: the records that match, in their original
      order, each as often as it occurs, and nothing else. */
  function FilterRecords(q: Query, records: seq<Record>): (kept: seq<Record>)
    ensures |kept| <= |records|
    ensures forall x :: x in kept ==> Matches(q, x)
    ensures IsSubsequence(kept, records)
    ensures forall x :: multiset(kept)[x] == if Matches(q, x) then multiset(records)[x] else 0
    decreases |records|
  {
    if records == [] then []
    else
      assert records == [records[0]] + records[1..];
      var rest := FilterRecords(q, records[1..]);
      if Matches(q, records[0]) then
        assert ([records[0]] + rest)[1..] == rest;
        [records[0]] + rest
      else rest
  }

  /** With every filter absent or empty, nothing is filtered out. */
  lemma {:induction false} NoFiltersKeepAll(q: Query, records: seq<Record>)
    requires !Truthy(q.name) && !Truthy(q.nim) && !Truthy(q.ymd)
    ensures FilterRecords(q, records) == records
    decreases |records|
  {
    if records != [] {
      NoFiltersKeepAll(q, records[1..]);
    }
  }

  /** `stronger` keeps every active filter of `weaker` (and may add more). */
  predicate Refines(stronger: Query, weaker: Query)
  {
    && (Truthy(weaker.name) ==> stronger.name == weaker.name)
    && (Truthy(weaker.nim) ==> stronger.nim == weaker.nim)
    && (Truthy(weaker.ymd) ==> stronger.ymd == weaker.ymd)
  }

  /** Adding filters can only shrink the result: what the stronger query
      keeps is a subsequence of what the weaker one keeps. */
  lemma {:induction false} FilterMonotone(stronger: Query, weaker: Query, records: seq<Record>)
    requires Refines(stronger, weaker)
    ensures IsSubsequence(FilterRecords(stronger, records), FilterRecords(weaker, records))
    decreases |records|
  {
    if records != [] {
      FilterMonotone(stronger, weaker, records[1..]);
      var a := FilterRecords(stronger, records[1..]);
      var b := FilterRecords(weaker, records[1..]);
      var x := records[0];
      if Matches(stronger, x) {
        assert ([x] + a)[1..] == a && ([x] + b)[1..] == b;
      } else if Matches(weaker, x) {
        assert ([x] + b)[1..] == b;
      }
    }
  }

  /** The `name` filter ignores letter case: a name and its lower-cased
      form keep the same records. */
  lemma NameFilterIgnoresCase(q: Query, n: string, rec: Record)
    ensures Matches(q.(name := Some(n)), rec) == Matches(q.(name := Some(Lower(n))), rec)
  {
    LowerIdempotent(n);
  }

  /** With only `name` given, a record is kept exactly when the lower-cased
      name occurs somewhere in its lower-cased NAMA. */
  lemma NameOnlyIsSubstringSearch(q: Query, rec: Record)
    requires Truthy(q.name) && !Truthy(q.nim) && !Truthy(q.ymd)
    ensures Matches(q, rec) <==>
            exists i: nat :: OccursAt(Lower(NameValue(rec)), Lower(q.name.value), i)
  {
    IncludesIffOccurs(Lower(NameValue(rec)), Lower(q.name.value));
    assert Matches(q, rec) == Includes(Lower(NameValue(rec)), Lower(q.name.value));
  }

  /** What `fetch` and `response.json()` produced: a failure (network error
      or a body that is not JSON), or an object whose `DATA` property is a
      string or something else (`None`). */
  datatype Upstream = FetchFailed | Envelope(data: Option<string>)

  const FailureText := "Something went wrong!"

  /** `res.json({ filteredData })`, or the plain-text 500 of the catch. */
  datatype FilterResponse = FilteredData(records: seq<Record>) | Failed(status: int, text: string)

  /** The route: any upstream failure, or a `DATA` that is not a string, is a
      plain-text 500; otherwise the parsed and filtered records. */
  function FilterEndpoint(upstream: Upstream, q: Query): (r: FilterResponse)
    ensures r.Failed? <==> !(upstream.Envelope? && upstream.data.Some?)
    ensures r.Failed? ==> r == Failed(500, FailureText)
    ensures r.FilteredData? ==>
              |r.records| <= multiset(upstream.data.value)['\n'] &&
              IsSubsequence(r.records, Parse(upstream.data.value)) &&
              forall x :: x in r.records ==> Matches(q, x)
    ensures r.FilteredData? ==>
              forall x :: multiset(r.records)[x] ==
                          if Matches(q, x) then multiset(Parse(upstream.data.value))[x] else 0
  {
    match upstream
    case FetchFailed => Failed(500, FailureText)
    case Envelope(None) => Failed(500, FailureText)
    case Envelope(Some(data)) => FilteredData(FilterRecords(q, Parse(data)))
  }

  /** Without query parameters the route returns every parsed record. */
  lemma EndpointWithoutFilters(data: string)
    ensures FilterEndpoint(Envelope(Some(data)), Query(None, None, None)) == FilteredData(Parse(data))
  {
    NoFiltersKeepAll(Query(None, None, None), Parse(data));
  }
}
