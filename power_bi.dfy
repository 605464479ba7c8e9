/**
 * The EXPORT_TO_POWERBI step: the Data input is parsed as JSON, or as CSV,
 * TSV or plain lines when that fails; the records are reshaped for the
 * chart type, stamped with Power BI metadata, turned into a CSV whose header
 * is the union of all record keys, and stored for download.
 *
 * The runtime's services are parameters collected in `Host`: `JSON.parse`,
 * `JSON.stringify`, the `Number` conversion of texts, `Math.random` draws,
 * the clock, the generated file id and the Power BI template text.
 */
module ExportToPowerBi {
  import opened Common
  import opened Strings
  import opened Json
  import opened ExecutorIo
  import opened CsvText
  import opened AppGraph
  import opened InsertionOrder
  import opened FileStorage

  datatype Host = Host(
    parse: string -> Option<Value>,
    stringify: Value -> string,
    /** `Number(text)` for integral results; `None` stands for NaN or a fraction. */
    numberOf: string -> Option<int>,
    /** The `Math.random()`-based value drawn for a field of record `i`. */
    draw: (nat, string) -> Value,
    /** The ISO date (day part) of `Date.now()` minus the given number of days. */
    dayBefore: int -> string,
    clock: int,
    isoNow: string,
    fileId: string,
    /** `generatePowerBITemplate(chartType, recordCount, fileName)`. */
    template: (string, nat, string) -> string)

  const DataMissing: string := "input -> Data is not defined"
  const ChartMissing: string := "input -> Chart Type is not defined"
  const FailurePrefix: string := "\U{274C} Power BI export failed: "

  // ---------------------------------------------------------------------
  // optimizeDataForChart

  datatype Chart = Bar | Pie | Line | Scatter | Table | Plain

  /** The `switch (chartType.toLowerCase())` arms. */
  function ChartKind(chartType: string): (r: Chart)
    ensures var t := Lower(chartType);
      && (r == Bar <==> t == "bar" || t == "column")
      && (r == Pie <==> t == "pie" || t == "doughnut")
      && (r == Line <==> t == "line" || t == "area" || t == "trend")
      && (r == Scatter <==> t == "scatter")
      && (r == Table <==> t == "table" || t == "matrix")
  {
    var t := Lower(chartType);
    if t == "bar" || t == "column" then Bar
    else if t == "pie" || t == "doughnut" then Pie
    else if t == "line" || t == "area" || t == "trend" then Line
    else if t == "scatter" then Scatter
    else if t == "table" || t == "matrix" then Table
    else Plain
  }

  /** The arms that call `Object.keys(item)` and so throw on `undefined` and `null` items. */
  predicate Keyed(chart: Chart) {
    chart == Bar || chart == Pie || chart == Line || chart == Scatter
  }

  /** `Number(v)`; `None` stands for NaN. */
  function ToNumber(v: Value, numberOf: string -> Option<int>): Option<int> {
    match v
    case JUndefined => None
    case JNull => Some(0)
    case JBool(b) => Some(if b then 1 else 0)
    case JNum(n) => Some(n)
    case _ => numberOf(ToStr(v))
  }

  /** `Number(v) || d`. */
  function NumberOr(v: Value, numberOf: string -> Option<int>, d: int): (r: int)
    ensures v.JNum? && v.n != 0 ==> r == v.n
  {
    var n := ToNumber(v, numberOf);
    if n.Some? && n.value != 0 then n.value else d
  }

  /** `item[keys[k]]`: past the end `keys[k]` is `undefined`, which reads the property "undefined". */
  function KeyAt(keys: seq<string>, k: nat): string {
    if k < |keys| then keys[k] else "undefined"
  }

  /** `a || b || c || d`. */
  function FirstTruthy(a: Value, b: Value, c: Value, d: Value): (r: Value)
    ensures Truthy(a) ==> r == a
    ensures !Truthy(a) && !Truthy(b) && !Truthy(c) ==> r == d
  {
    Or(Or(Or(a, b), c), d)
  }

  /** `{...literal, ...item}` with the literal's keys written first. */
  function Over(literal: Fields, item: Value): (r: Value)
    ensures r.JObj?
  {
    JObj(PutAll(literal, OwnFields(item)))
  }

  /** `item[keys[0]] || item.text || item.name || fallback`: the bar category and pie label. */
  function Heading(item: Value, fallback: string): (r: Value)
    requires !Nullish(item)
    ensures Truthy(Get(item, KeyAt(Keys(OwnFields(item)), 0))) ==> r == Get(item, KeyAt(Keys(OwnFields(item)), 0))
    ensures !Truthy(Get(item, KeyAt(Keys(OwnFields(item)), 0))) && !Truthy(Get(item, "text")) && !Truthy(Get(item, "name"))
      ==> r == JStr(fallback)
  {
    FirstTruthy(Get(item, KeyAt(Keys(OwnFields(item)), 0)), Get(item, "text"), Get(item, "name"), JStr(fallback))
  }

  /** `Number(item[keys[1]] || item.value || item.count || alt) || d`: the bar, pie and line value. */
  function Amount(item: Value, alt: int, d: int, numberOf: string -> Option<int>): (r: Value)
    requires !Nullish(item)
    ensures r.JNum?
    ensures var second := Get(item, KeyAt(Keys(OwnFields(item)), 1));
      second.JNum? && second.n != 0 ==> r == second
  {
    JNum(NumberOr(FirstTruthy(Get(item, KeyAt(Keys(OwnFields(item)), 1)), Get(item, "value"), Get(item, "count"), JNum(alt)), numberOf, d))
  }

  /** The fields a keyed arm writes before spreading the item over them. */
  function KeyedLiteral(chart: Chart, item: Value, i: nat, n: nat, host: Host): (r: Fields)
    requires Keyed(chart) && !Nullish(item)
  {
    var keys := Keys(OwnFields(item));
    match chart
    case Bar =>
      [("category", Heading(item, "Item " + NatToString(i + 1))),
       ("value", Amount(item, i + 1, 0, host.numberOf))]
    case Pie =>
      [("label", Heading(item, "Segment " + NatToString(i + 1))),
       ("value", Amount(item, 1, 1, host.numberOf))]
    case Line =>
      [("date", FirstTruthy(Get(item, KeyAt(keys, 0)), Get(item, "date"), Get(item, "time"), JStr(host.dayBefore(n - i)))),
       ("value", Amount(item, i, 0, host.numberOf)),
       ("trend_period", JStr("Period_" + NatToString(i / 7 + 1))),
       ("moving_average", host.draw(i, "moving_average"))]
    case Scatter =>
      [("x_value", JNum(NumberOr(Or(Or(Get(item, KeyAt(keys, 0)), Get(item, "x")), host.draw(i, "x_value")), host.numberOf, 0))),
       ("y_value", JNum(NumberOr(Or(Or(Get(item, KeyAt(keys, 1)), Get(item, "y")), host.draw(i, "y_value")), host.numberOf, 0))),
       ("size", JNum(NumberOr(Or(Or(Get(item, "size"), Get(item, "value")), JNum(5)), host.numberOf, 5))),
       ("color_group", JStr("Group_" + NatToString(i % 4 + 1)))]
  }

  /** One record reshaped for a chart that reads `Object.keys(item)`. */
  function KeyedShape(chart: Chart, item: Value, i: nat, n: nat, host: Host): (r: Value)
    requires Keyed(chart) && !Nullish(item)
    ensures r.JObj?
  {
    Over(KeyedLiteral(chart, item, i, n, host), item)
  }

  /** The table/matrix arm: a text becomes `{text}`, anything else is kept. */
  function TableShape(item: Value): Value {
    if item.JStr? then JObj([("text", item)]) else item
  }

  /** The default arm: a text becomes `{id, text, value}`, anything else `{id, ...item}`. */
  function PlainShape(item: Value, i: nat): (r: Value)
    ensures r.JObj?
  {
    if item.JStr? then JObj([("id", JNum(i + 1)), ("text", item), ("value", JNum(i + 1))])
    else Over([("id", JNum(i + 1))], item)
  }

  function Shape(chart: Chart, item: Value, i: nat, n: nat, host: Host): Value
    requires Keyed(chart) ==> !Nullish(item)
  {
    if Keyed(chart) then KeyedShape(chart, item, i, n, host)
    else if chart == Table then TableShape(item)
    else PlainShape(item, i)
  }

  /** `optimizeDataForChart(data, chartType)`. */
  function OptimizeDataForChart(data: Value, chartType: string, host: Host): (r: Result<seq<Value>>)
    ensures !data.JArr? || data.items == [] ==> r == Ok([])
    ensures data.JArr? && r.Ok? ==> |r.value| == |data.items|
    ensures r.Err? <==> (data.JArr? && Keyed(ChartKind(chartType))
                         && exists i :: 0 <= i < |data.items| && Nullish(data.items[i]))
  {
    if !data.JArr? || data.items == [] then Ok([])
    else
      var items := data.items;
      var chart := ChartKind(chartType);
      if Keyed(chart) && exists i :: 0 <= i < |items| && Nullish(items[i]) then Err(TypeErrorMessage)
      else Ok(seq(|items|, i requires 0 <= i < |items| => Shape(chart, items[i], i, |items|, host)))
  }

  /** Table and matrix charts turn each text into `{text}` and keep every other item as it is. */
  lemma TableItems(items: seq<Value>, chartType: string, host: Host, i: nat)
    requires items != [] && i < |items| && ChartKind(chartType) == Table
    ensures OptimizeDataForChart(JArr(items), chartType, host).Ok?
    ensures OptimizeDataForChart(JArr(items), chartType, host).value[i]
      == if items[i].JStr? then JObj([("text", items[i])]) else items[i]
  {
  }

  /**
   * The default arm numbers items from 1: a text becomes `{id, text, value}`
   * with `id = value = i + 1`, anything else gets `id = i + 1` unless it has
   * its own `id`, and keeps all its own fields.
   */
  lemma PlainItems(items: seq<Value>, chartType: string, host: Host, i: nat, k: string)
    requires items != [] && i < |items| && ChartKind(chartType) == Plain
    ensures OptimizeDataForChart(JArr(items), chartType, host).Ok?
    ensures var out := OptimizeDataForChart(JArr(items), chartType, host).value[i];
      && (items[i].JStr? ==> out == JObj([("id", JNum(i + 1)), ("text", items[i]), ("value", JNum(i + 1))]))
      && (!items[i].JStr? ==>
            Get(out, k) == if LastValue(OwnFields(items[i]), k).Some? then LastValue(OwnFields(items[i]), k).value
                           else if k == "id" then JNum(i + 1) else JUndefined)
  {
    assert OptimizeDataForChart(JArr(items), chartType, host).value[i] == PlainShape(items[i], i);
    if !items[i].JStr? {
      SpreadId(items[i], i, k);
    }
  }

  lemma SpreadId(item: Value, i: nat, k: string)
    ensures Get(Over([("id", JNum(i + 1))], item), k)
      == if LastValue(OwnFields(item), k).Some? then LastValue(OwnFields(item), k).value
         else if k == "id" then JNum(i + 1) else JUndefined
  {
    LookupPutAll([("id", JNum(i + 1))], OwnFields(item), k);
  }

  /** In the keyed arms the item's own fields override the computed ones. */
  lemma KeyedOwnFieldsWin(chart: Chart, item: Value, i: nat, n: nat, host: Host, k: string)
    requires Keyed(chart) && !Nullish(item)
    requires LastValue(OwnFields(item), k).Some?
    ensures Get(KeyedShape(chart, item, i, n, host), k) == LastValue(OwnFields(item), k).value
  {
    OwnFieldWins(KeyedLiteral(chart, item, i, n, host), item, k);
  }

  lemma OwnFieldWins(literal: Fields, item: Value, k: string)
    requires LastValue(OwnFields(item), k).Some?
    ensures Get(Over(literal, item), k) == LastValue(OwnFields(item), k).value
  {
    LookupPutAll(literal, OwnFields(item), k);
  }

  /** A bar chart's category and value are the computed ones unless the item has its own. */
  lemma BarFields(item: Value, i: nat, n: nat, host: Host)
    requires !Nullish(item)
    ensures LastValue(OwnFields(item), "category").None? ==>
      Get(KeyedShape(Bar, item, i, n, host), "category") == Heading(item, "Item " + NatToString(i + 1))
    ensures LastValue(OwnFields(item), "value").None? ==>
      Get(KeyedShape(Bar, item, i, n, host), "value") == Amount(item, i + 1, 0, host.numberOf)
  {
    var category := Heading(item, "Item " + NatToString(i + 1));
    var value := Amount(item, i + 1, 0, host.numberOf);
    var literal := [("category", category), ("value", value)];
    assert KeyedLiteral(Bar, item, i, n, host) == literal;
    if LastValue(OwnFields(item), "category").None? {
      LiteralFieldWins(literal, item, 0, "category");
    }
    if LastValue(OwnFields(item), "value").None? {
      assert "category"[0] != "value"[0];
      LiteralFieldWins(literal, item, 1, "value");
    }
  }

  /** A key the item lacks reads the first literal field of that name. */
  lemma LiteralFieldWins(literal: Fields, item: Value, j: nat, k: string)
    requires j < |literal| && literal[j].0 == k
    requires forall i :: 0 <= i < j ==> literal[i].0 != k
    requires LastValue(OwnFields(item), k).None?
    ensures Get(Over(literal, item), k) == literal[j].1
  {
    LookupPutAll(literal, OwnFields(item), k);
    LookupAt(literal, j, k);
  }

  // ---------------------------------------------------------------------
  // convertToCSV

  /** The keys `convertToCSV` collects from one row: an object's or array's own keys, none otherwise. */
  function RowKeys(row: Value): (r: seq<string>)
    ensures !(row.JObj? || row.JArr?) ==> r == []
  {
    if row.JObj? || row.JArr? then Keys(OwnFields(row)) else []
  }

  /** The key list of each row, in row order. */
  function KeyLists(rows: seq<Value>): (r: seq<seq<string>>)
    ensures |r| == |rows|
    ensures forall i :: 0 <= i < |rows| ==> r[i] == RowKeys(rows[i])
  {
    seq(|rows|, i requires 0 <= i < |rows| => RowKeys(rows[i]))
  }

  /** The header `convertToCSV` builds: the rows' keys in first-appearance order. */
  function Headers(rows: seq<Value>): seq<string> {
    Order(Concat(KeyLists(rows)))
  }

  /** The `headers` set after the `forEach` over the rows and each row's keys. */
  method CollectHeaders(rows: seq<Value>) returns (headers: seq<string>)
    ensures headers == Headers(rows)
  {
    var lists := KeyLists(rows);
    headers := [];
    var i := 0;
    while i < |rows|
      invariant 0 <= i <= |rows|
      invariant headers == Order(Concat(lists[..i]))
    {
      var seen := Concat(lists[..i]);
      var keys := RowKeys(rows[i]);
      var j := 0;
      assert seen + keys[..j] == seen;
      while j < |keys|
        invariant 0 <= j <= |keys|
        invariant headers == Order(seen + keys[..j])
      {
        HeaderStep(seen, keys, j);
        if keys[j] !in headers {
          headers := headers + [keys[j]];
        }
        j := j + 1;
      }
      RowStep(lists, i);
      assert keys[..j] == lists[i];
      i := i + 1;
    }
    assert lists[..i] == lists;
  }

  lemma HeaderStep(seen: seq<string>, keys: seq<string>, j: nat)
    requires j < |keys|
    ensures Order(seen + keys[..j + 1])
      == if keys[j] in Order(seen + keys[..j]) then Order(seen + keys[..j]) else Order(seen + keys[..j]) + [keys[j]]
  {
    OrderAppend(seen + keys[..j], keys[j]);
    assert (seen + keys[..j]) + [keys[j]] == seen + keys[..j + 1];
  }

  lemma RowStep(lists: seq<seq<string>>, i: nat)
    requires i < |lists|
    ensures Concat(lists[..i + 1]) == Concat(lists[..i]) + lists[i]
  {
    assert lists[..i + 1][..i] == lists[..i];
  }

  /** `row[header] || ''`, then objects as JSON text and texts quoted when needed. */
  function CsvCell(v: Value, stringify: Value -> string): (r: Value)
    ensures !Truthy(v) ==> r == JStr("")
    ensures v.JStr? && v.s != "" && NeedsQuotes(v.s) ==> r.JStr? && Unquote(r.s) == Some(v.s)
    ensures (v.JObj? || v.JArr?) ==> r == JStr(stringify(v))
  {
    var w := Or(v, JStr(""));
    if w.JArr? || w.JObj? then JStr(stringify(w))
    else if w.JStr? && NeedsQuotes(w.s) then UnquoteQuote(w.s); JStr(Quote(w.s))
    else w
  }

  /** One data line; reading a field of `undefined` or `null` throws as soon as there is a header. */
  function CsvLine(row: Value, headers: seq<string>, stringify: Value -> string): (r: Result<string>)
    ensures r.Err? <==> Nullish(row) && headers != []
  {
    if headers == [] then Ok("")
    else if Nullish(row) then Err(TypeErrorMessage)
    else Ok(JoinValues(seq(|headers|, j requires 0 <= j < |headers| => CsvCell(Get(row, headers[j]), stringify)), ","))
  }

  function CsvLines(rows: seq<Value>, headers: seq<string>, stringify: Value -> string): (r: Result<seq<string>>)
    ensures r.Ok? ==> (|r.value| == |rows|
      && forall i :: 0 <= i < |rows| ==> CsvLine(rows[i], headers, stringify) == Ok(r.value[i]))
    ensures r.Err? ==> exists i :: 0 <= i < |rows| && CsvLine(rows[i], headers, stringify).Err?
  {
    if rows == [] then Ok([])
    else
      var first := CsvLine(rows[0], headers, stringify);
      var rest := CsvLines(rows[1..], headers, stringify);
      assert forall i :: 1 <= i < |rows| ==> rows[1..][i - 1] == rows[i];
      if first.Err? then Err(first.error)
      else if rest.Err? then Err(rest.error)
      else Ok([first.value] + rest.value)
  }

  /** `convertToCSV(data)`: '' for no rows, else the header line and one line per row, joined by newlines. */
  function CsvOf(rows: seq<Value>, stringify: Value -> string): (r: Result<string>)
    ensures rows == [] ==> r == Ok("")
  {
    if rows == [] then Ok("")
    else
      var headers := Headers(rows);
      var lines := CsvLines(rows, headers, stringify);
      if lines.Err? then Err(lines.error)
      else Ok(Join([Join(headers, ",")] + lines.value, "\n"))
  }

  method ConvertToCsv(rows: seq<Value>, stringify: Value -> string) returns (r: Result<string>)
    ensures r == CsvOf(rows, stringify)
  {
    if rows == [] {
      return Ok("");
    }
    var headers := CollectHeaders(rows);
    var lines := CsvLines(rows, headers, stringify);
    if lines.Err? {
      return Err(lines.error);
    }
    return Ok(Join([Join(headers, ",")] + lines.value, "\n"));
  }

  /**
   * The header holds each key some object or array row has, exactly once,
   * and the keys of earlier rows come before the keys first seen later.
   */
  lemma HeaderColumns(rows: seq<Value>, k: string, n: nat)
    requires n <= |rows|
    ensures k in Headers(rows) <==> exists i :: 0 <= i < |rows| && k in RowKeys(rows[i])
    ensures Distinct(Headers(rows))
    ensures |Headers(rows[..n])| <= |Headers(rows)| && Headers(rows)[..|Headers(rows[..n])|] == Headers(rows[..n])
  {
    var lists := KeyLists(rows);
    var early := KeyLists(rows[..n]);
    assert early == lists[..n];
    OrderConcat(lists, n, k);
    ListsHaveKey(rows, lists, k);
  }

  lemma ListsHaveKey(rows: seq<Value>, lists: seq<seq<string>>, k: string)
    requires lists == KeyLists(rows)
    ensures (exists i :: 0 <= i < |lists| && k in lists[i]) <==> exists i :: 0 <= i < |rows| && k in RowKeys(rows[i])
  {
  }

  // ---------------------------------------------------------------------
  // Text that is not JSON

  /** `h.trim().replace(/"/g, '')`. */
  function CleanCell(s: string): (r: string)
    ensures '"' !in r
  {
    RemoveChar(Trim(s), '"')
  }

  function CleanCells(s: string, delim: char): (r: seq<string>)
    ensures |r| == |Split(s, delim)|
    ensures forall j :: 0 <= j < |r| ==> r[j] == CleanCell(Split(s, delim)[j])
  {
    var parts := Split(s, delim);
    seq(|parts|, j requires 0 <= j < |parts| => CleanCell(parts[j]))
  }

  /** Each header paired with the cell at its position, or '' past the end of the line. */
  function Cells(headers: seq<string>, values: seq<string>): (r: Fields)
    ensures |r| == |headers| && Keys(r) == headers
    ensures forall j :: 0 <= j < |headers| ==> r[j].1 == JStr(if j < |values| then values[j] else "")
  {
    var r := seq(|headers|, j requires 0 <= j < |headers| => (headers[j], JStr(if j < |values| then values[j] else "")));
    assert Keys(r) == headers;
    r
  }

  /** The object built for one data line: `headers.forEach((h, i) => obj[h] = values[i] || '')`. */
  function DelimitedRecord(headers: seq<string>, line: string, delim: char): Value {
    JObj(PutAll([], Cells(headers, CleanCells(line, delim))))
  }

  function DelimitedRecords(headers: seq<string>, lines: seq<string>, delim: char): (r: seq<Value>)
    ensures |r| == |lines|
    ensures forall i :: 0 <= i < |lines| ==> r[i] == DelimitedRecord(headers, lines[i], delim)
  {
    seq(|lines|, i requires 0 <= i < |lines| => DelimitedRecord(headers, lines[i], delim))
  }

  /** The record for a line of plain text. */
  function TextLine(line: string, i: nat): Value {
    JObj([("id", JNum(i + 1)), ("text", JStr(Trim(line))), ("value", JNum(i + 1))])
  }

  function TextLines(lines: seq<string>): (r: seq<Value>)
    ensures |r| == |lines|
    ensures forall i :: 0 <= i < |lines| ==> r[i] == TextLine(lines[i], i)
  {
    seq(|lines|, i requires 0 <= i < |lines| => TextLine(lines[i], i))
  }

  /** Whether the first line makes the text CSV (a comma) or TSV (a tab, and no comma). */
  predicate Delimited(first: string) {
    ',' in first || '\t' in first
  }

  function Delimiter(first: string): char {
    if ',' in first then ',' else '\t'
  }

  /** `parsedData` when `JSON.parse` throws: CSV or TSV records, one record per line, or `undefined` for blank text. */
  function TextData(data: string): Value {
    LinesData(NonBlank(Split(data, '\n')))
  }

  /** The records read from the non-blank lines of the text. */
  function LinesData(lines: seq<string>): Value {
    if lines == [] then JUndefined
    else if Delimited(lines[0]) then
      var delim := Delimiter(lines[0]);
      JArr(DelimitedRecords(CleanCells(lines[0], delim), lines[1..], delim))
    else JArr(TextLines(lines))
  }

  /**
   * Text with no non-blank line gives `undefined`; otherwise an array with
   * one record per data line after a CSV or TSV header line, or one
   * `{id, text, value}` record per plain line, numbered from 1.
   */
  lemma TextDataRecords(data: string)
    ensures var lines := NonBlank(Split(data, '\n'));
      && (TextData(data) == JUndefined <==> lines == [])
      && (lines != [] ==>
            TextData(data).JArr? && |TextData(data).items| == if Delimited(lines[0]) then |lines| - 1 else |lines|)
      && (lines != [] && !Delimited(lines[0]) ==>
            forall i :: 0 <= i < |lines| ==> TextData(data).items[i] == TextLine(lines[i], i))
  {
    LinesDataRecords(NonBlank(Split(data, '\n')));
  }

  lemma LinesDataRecords(lines: seq<string>)
    ensures && (LinesData(lines) == JUndefined <==> lines == [])
      && (lines != [] ==>
            LinesData(lines).JArr? && |LinesData(lines).items| == if Delimited(lines[0]) then |lines| - 1 else |lines|)
      && (lines != [] && !Delimited(lines[0]) ==>
            forall i :: 0 <= i < |lines| ==> LinesData(lines).items[i] == TextLine(lines[i], i))
  {
  }

  /** Assigning distinct keys in turn to an empty object leaves each key reading its own value. */
  lemma {:induction false} PutAllDistinct(updates: Fields, j: nat)
    requires j < |updates| && Distinct(Keys(updates))
    ensures Lookup(PutAll([], updates), updates[j].0) == updates[j].1
  {
    var k := updates[j].0;
    LookupPutAll([], updates, k);
    forall i | j < i < |updates|
      ensures updates[i].0 != k
    {
      assert Keys(updates)[j] != Keys(updates)[i];
    }
    LastValueAt(updates, j, k);
  }

  /**
   * With distinct headers, each header of a CSV or TSV record reads the
   * line's cleaned cell at its position, or '' when the line is shorter.
   */
  lemma DelimitedField(headers: seq<string>, line: string, delim: char, j: nat)
    requires Distinct(headers) && j < |headers|
    ensures var values := CleanCells(line, delim);
      Get(DelimitedRecord(headers, line, delim), headers[j]) == JStr(if j < |values| then values[j] else "")
  {
    CellField(headers, CleanCells(line, delim), j);
  }

  lemma CellField(headers: seq<string>, values: seq<string>, j: nat)
    requires Distinct(headers) && j < |headers|
    ensures Get(JObj(PutAll([], Cells(headers, values))), headers[j]) == JStr(if j < |values| then values[j] else "")
  {
    var cells := Cells(headers, values);
    assert Keys(cells) == headers;
    PutAllDistinct(cells, j);
    assert cells[j].0 == headers[j];
  }

  // ---------------------------------------------------------------------
  // The step

  /** The Power BI fields spread over record `i`. */
  function PowerBiFields(i: nat, chartType: string, host: Host): Fields {
    [("powerbi_id", JStr("PBI_" + IntToString(host.clock) + "_" + NatToString(i))),
     ("data_source", JStr("WebExtract")),
     ("extraction_date", JStr(host.isoNow)),
     ("chart_type", JStr(chartType)),
     ("quality_score", host.draw(i, "quality_score")),
     ("processing_method", JStr("AI_Workflow")),
     ("record_index", JNum(i + 1))]
  }

  /** `parsedData` after parsing and wrapping a non-array in an array. */
  function ParsedData(data: string, host: Host): (r: Value)
    ensures r.JArr?
    ensures host.parse(data).Some? && !host.parse(data).value.JArr? ==> r == JArr([host.parse(data).value])
  {
    var v := if host.parse(data).Some? then host.parse(data).value else TextData(data);
    if v.JArr? then v else JArr([v])
  }

  /** `powerBIData`: the reshaped records with the Power BI fields spread over each. */
  function PowerBiData(data: string, chartType: string, host: Host): (r: Result<seq<Value>>)
  {
    var optimized := OptimizeDataForChart(ParsedData(data, host), chartType, host);
    if optimized.Err? then optimized
    else Ok(seq(|optimized.value|, i requires 0 <= i < |optimized.value| =>
      SpreadWith(optimized.value[i], PowerBiFields(i, chartType, host))))
  }

  function FileName(host: Host): string {
    "powerbi-export-" + IntToString(host.clock) + ".csv"
  }

  function DownloadUrl(host: Host): string {
    "/api/download/csv/" + host.fileId
  }

  /** The outcome of the step; on success the CSV is also stored under the file id. */
  function PowerBiRun(inputs: Inputs, host: Host): (r: Run)
  {
    var data := Input(inputs, "Data");
    if data.None? then Fail(DataMissing)
    else
      var chartType := Input(inputs, "Chart Type");
      if chartType.None? then Fail(ChartMissing)
      else
        var rows := PowerBiData(data.value, chartType.value, host);
        if rows.Err? then Fail(FailurePrefix + rows.error)
        else
          var csv := CsvOf(rows.value, host.stringify);
          if csv.Err? then Fail(FailurePrefix + csv.error)
          else Done([("Power BI CSV", JStr(csv.value)),
                     ("Template File", JStr(host.template(chartType.value, |rows.value|, FileName(host)))),
                     ("Auto Download", JStr(DownloadUrl(host)))])
  }

  /** The CSV a successful run stores and outputs. */
  function PowerBiCsv(inputs: Inputs, host: Host): string
    requires PowerBiRun(inputs, host).success
  {
    CsvOf(PowerBiData(inputs["Data"], inputs["Chart Type"], host).value, host.stringify).value
  }

  /** `ExportToPowerBIExecutor`: the run above, with the CSV written to the download store when it succeeds. */
  method ExportToPowerBiStep(inputs: Inputs, host: Host, store: FileStore) returns (r: Run)
    modifies store
    ensures r == PowerBiRun(inputs, host)
    ensures r.success ==> store.files == old(store.files)[host.fileId :=
      StoredFile(PowerBiCsv(inputs, host), "text/csv", FileName(host), host.clock)]
    ensures !r.success ==> store.files == old(store.files)
  {
    var data := Input(inputs, "Data");
    if data.None? {
      return Fail(DataMissing);
    }
    var chartType := Input(inputs, "Chart Type");
    if chartType.None? {
      return Fail(ChartMissing);
    }
    var rows := PowerBiData(data.value, chartType.value, host);
    if rows.Err? {
      return Fail(FailurePrefix + rows.error);
    }
    var csv := ConvertToCsv(rows.value, host.stringify);
    if csv.Err? {
      return Fail(FailurePrefix + csv.error);
    }
    store.StoreFile(host.fileId, csv.value, "text/csv", FileName(host), host.clock);
    r := Done([("Power BI CSV", JStr(csv.value)),
               ("Template File", JStr(host.template(chartType.value, |rows.value|, FileName(host)))),
               ("Auto Download", JStr(DownloadUrl(host)))]);
  }

  /** Every record the run exports is an object, so building the CSV never throws. */
  lemma ObjectsNeverThrow(rows: seq<Value>, stringify: Value -> string)
    requires forall i :: 0 <= i < |rows| ==> rows[i].JObj?
    ensures CsvOf(rows, stringify).Ok?
  {
  }

  /**
   * Once Data and Chart Type are present the step fails only on a keyed
   * chart over an `undefined` or `null` record; otherwise it outputs the
   * CSV of the Power BI records, one line per record.
   */
  lemma RunOutcome(inputs: Inputs, host: Host)
    requires Input(inputs, "Data").Some? && Input(inputs, "Chart Type").Some?
    ensures PowerBiRun(inputs, host).success <==> PowerBiData(inputs["Data"], inputs["Chart Type"], host).Ok?
  {
    var rows := PowerBiData(inputs["Data"], inputs["Chart Type"], host);
    if rows.Ok? {
      forall i | 0 <= i < |rows.value|
        ensures rows.value[i].JObj?
      {
      }
      ObjectsNeverThrow(rows.value, host.stringify);
    }
  }

  lemma Guards(inputs: Inputs, host: Host)
    ensures Input(inputs, "Data").None? ==> PowerBiRun(inputs, host) == Fail(DataMissing)
    ensures Input(inputs, "Data").Some? && Input(inputs, "Chart Type").None? ==> PowerBiRun(inputs, host) == Fail(ChartMissing)
  {
  }
}
