/**
 * The EXPORT_TO_CSV step: it reads the Data input as JSON (a non-array is
 * wrapped in a one-element array) or, when that fails, as text with one
 * record per non-blank line, optionally spreads extraction metadata over
 * each record, and emits a CSV whose columns are the first record's keys.
 *
 * `JSON.parse`, `encodeURIComponent`, the clock (`Date.now()`, the ISO time)
 * and the random quality score are parameters.
 */
module ExportToCsv {
  import opened Common
  import opened Strings
  import opened Json
  import opened ExecutorIo
  import opened CsvText

  const DataMissing: string := "input -> Data is not defined"
  const MetadataMissing: string := "input -> Include Metadata is not defined"
  const NothingToExport: string := "No data to export"
  const CsvPrefix: string := "data:text/csv;charset=utf-8,"

  /** The record made from the `i`-th non-blank line of text that is not JSON. */
  function LineRecord(line: string, i: nat, isoNow: string): Value {
    JObj([("id", JNum(i + 1)), ("content", JStr(Trim(line))), ("timestamp", JStr(isoNow)),
          ("source", JStr("web-extract-workflow"))])
  }

  /** `parsedData` after parsing: the array's elements, a lone value wrapped, or one record per non-blank line. */
  function Records(data: string, parsed: Option<Value>, isoNow: string): (r: seq<Value>)
  {
    match parsed
    case Some(JArr(items)) => items
    case Some(v) => [v]
    case None =>
      var lines := NonBlank(Split(data, '\n'));
      seq(|lines|, i requires 0 <= i < |lines| => LineRecord(lines[i], i, isoNow))
  }

  /** The fields spread over record `i` when Include Metadata is "true". */
  function Metadata(i: nat, clock: int, isoNow: string, score: Value): Fields {
    [("extraction_id", JStr("extract_" + IntToString(clock) + "_" + NatToString(i))),
     ("extraction_date", JStr(isoNow)),
     ("extraction_method", JStr("web-extract-ai")),
     ("data_quality_score", score),
     ("language_detected", JStr("auto")),
     ("content_type", JStr("mixed")),
     ("processing_notes", JStr("Exported from WebExtract workflow"))]
  }

  function WithMetadata(records: seq<Value>, clock: int, isoNow: string, scores: nat -> Value): (r: seq<Value>)
    ensures |r| == |records|
  {
    seq(|records|, i requires 0 <= i < |records| => SpreadWith(records[i], Metadata(i, clock, isoNow, scores(i))))
  }

  /** A cell: a text that needs quoting is quoted; any other value goes in as it is. */
  function Cell(v: Value): (r: Value)
    ensures v.JStr? && NeedsQuotes(v.s) ==> r.JStr? && Unquote(r.s) == Some(v.s)
    ensures !(v.JStr? && NeedsQuotes(v.s)) ==> r == v
  {
    if v.JStr? && NeedsQuotes(v.s) then UnquoteQuote(v.s); JStr(Quote(v.s)) else v
  }

  /** One CSV line: `headers.map(h => cell(item[h])).join(',')`; reading a field of `undefined` or `null` throws. */
  function Row(item: Value, headers: seq<string>): (r: Result<string>)
    ensures r.Err? <==> Nullish(item) && headers != []
  {
    if headers == [] then Ok("")
    else if Nullish(item) then Err(TypeErrorMessage)
    else Ok(JoinValues(seq(|headers|, j requires 0 <= j < |headers| => Cell(Get(item, headers[j]))), ","))
  }

  function Rows(records: seq<Value>, headers: seq<string>): (r: Result<seq<string>>)
    ensures r.Err? <==> exists i :: 0 <= i < |records| && Row(records[i], headers).Err?
    ensures r.Ok? ==> (|r.value| == |records|
      && forall i :: 0 <= i < |records| ==> Row(records[i], headers) == Ok(r.value[i]))
  {
    if records == [] then Ok([])
    else
      var first := Row(records[0], headers);
      var rest := Rows(records[1..], headers);
      assert forall i :: 1 <= i < |records| ==> records[1..][i - 1] == records[i];
      if first.Err? then Err(first.error)
      else if rest.Err? then Err(rest.error)
      else Ok([first.value] + rest.value)
  }

  /** The CSV text: the first record's keys as the header line, then one line per record, joined by newlines. */
  function CsvContent(records: seq<Value>): (r: Result<string>)
    requires records != []
  {
    var headers := ObjectKeys(records[0]);
    if headers.Err? then Err(headers.error)
    else
      var rows := Rows(records, headers.value);
      if rows.Err? then Err(rows.error)
      else Ok(Join([Join(headers.value, ",")] + rows.value, "\n"))
  }

  /**
   * The step: the two guards in order, then parsing, the optional metadata,
   * the empty check, and the data URL output. A thrown TypeError is logged
   * and the step returns false.
   */
  function ExportToCsvRun(inputs: Inputs, parse: string -> Option<Value>, clock: int, isoNow: string,
                          scores: nat -> Value, encode: string -> string): (r: Run)
  {
    var data := Input(inputs, "Data");
    if data.None? then Fail(DataMissing)
    else
      var meta := Input(inputs, "Include Metadata");
      if meta.None? then Fail(MetadataMissing)
      else
        var parsed := Records(data.value, parse(data.value), isoNow);
        var records := if meta.value == "true" then WithMetadata(parsed, clock, isoNow, scores) else parsed;
        if records == [] then Fail(NothingToExport)
        else
          var csv := CsvContent(records);
          if csv.Err? then Fail(csv.error)
          else Done([("CSV File URL", JStr(CsvPrefix + encode(csv.value)))])
  }

  /** The guards: a missing Data or Include Metadata fails with its message, Data checked first. */
  lemma Guards(inputs: Inputs, parse: string -> Option<Value>, clock: int, isoNow: string,
               scores: nat -> Value, encode: string -> string)
    ensures Input(inputs, "Data").None? ==> ExportToCsvRun(inputs, parse, clock, isoNow, scores, encode) == Fail(DataMissing)
    ensures Input(inputs, "Data").Some? && Input(inputs, "Include Metadata").None? ==>
      ExportToCsvRun(inputs, parse, clock, isoNow, scores, encode) == Fail(MetadataMissing)
    ensures ExportToCsvRun(inputs, parse, clock, isoNow, scores, encode).success ==>
      Input(inputs, "Data").Some? && Input(inputs, "Include Metadata").Some?
  {
  }

  /** JSON input: an array gives its elements as the records, any other value becomes the only record. */
  lemma ParsedRecords(data: string, v: Value, isoNow: string)
    ensures v.JArr? ==> Records(data, Some(v), isoNow) == v.items
    ensures !v.JArr? ==> Records(data, Some(v), isoNow) == [v]
  {
  }

  /** Text input: record `i` is the `i`-th non-blank line, trimmed, with id `i + 1`. */
  lemma TextRecords(data: string, isoNow: string)
    ensures var lines := NonBlank(Split(data, '\n'));
      && |Records(data, None, isoNow)| == |lines|
      && forall i :: 0 <= i < |lines| ==>
           && Get(Records(data, None, isoNow)[i], "id") == JNum(i + 1)
           && Get(Records(data, None, isoNow)[i], "content") == JStr(Trim(lines[i]))
  {
    var lines := NonBlank(Split(data, '\n'));
    var records := Records(data, None, isoNow);
    forall i | 0 <= i < |lines|
      ensures Get(records[i], "id") == JNum(i + 1) && Get(records[i], "content") == JStr(Trim(lines[i]))
    {
      assert records[i] == LineRecord(lines[i], i, isoNow);
      LineRecordFields(lines[i], i, isoNow);
    }
  }

  lemma LineRecordFields(line: string, i: nat, isoNow: string)
    ensures Get(LineRecord(line, i, isoNow), "id") == JNum(i + 1)
    ensures Get(LineRecord(line, i, isoNow), "content") == JStr(Trim(line))
  {
    LineRecordId(line, i, isoNow);
    LineRecordContent(line, i, isoNow);
  }

  lemma LineRecordId(line: string, i: nat, isoNow: string)
    ensures Get(LineRecord(line, i, isoNow), "id") == JNum(i + 1)
  {
    var fields: Fields := [("id", JNum(i + 1)), ("content", JStr(Trim(line))), ("timestamp", JStr(isoNow)),
                           ("source", JStr("web-extract-workflow"))];
    assert LineRecord(line, i, isoNow) == JObj(fields);
    LookupAt(fields, 0, "id");
  }

  lemma LineRecordContent(line: string, i: nat, isoNow: string)
    ensures Get(LineRecord(line, i, isoNow), "content") == JStr(Trim(line))
  {
    var fields := LineRecord(line, i, isoNow).fields;
    SecondFieldRead(fields, "id", "content");
  }

  lemma SecondFieldRead(fields: Fields, first: string, second: string)
    requires |fields| >= 2 && fields[0].0 == first && fields[1].0 == second
    requires first != [] && second != [] && first[0] != second[0]
    ensures Lookup(fields, second) == fields[1].1
  {
    LookupAt(fields, 1, second);
  }

  /**
   * Metadata is added exactly when Include Metadata is "true": each record then
   * keeps its own fields except the seven metadata keys, which take the
   * metadata values.
   */
  lemma MetadataFields(records: seq<Value>, clock: int, isoNow: string, scores: nat -> Value, i: nat, k: string)
    requires i < |records|
    ensures var m := Metadata(i, clock, isoNow, scores(i));
      Get(WithMetadata(records, clock, isoNow, scores)[i], k)
        == if LastValue(m, k).Some? then LastValue(m, k).value else Lookup(OwnFields(records[i]), k)
    ensures Get(WithMetadata(records, clock, isoNow, scores)[i], "extraction_method") == JStr("web-extract-ai")
  {
    var m := Metadata(i, clock, isoNow, scores(i));
    GetSpreadWith(records[i], m, k);
    GetSpreadAt(records[i], m, 2, "extraction_method");
  }

  /**
   * A successful export's CSV has the first record's keys as its header and
   * one line per record, each cell the record's value under that column,
   * quoted when needed; a key that only later records have is no column.
   */
  lemma CsvShape(records: seq<Value>)
    requires records != [] && CsvContent(records).Ok?
    ensures !Nullish(records[0])
    ensures var headers := Keys(OwnFields(records[0]));
      var rows := Rows(records, headers);
      && rows.Ok? && |rows.value| == |records|
      && CsvContent(records).value == Join([Join(headers, ",")] + rows.value, "\n")
      && forall i :: 0 <= i < |records| && headers != [] ==>
           rows.value[i] == JoinValues(seq(|headers|, j requires 0 <= j < |headers| => Cell(Get(records[i], headers[j]))), ",")
  {
  }

  /** Zero records fails with "No data to export" once both inputs are present. */
  lemma EmptyFails(inputs: Inputs, parse: string -> Option<Value>, clock: int, isoNow: string,
                   scores: nat -> Value, encode: string -> string)
    requires Input(inputs, "Data").Some? && Input(inputs, "Include Metadata").Some?
    requires Records(inputs["Data"], parse(inputs["Data"]), isoNow) == []
    ensures ExportToCsvRun(inputs, parse, clock, isoNow, scores, encode) == Fail(NothingToExport)
  {
  }
}
