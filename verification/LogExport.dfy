/**
 The log export: a header, then every matching row a page at a time, as CSV or as JSON lines.

 The store is its contract: a list of matching rows, cut into pages, that may fail on any page.
 `JSON.stringify` is a parameter, and so is whether the filter schema accepts the filters.
 */
module LogExport {
  import opened Wrappers
  import opened Text
  import opened Csv

  /** A request log, read by column. */
  type Log = string -> Value

  datatype Format = CsvFormat | JsonLines

  /** `JSON.stringify` on a log's columns in export order. */
  type RecordText = seq<(string, Value)> -> string

  const EXPORT_COLUMNS: seq<string> := [
    "id", "state", "at", "apiKeyId", "requestedModel", "resolvedProvider", "resolvedModel", "credentialId",
    "attempts", "status", "errorCode", "inputTokens", "outputTokens", "cacheReadTokens", "cacheWriteTokens",
    "ttftMs", "durationMs", "costUsd", "degradations", "rtkApplied", "rtkFilterHits", "rtkOriginalCodeUnits",
    "rtkCompressedCodeUnits", "rtkEstimatedTokensSaved", "rtkFilters"
  ]

  function HeaderCells(columns: seq<string>): seq<Value> {
    seq(|columns|, i requires 0 <= i < |columns| => Scalar(columns[i]))
  }

  function CellsOf(columns: seq<string>, log: Log): seq<Value> {
    seq(|columns|, i requires 0 <= i < |columns| => log(columns[i]))
  }

  /** What a JSON line carries: the export columns, in order. */
  function RecordOf(columns: seq<string>, log: Log): seq<(string, Value)> {
    seq(|columns|, i requires 0 <= i < |columns| => (columns[i], log(columns[i])))
  }

  /** Everything that fixes how a log is written: the format, the columns, and `JSON.stringify`. */
  datatype Codec = Codec(format: Format, columns: seq<string>, list: ListText, record: RecordText)

  function ExportHeader(codec: Codec): string {
    if codec.format.CsvFormat? then CsvRow(codec.list, HeaderCells(codec.columns)) else ""
  }

  function ExportRow(codec: Codec, log: Log): string {
    if codec.format.JsonLines? then codec.record(RecordOf(codec.columns, log)) + "\n"
    else CsvRow(codec.list, CellsOf(codec.columns, log))
  }

  function ExportRows(codec: Codec, logs: seq<Log>): seq<string> {
    if logs == [] then [] else ExportRows(codec, logs[..|logs| - 1]) + [ExportRow(codec, logs[|logs| - 1])]
  }

  /** Everything a finished export yields. */
  function Export(codec: Codec, logs: seq<Log>): seq<string> {
    [ExportHeader(codec)] + ExportRows(codec, logs)
  }

  /** A page of the store: at most `limit` rows, and where the next page starts if there is one. */
  datatype Page = Page(logs: seq<Log>, next: Option<nat>)

  /** The store's contract: it looks one row past the page, so a full last page has no successor. */
  function PageAt(matching: seq<Log>, cursor: nat, limit: nat): Page
    requires cursor <= |matching|
  {
    if cursor + limit < |matching| then Page(matching[cursor..cursor + limit], Some(cursor + limit))
    else Page(matching[cursor..], None)
  }

  datatype Failure = BadFormat | SinceRequired | UntilRequired | BadFilter | StoreFailed

  /** The caller's input; `validFilters` is whether the filter schema accepts the rest. */
  datatype Request = Request(format: Option<string>, since: Option<string>, until: Option<string>, validFilters: bool)

  function FormatOf(format: Option<string>): Option<Format> {
    if format.None? || format.value == "csv" then Some(CsvFormat)
    else if format.value == "jsonl" then Some(JsonLines)
    else None
  }

  function Refusal(input: Request): Option<Failure> {
    if FormatOf(input.format).None? then Some(BadFormat)
    else if input.since.None? || input.since.value == "" then Some(SinceRequired)
    else if input.until.None? || input.until.value == "" then Some(UntilRequired)
    else if !input.validFilters then Some(BadFilter)
    else None
  }

  /** Where the walk over `count` matching rows reads a page. */
  predicate ReadsAt(p: nat, count: nat) {
    p % 500 == 0 && (p == 0 || p < count)
  }

  /**
   The rows are exported exactly once and in store order; a store that fails on its first page
   leaves nothing yielded, and one that fails later leaves whole pages behind the header.
   */
  ghost predicate Exported(codec: Codec, matching: seq<Log>, fails: nat -> bool, chunks: seq<string>,
                           failure: Option<Failure>) {
    match failure
    case None => chunks == Export(codec, matching) && forall p: nat :: ReadsAt(p, |matching|) ==> !fails(p)
    case Some(f) => f == StoreFailed && exists p: nat :: StopsAt(codec, matching, fails, chunks, p)
  }

  /** No page before `p` fails. */
  ghost predicate ClearBelow(fails: nat -> bool, count: nat, p: nat) {
    forall q: nat :: ReadsAt(q, count) && q < p ==> !fails(q)
  }

  ghost predicate StopsAt(codec: Codec, matching: seq<Log>, fails: nat -> bool, chunks: seq<string>, p: nat) {
    && ReadsAt(p, |matching|) && fails(p) && p <= |matching|
    && ClearBelow(fails, |matching|, p)
    && chunks == if p == 0 then [] else Export(codec, matching[..p])
  }

  method ExportLogs(matching: seq<Log>, fails: nat -> bool, readsNothing: bool, input: Request,
                    columns: seq<string>, list: ListText, record: RecordText)
    returns (chunks: seq<string>, failure: Option<Failure>)
    ensures if input.format.Some? && input.format.value != "csv" && input.format.value != "jsonl" then
              chunks == [] && failure == Some(BadFormat)
            else if input.since.None? || input.since.value == "" then chunks == [] && failure == Some(SinceRequired)
            else if input.until.None? || input.until.value == "" then chunks == [] && failure == Some(UntilRequired)
            else if !input.validFilters then chunks == [] && failure == Some(BadFilter)
            else
              var codec := Codec(if input.format == Some("jsonl") then JsonLines else CsvFormat, columns, list, record);
              if readsNothing then failure == None && chunks == Export(codec, [])
              else Exported(codec, matching, fails, chunks, failure)
  {
    chunks, failure := [], Refusal(input);
    if failure.None? {
      var codec := Codec(FormatOf(input.format).value, columns, list, record);
      if readsNothing {
        chunks := [ExportHeader(codec)];
      } else {
        chunks, failure := WalkPages(codec, matching, fails);
      }
    }
  }

  /** The paging loop: the first page is read before the header is yielded. */
  method WalkPages(codec: Codec, matching: seq<Log>, fails: nat -> bool)
    returns (chunks: seq<string>, failure: Option<Failure>)
    ensures Exported(codec, matching, fails, chunks, failure)
  {
    var cursor := 0;
    chunks, failure := [], None;
    if fails(cursor) {
      failure := Some(StoreFailed);
      assert StopsAt(codec, matching, fails, chunks, 0);
      return;
    }
    var page := PageAt(matching, cursor, 500);
    chunks := [ExportHeader(codec)];
    while true
      invariant failure == None && ReadsAt(cursor, |matching|) && cursor <= |matching|
      invariant page == PageAt(matching, cursor, 500)
      invariant ClearBelow(fails, |matching|, cursor) && !fails(cursor)
      invariant chunks == Export(codec, matching[..cursor])
      decreases |matching| - cursor
    {
      chunks := YieldPage(codec, matching, cursor, page.logs, chunks);
      if page.next.None? {
        assert matching[..cursor + |page.logs|] == matching;
        NoMoreReads(fails, cursor, |matching|);
        return;
      }
      NextRead(fails, cursor, |matching|);
      cursor := page.next.value;
      if fails(cursor) {
        failure := Some(StoreFailed);
        assert StopsAt(codec, matching, fails, chunks, cursor);
        return;
      }
      page := PageAt(matching, cursor, 500);
    }
  }

  /** The pages are read 500 rows apart. */
  lemma {:induction false} NextRead(fails: nat -> bool, cursor: nat, count: nat)
    requires ReadsAt(cursor, count) && cursor + 500 < count && ClearBelow(fails, count, cursor) && !fails(cursor)
    ensures ReadsAt(cursor + 500, count) && ClearBelow(fails, count, cursor + 500)
  {
    forall q: nat | ReadsAt(q, count) && q < cursor + 500
      ensures !fails(q)
    {
      assert q <= cursor;
    }
  }

  lemma {:induction false} NoMoreReads(fails: nat -> bool, cursor: nat, count: nat)
    requires ReadsAt(cursor, count) && count <= cursor + 500 && ClearBelow(fails, count, cursor) && !fails(cursor)
    ensures forall p: nat :: ReadsAt(p, count) ==> !fails(p)
  {
    forall q: nat | ReadsAt(q, count)
      ensures !fails(q)
    {
      assert q <= cursor;
    }
  }

  method YieldPage(codec: Codec, ghost matching: seq<Log>, ghost cursor: nat, logs: seq<Log>, chunks: seq<string>)
    returns (more: seq<string>)
    requires cursor + |logs| <= |matching| && logs == matching[cursor..cursor + |logs|]
    requires chunks == Export(codec, matching[..cursor])
    ensures more == Export(codec, matching[..cursor + |logs|])
  {
    more := chunks;
    for n := 0 to |logs|
      invariant more == Export(codec, matching[..cursor + n])
    {
      PageRow(codec, matching, cursor, logs, n);
      more := more + [ExportRow(codec, logs[n])];
    }
  }

  lemma {:induction false} RowsGrow(codec: Codec, logs: seq<Log>, n: nat)
    requires n < |logs|
    ensures Export(codec, logs[..n + 1]) == Export(codec, logs[..n]) + [ExportRow(codec, logs[n])]
  {
    assert logs[..n + 1][..n] == logs[..n];
  }

  lemma {:induction false} PageRow(codec: Codec, matching: seq<Log>, cursor: nat, logs: seq<Log>, n: nat)
    requires n < |logs| && cursor + |logs| <= |matching| && logs == matching[cursor..cursor + |logs|]
    ensures Export(codec, matching[..cursor + n + 1])
            == Export(codec, matching[..cursor + n]) + [ExportRow(codec, logs[n])]
  {
    RowsGrow(codec, matching, cursor + n);
  }

  // ---------------------------------------------------------------- what a reader of the export gets

  function Concat(chunks: seq<string>): string {
    if chunks == [] then "" else Concat(chunks[..|chunks| - 1]) + chunks[|chunks| - 1]
  }

  lemma {:induction false} ConcatLast(chunks: seq<string>, last: string)
    ensures Concat(chunks + [last]) == Concat(chunks) + last
  {
    assert (chunks + [last])[..|chunks|] == chunks;
  }

  function CsvRecords(columns: seq<string>, logs: seq<Log>): seq<seq<Value>> {
    if logs == [] then [HeaderCells(columns)]
    else CsvRecords(columns, logs[..|logs| - 1]) + [CellsOf(columns, logs[|logs| - 1])]
  }

  /** The guarded text of every column of every log, row by row. */
  function RowTexts(codec: Codec, logs: seq<Log>): seq<seq<string>> {
    if logs == [] then []
    else RowTexts(codec, logs[..|logs| - 1]) + [CellTexts(codec.list, CellsOf(codec.columns, logs[|logs| - 1]))]
  }

  lemma {:induction false} AllTextsLast(list: ListText, rows: seq<seq<Value>>, row: seq<Value>)
    ensures AllTexts(list, rows + [row]) == AllTexts(list, rows) + [CellTexts(list, row)]
  {
    AllTextsAppend(list, rows + [row]);
    assert (rows + [row])[..|rows|] == rows;
  }

  lemma {:induction false} RecordTexts(codec: Codec, logs: seq<Log>)
    requires CellTexts(codec.list, HeaderCells(codec.columns)) == codec.columns
    ensures AllTexts(codec.list, CsvRecords(codec.columns, logs)) == [codec.columns] + RowTexts(codec, logs)
  {
    if logs == [] {
      AllTextsLast(codec.list, [], HeaderCells(codec.columns));
      assert [] + [HeaderCells(codec.columns)] == [HeaderCells(codec.columns)];
    } else {
      var front, last := logs[..|logs| - 1], logs[|logs| - 1];
      RecordTexts(codec, front);
      AllTextsLast(codec.list, CsvRecords(codec.columns, front), CellsOf(codec.columns, last));
    }
  }

  lemma {:induction false} RecordsNotEmpty(columns: seq<string>, logs: seq<Log>)
    requires columns != []
    ensures forall i :: 0 <= i < |CsvRecords(columns, logs)| ==> CsvRecords(columns, logs)[i] != []
  {
    if logs != [] {
      RecordsNotEmpty(columns, logs[..|logs| - 1]);
    }
  }

  lemma {:induction false} ChunksAreFile(codec: Codec, logs: seq<Log>)
    requires codec.format.CsvFormat?
    ensures Concat(Export(codec, logs)) == CsvFile(codec.list, CsvRecords(codec.columns, logs))
  {
    if logs == [] {
      assert Export(codec, logs) == [] + [ExportHeader(codec)];
      ConcatLast([], ExportHeader(codec));
      var header := [HeaderCells(codec.columns)];
      assert header[..0] == [];
    } else {
      var front, last := logs[..|logs| - 1], logs[|logs| - 1];
      ChunksAreFile(codec, front);
      assert Export(codec, logs) == Export(codec, front) + [ExportRow(codec, last)];
      ConcatLast(Export(codec, front), ExportRow(codec, last));
      var rows := CsvRecords(codec.columns, front);
      assert (rows + [CellsOf(codec.columns, last)])[..|rows|] == rows;
    }
  }

  lemma {:induction false} CsvExportTexts(codec: Codec, logs: seq<Log>)
    requires codec.format.CsvFormat? && codec.columns != []
    requires forall i :: 0 <= i < |codec.columns| ==> Inert(codec.columns[i])
    ensures ParseCsv(Concat(Export(codec, logs))) == Some([codec.columns] + RowTexts(codec, logs))
  {
    ChunksAreFile(codec, logs);
    RecordsNotEmpty(codec.columns, logs);
    CsvRoundTrip(codec.list, CsvRecords(codec.columns, logs));
    HeaderVerbatim(codec);
    RecordTexts(codec, logs);
  }

  /** What is to be read back in one cell: nothing, the text, or the list as JSON, with the guard on the last two. */
  function Shown(list: ListText, value: Value): string {
    match value
    case Absent => ""
    case Scalar(text) => Guarded(text)
    case List(items) => Guarded(list(items))
  }

  ghost predicate RowShows(codec: Codec, log: Log, row: seq<string>) {
    && |row| == |codec.columns|
    && forall i :: 0 <= i < |row| ==> row[i] == Shown(codec.list, log(codec.columns[i]))
  }

  /** The column names, then a row for every log. */
  ghost predicate FileShows(codec: Codec, logs: seq<Log>, records: seq<seq<string>>) {
    && |records| == |logs| + 1 && records[0] == codec.columns
    && forall n :: 0 <= n < |logs| ==> RowShows(codec, logs[n], records[n + 1])
  }

  lemma {:induction false} RowsBehindHeader(codec: Codec, logs: seq<Log>, rows: seq<seq<string>>)
    requires |rows| == |logs| && forall n :: 0 <= n < |logs| ==> RowShows(codec, logs[n], rows[n])
    ensures FileShows(codec, logs, [codec.columns] + rows)
  {
  }

  lemma {:induction false} RowTextsShow(codec: Codec, logs: seq<Log>)
    ensures |RowTexts(codec, logs)| == |logs|
    ensures forall n :: 0 <= n < |logs| ==> RowShows(codec, logs[n], RowTexts(codec, logs)[n])
  {
    if logs != [] {
      var front, last := logs[..|logs| - 1], logs[|logs| - 1];
      RowTextsShow(codec, front);
      RowShown(codec, last);
      assert forall n :: 0 <= n < |front| ==> front[n] == logs[n];
    }
  }

  lemma {:induction false} RowShown(codec: Codec, log: Log)
    ensures RowShows(codec, log, CellTexts(codec.list, CellsOf(codec.columns, log)))
  {
  }

  /**
   Parsing a whole CSV export gives the column names, then one record per log, with the value the log has in
   each column in the place of that column.
   */
  lemma {:induction false} CsvExportParses(codec: Codec, logs: seq<Log>)
    requires codec.format.CsvFormat? && codec.columns != []
    requires forall i :: 0 <= i < |codec.columns| ==> Inert(codec.columns[i])
    ensures var parsed := ParseCsv(Concat(Export(codec, logs)));
            parsed.Some? && FileShows(codec, logs, parsed.value)
  {
    CsvExportTexts(codec, logs);
    RowTextsShow(codec, logs);
    RowsBehindHeader(codec, logs, RowTexts(codec, logs));
  }

  lemma {:induction false} HeaderVerbatim(codec: Codec)
    requires forall i :: 0 <= i < |codec.columns| ==> Inert(codec.columns[i])
    ensures CellTexts(codec.list, HeaderCells(codec.columns)) == codec.columns
  {
    forall i | 0 <= i < |codec.columns|
      ensures Guarded(codec.columns[i]) == codec.columns[i]
    {
      GuardIsExact(codec.columns[i]);
    }
  }

  /** The gateway's own columns meet what the parse of an export needs. */
  lemma {:induction false} ColumnsAreInert()
    ensures |EXPORT_COLUMNS| == 25
    ensures forall i :: 0 <= i < |EXPORT_COLUMNS| ==> Inert(EXPORT_COLUMNS[i])
  {
    forall i | 0 <= i < |EXPORT_COLUMNS|
      ensures Inert(EXPORT_COLUMNS[i])
    {
      LowerCaseIsInert(EXPORT_COLUMNS[i]);
    }
  }

  lemma {:induction false} LowerCaseIsInert(s: string)
    requires s != "" && 'a' <= s[0] <= 'z'
    ensures Inert(s)
  {
    forall i | 0 < i < |s|
      ensures !IsBlank(s[..i])
    {
      assert s[..i][0] == s[0];
    }
  }

  // ---------------------------------------------------------------- JSON lines

  /** Newline-delimited text cut into its lines, and what follows the last of them. */
  function CutLines(s: string): (seq<string>, string) {
    if s == "" then ([], "")
    else
      var (lines, rest) := CutLines(s[..|s| - 1]);
      var c := s[|s| - 1];
      if c == '\n' then (lines + [rest], "") else (lines, rest + [c])
  }

  predicate OneLine(s: string) {
    forall i :: 0 <= i < |s| ==> s[i] != '\n'
  }

  lemma {:induction false} LineCut(s: string, line: string)
    requires CutLines(s).1 == "" && OneLine(line)
    ensures CutLines(s + line) == (CutLines(s).0, line)
  {
    if line == "" {
      assert s + line == s;
    } else {
      var front, last := line[..|line| - 1], line[|line| - 1];
      LineCut(s, front);
      assert (s + line)[..|s + line| - 1] == s + front;
      assert front + [last] == line;
    }
  }

  lemma {:induction false} LineEnded(s: string, line: string)
    requires CutLines(s).1 == "" && OneLine(line)
    ensures CutLines(s + (line + "\n")) == (CutLines(s).0 + [line], "")
  {
    LineCut(s, line);
    assert s + (line + "\n") == (s + line) + "\n";
    assert ((s + line) + "\n")[..|s + line|] == s + line;
  }

  function LineTexts(codec: Codec, logs: seq<Log>): seq<string> {
    if logs == [] then []
    else LineTexts(codec, logs[..|logs| - 1]) + [codec.record(RecordOf(codec.columns, logs[|logs| - 1]))]
  }

  lemma {:induction false} JsonLinesTexts(codec: Codec, logs: seq<Log>)
    requires codec.format.JsonLines?
    requires forall i :: 0 <= i < |logs| ==> OneLine(codec.record(RecordOf(codec.columns, logs[i])))
    ensures CutLines(Concat(Export(codec, logs))) == (LineTexts(codec, logs), "")
  {
    if logs == [] {
      assert Export(codec, logs) == [] + [""];
      ConcatLast([], "");
    } else {
      var front, last := logs[..|logs| - 1], logs[|logs| - 1];
      JsonLinesTexts(codec, front);
      assert Export(codec, logs) == Export(codec, front) + [ExportRow(codec, last)];
      ConcatLast(Export(codec, front), ExportRow(codec, last));
      LineEnded(Concat(Export(codec, front)), codec.record(RecordOf(codec.columns, last)));
    }
  }

  /** The columns of a log, each with its value, in order. */
  ghost predicate Records(columns: seq<string>, log: Log, fields: seq<(string, Value)>) {
    |fields| == |columns| && forall i :: 0 <= i < |fields| ==> fields[i] == (columns[i], log(columns[i]))
  }

  lemma {:induction false} RecordsOnce(columns: seq<string>, log: Log, fields: seq<(string, Value)>)
    requires Records(columns, log, fields)
    ensures fields == RecordOf(columns, log)
  {
  }

  lemma {:induction false} LineTextsAre(codec: Codec, logs: seq<Log>)
    ensures |LineTexts(codec, logs)| == |logs|
    ensures forall n :: 0 <= n < |logs| ==> LineTexts(codec, logs)[n] == codec.record(RecordOf(codec.columns, logs[n]))
  {
    if logs != [] {
      LineTextsAre(codec, logs[..|logs| - 1]);
    }
  }

  /**
   When `JSON.stringify` breaks no line, a JSON-lines export is one line per log: its columns, each with its
   value, in order and with nothing guarded.
   */
  lemma {:induction false} JsonLinesExportParses(codec: Codec, logs: seq<Log>)
    requires codec.format.JsonLines?
    requires forall n, fields :: 0 <= n < |logs| && Records(codec.columns, logs[n], fields) ==>
               OneLine(codec.record(fields))
    ensures var (lines, rest) := CutLines(Concat(Export(codec, logs)));
            && rest == "" && |lines| == |logs|
            && forall n, fields :: 0 <= n < |logs| && Records(codec.columns, logs[n], fields) ==>
                 lines[n] == codec.record(fields)
  {
    forall n | 0 <= n < |logs|
      ensures OneLine(codec.record(RecordOf(codec.columns, logs[n])))
    {
      assert Records(codec.columns, logs[n], RecordOf(codec.columns, logs[n]));
    }
    JsonLinesTexts(codec, logs);
    LineTextsAre(codec, logs);
    forall n, fields | 0 <= n < |logs| && Records(codec.columns, logs[n], fields)
      ensures LineTexts(codec, logs)[n] == codec.record(fields)
    {
      RecordsOnce(codec.columns, logs[n], fields);
    }
  }
}
