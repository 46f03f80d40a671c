/**
 The cells and rows of the CSV export, against a parser of section 2 of RFC 4180.

 `String(value)` is already applied to a scalar, and `JSON.stringify` is a parameter.
 */
module Csv {
  import opened Wrappers
  import opened Text

  /** What a log holds in one column. */
  datatype Value = Absent | Scalar(text: string) | List(items: seq<string>)

  /** `JSON.stringify` on a list of strings. */
  type ListText = seq<string> -> string

  // ---------------------------------------------------------------- encoding

  predicate IsFormula(c: char) {
    c == '=' || c == '+' || c == '-' || c == '@'
  }

  predicate IsSpecial(c: char) {
    c == '"' || c == ',' || c == '\r' || c == '\n'
  }

  function Guarded(text: string): string {
    var trimmed := TrimStart(text);
    if trimmed != "" && IsFormula(trimmed[0]) then "'" + text else text
  }

  /** Every quotation mark written twice. */
  function Doubled(s: string): string {
    if s == "" then ""
    else
      var last := s[|s| - 1];
      Doubled(s[..|s| - 1]) + if last == '"' then [last, last] else [last]
  }

  function CellText(json: ListText, value: Value): string {
    match value
    case Absent => ""
    case Scalar(text) => Guarded(text)
    case List(items) => Guarded(json(items))
  }

  function CsvCell(json: ListText, value: Value): string {
    var text := CellText(json, value);
    if exists i :: 0 <= i < |text| && IsSpecial(text[i]) then ['"'] + Doubled(text) + ['"'] else text
  }

  function Joined(json: ListText, cells: seq<Value>): string {
    if cells == [] then ""
    else if |cells| == 1 then CsvCell(json, cells[0])
    else Joined(json, cells[..|cells| - 1]) + "," + CsvCell(json, cells[|cells| - 1])
  }

  function CsvRow(json: ListText, cells: seq<Value>): string {
    Joined(json, cells) + "\r\n"
  }

  /** A whole file of rows. */
  function CsvFile(json: ListText, rows: seq<seq<Value>>): string {
    if rows == [] then "" else CsvFile(json, rows[..|rows| - 1]) + CsvRow(json, rows[|rows| - 1])
  }

  // ---------------------------------------------------------------- section 2 of RFC 4180

  /** Inside plain text, inside quotes, after a quotation mark inside quotes, after a carriage return. */
  datatype Mode = Plain | Quoted | Closing | Ending

  datatype Parsing =
    | Malformed
    | Reading(rows: seq<seq<string>>, row: seq<string>, cell: string, mode: Mode)

  /** The end of a field: a comma, or the first half of a line break. */
  function Delimit(rows: seq<seq<string>>, row: seq<string>, cell: string, c: char): Parsing {
    if c == ',' then Reading(rows, row + [cell], "", Plain)
    else if c == '\r' then Reading(rows, row + [cell], "", Ending)
    else Malformed
  }

  function Step(p: Parsing, c: char): Parsing {
    match p
    case Malformed => Malformed
    case Reading(rows, row, cell, Plain) =>
      if c == '"' then if cell == "" then Reading(rows, row, "", Quoted) else Malformed
      else if c == ',' || c == '\r' || c == '\n' then Delimit(rows, row, cell, c)
      else Reading(rows, row, cell + [c], Plain)
    case Reading(rows, row, cell, Quoted) =>
      if c == '"' then Reading(rows, row, cell, Closing) else Reading(rows, row, cell + [c], Quoted)
    case Reading(rows, row, cell, Closing) =>
      if c == '"' then Reading(rows, row, cell + [c], Quoted) else Delimit(rows, row, cell, c)
    case Reading(rows, row, cell, Ending) =>
      if c == '\n' then Reading(rows + [row], [], "", Plain) else Malformed
  }

  function Run(p: Parsing, s: string): Parsing {
    if s == "" then p else Step(Run(p, s[..|s| - 1]), s[|s| - 1])
  }

  /** The records of a file; the last line break is optional. */
  function ParseCsv(s: string): Option<seq<seq<string>>> {
    match Run(Reading([], [], "", Plain), s)
    case Malformed => None
    case Reading(rows, row, cell, mode) =>
      if mode == Quoted || mode == Ending then None
      else if mode == Plain && row == [] && cell == "" then Some(rows)
      else Some(rows + [row + [cell]])
  }

  // ---------------------------------------------------------------- the parser undoes the encoder

  lemma {:induction false} RunAppend(p: Parsing, a: string, b: string)
    ensures Run(p, a + b) == Run(Run(p, a), b)
  {
    if b == "" {
      assert a + b == a;
    } else {
      RunAppend(p, a, b[..|b| - 1]);
      assert (a + b)[..|a + b| - 1] == a + b[..|b| - 1];
    }
  }

  lemma {:induction false} RunOne(p: Parsing, c: char)
    ensures Run(p, [c]) == Step(p, c)
  {
    assert [c][..0] == "";
  }

  lemma {:induction false} PlainRead(rows: seq<seq<string>>, row: seq<string>, text: string)
    requires forall i :: 0 <= i < |text| ==> !IsSpecial(text[i])
    ensures Run(Reading(rows, row, "", Plain), text) == Reading(rows, row, text, Plain)
  {
    if text != "" {
      var front := text[..|text| - 1];
      PlainRead(rows, row, front);
      assert front + [text[|text| - 1]] == text;
    }
  }

  lemma {:induction false} QuotedRead(rows: seq<seq<string>>, row: seq<string>, text: string)
    ensures Run(Reading(rows, row, "", Quoted), Doubled(text)) == Reading(rows, row, text, Quoted)
  {
    if text != "" {
      var front, last := text[..|text| - 1], text[|text| - 1];
      var start := Reading(rows, row, "", Quoted);
      QuotedRead(rows, row, front);
      RunAppend(start, Doubled(front), if last == '"' then [last, last] else [last]);
      RunOne(Run(start, Doubled(front)), last);
      if last == '"' {
        RunAppend(Run(start, Doubled(front)), [last], [last]);
        RunOne(Reading(rows, row, front, Closing), last);
        assert [last] + [last] == [last, last];
      }
      assert front + [last] == text;
    }
  }

  /** A cell is read back whole, and only its end is still to come. */
  lemma {:induction false} CellRead(json: ListText, rows: seq<seq<string>>, row: seq<string>, value: Value)
    returns (mode: Mode)
    ensures mode == Plain || mode == Closing
    ensures Run(Reading(rows, row, "", Plain), CsvCell(json, value)) == Reading(rows, row, CellText(json, value), mode)
  {
    var text := CellText(json, value);
    var start := Reading(rows, row, "", Plain);
    if exists i :: 0 <= i < |text| && IsSpecial(text[i]) {
      mode := Closing;
      RunAppend(start, ['"'] + Doubled(text), ['"']);
      RunAppend(start, ['"'], Doubled(text));
      RunOne(start, '"');
      QuotedRead(rows, row, text);
      RunOne(Reading(rows, row, text, Quoted), '"');
    } else {
      mode := Plain;
      PlainRead(rows, row, text);
    }
  }

  function CellTexts(json: ListText, cells: seq<Value>): seq<string> {
    seq(|cells|, i requires 0 <= i < |cells| => CellText(json, cells[i]))
  }

  lemma {:induction false} CellTextsAppend(json: ListText, cells: seq<Value>)
    requires cells != []
    ensures CellTexts(json, cells)
            == CellTexts(json, cells[..|cells| - 1]) + [CellText(json, cells[|cells| - 1])]
  {
  }

  /** After the last cell, either delimiter completes the row. */
  lemma {:induction false} CellsRead(json: ListText, rows: seq<seq<string>>, cells: seq<Value>)
    requires cells != []
    ensures var p := Run(Reading(rows, [], "", Plain), Joined(json, cells));
            && Step(p, ',') == Reading(rows, CellTexts(json, cells), "", Plain)
            && Step(p, '\r') == Reading(rows, CellTexts(json, cells), "", Ending)
  {
    var start := Reading(rows, [], "", Plain);
    var front, last := cells[..|cells| - 1], cells[|cells| - 1];
    CellTextsAppend(json, cells);
    if |cells| == 1 {
      var mode := CellRead(json, rows, [], last);
    } else {
      CellsRead(json, rows, front);
      RunAppend(start, Joined(json, front) + ",", CsvCell(json, last));
      RunAppend(start, Joined(json, front), ",");
      RunOne(Run(start, Joined(json, front)), ',');
      var mode := CellRead(json, rows, CellTexts(json, front), last);
    }
  }

  lemma {:induction false} RowRead(json: ListText, rows: seq<seq<string>>, cells: seq<Value>)
    requires cells != []
    ensures Run(Reading(rows, [], "", Plain), CsvRow(json, cells))
            == Reading(rows + [CellTexts(json, cells)], [], "", Plain)
  {
    var start := Reading(rows, [], "", Plain);
    CellsRead(json, rows, cells);
    var p := Run(start, Joined(json, cells));
    RunAppend(start, Joined(json, cells), "\r\n");
    assert "\r\n" == ['\r'] + ['\n'];
    RunAppend(p, ['\r'], ['\n']);
    RunOne(p, '\r');
    RunOne(Step(p, '\r'), '\n');
  }

  function AllTexts(json: ListText, rows: seq<seq<Value>>): seq<seq<string>> {
    seq(|rows|, i requires 0 <= i < |rows| => CellTexts(json, rows[i]))
  }

  lemma {:induction false} AllTextsAppend(json: ListText, rows: seq<seq<Value>>)
    requires rows != []
    ensures AllTexts(json, rows) == AllTexts(json, rows[..|rows| - 1]) + [CellTexts(json, rows[|rows| - 1])]
  {
  }

  lemma {:induction false} FileRead(json: ListText, rows: seq<seq<Value>>)
    requires forall i :: 0 <= i < |rows| ==> rows[i] != []
    ensures Run(Reading([], [], "", Plain), CsvFile(json, rows)) == Reading(AllTexts(json, rows), [], "", Plain)
  {
    if rows != [] {
      var front, last := rows[..|rows| - 1], rows[|rows| - 1];
      FileRead(json, front);
      RunAppend(Reading([], [], "", Plain), CsvFile(json, front), CsvRow(json, last));
      RowRead(json, AllTexts(json, front), last);
      AllTextsAppend(json, rows);
    }
  }

  /** Every file of non-empty rows parses to one record per row and exactly the guarded texts. */
  lemma {:induction false} CsvRoundTrip(json: ListText, rows: seq<seq<Value>>)
    requires forall i :: 0 <= i < |rows| ==> rows[i] != []
    ensures ParseCsv(CsvFile(json, rows)) == Some(AllTexts(json, rows))
  {
    FileRead(json, rows);
  }

  // ---------------------------------------------------------------- formulas

  /** No formula character comes first among the non-blank ones. */
  predicate Inert(s: string) {
    forall i :: 0 <= i < |s| && StartsFormula(s[i]) ==> !IsBlank(s[..i])
  }

  /** What a spreadsheet takes for the start of a formula. */
  predicate StartsFormula(c: char) {
    match c
    case '=' => true
    case '+' => true
    case '-' => true
    case '@' => true
    case _ => false
  }

  /** How much white space a text starts with. */
  function Indent(s: string): nat {
    if s != "" && IsSpace(s[0]) then 1 + Indent(s[1..]) else 0
  }

  lemma {:induction false} IndentMeans(s: string)
    ensures Indent(s) <= |s| && IsBlank(s[..Indent(s)])
    ensures Indent(s) < |s| ==> !IsSpace(s[Indent(s)])
    ensures TrimStart(s) == s[Indent(s)..]
  {
    if s != "" && IsSpace(s[0]) {
      IndentMeans(s[1..]);
      assert s[..Indent(s)] == [s[0]] + s[1..][..Indent(s[1..])];
    }
  }

  lemma {:induction false} InertByFirst(s: string)
    ensures Inert(s) <==> Indent(s) >= |s| || !StartsFormula(s[Indent(s)])
  {
    IndentMeans(s);
    var k := Indent(s);
    assert forall i :: 0 <= i < k ==> s[..k][i] == s[i];
    forall i | k < i < |s|
      ensures !IsBlank(s[..i])
    {
      assert s[..i][k] == s[k];
    }
  }

  /** The guard leaves a text alone exactly when it is inert already, and what it writes is inert. */
  lemma {:induction false} GuardIsExact(text: string)
    ensures Inert(Guarded(text))
    ensures Guarded(text) == text <==> Inert(text)
    ensures Guarded(text) != text ==> Guarded(text) == "'" + text
  {
    IndentMeans(text);
    InertByFirst(text);
    var quoted := "'" + text;
    InertByFirst(quoted);
    assert quoted[0] == '\'' && |quoted| == |text| + 1;
  }

  /** No cell recovered from an export starts a formula. */
  lemma {:induction false} RecoveredCellsAreInert(json: ListText, rows: seq<seq<Value>>)
    requires forall i :: 0 <= i < |rows| ==> rows[i] != []
    ensures var records := ParseCsv(CsvFile(json, rows));
            && records.Some?
            && forall i, j :: 0 <= i < |records.value| && 0 <= j < |records.value[i]| ==> Inert(records.value[i][j])
  {
    CsvRoundTrip(json, rows);
    var texts := AllTexts(json, rows);
    forall i, j | 0 <= i < |texts| && 0 <= j < |texts[i]|
      ensures Inert(texts[i][j])
    {
      match rows[i][j]
      case Absent =>
      case Scalar(text) => GuardIsExact(text);
      case List(items) => GuardIsExact(json(items));
    }
  }

  /** A cell is quoted if and only if its text holds a quotation mark, a comma or half a line break. */
  lemma {:induction false} QuotedExactly(json: ListText, value: Value)
    ensures var text := CellText(json, value);
            if '"' in text || ',' in text || '\r' in text || '\n' in text then
              CsvCell(json, value) == ['"'] + Doubled(text) + ['"']
            else CsvCell(json, value) == text
  {
    var text := CellText(json, value);
    if '"' in text || ',' in text || '\r' in text || '\n' in text {
      var i :| 0 <= i < |text| && (text[i] == '"' || text[i] == ',' || text[i] == '\r' || text[i] == '\n');
      assert IsSpecial(text[i]);
    }
  }
}
