/**
 The CSV export of static/app-deliveries-csv.js against a reader for the format
 of section 2 of RFC 4180.  The reader takes every character other than comma,
 double quote, CR and LF as text, not only the printable ASCII ones of the RFC.
 */
module CsvExport {
  import opened Wrappers

  type Cell = string
  type Row = seq<Cell>

  // ---- The writer ----

  predicate IsSpecial(c: char) {
    c == '"' || c == ',' || c == '\r' || c == '\n'
  }

  predicate NeedsQuotes(s: string) {
    s != "" && (IsSpecial(s[0]) || NeedsQuotes(s[1..]))
  }

  function DoubleQuotes(s: string): string {
    if s == "" then "" else (if s[0] == '"' then "\"\"" else [s[0]]) + DoubleQuotes(s[1..])
  }

  function CsvCell(s: string): string {
    if NeedsQuotes(s) then "\"" + DoubleQuotes(s) + "\"" else s
  }

  function Joined(parts: seq<string>, separator: string): string {
    if parts == [] then ""
    else if |parts| == 1 then parts[0]
    else parts[0] + separator + Joined(parts[1..], separator)
  }

  function CsvCells(row: Row): seq<string> {
    if row == [] then [] else [CsvCell(row[0])] + CsvCells(row[1..])
  }

  function Line(row: Row): string {
    Joined(CsvCells(row), ",")
  }

  const HEADER: Row := [
    "timestamp_iso", "timestamp_epoch", "source", "severity", "title",
    "channel", "suppressed_by", "emergency_receipt_id"]

  const CRLF := "\r\n"

  function Lines(rows: seq<Row>): seq<string> {
    if rows == [] then [] else [Line(rows[0])] + Lines(rows[1..])
  }

  /** The text of the file for these rows, header included. */
  function FileText(rows: seq<Row>): string {
    Joined([Joined(HEADER, ",")] + Lines(rows), CRLF) + CRLF
  }

  method DownloadCsv(rows: seq<Row>) returns (text: string)
    ensures text == FileText(rows)
  {
    var lines := [Joined(HEADER, ",")];
    for i := 0 to |rows|
      invariant lines + Lines(rows[i..]) == [Joined(HEADER, ",")] + Lines(rows)
    {
      assert rows[i..][0] == rows[i] && rows[i..][1..] == rows[i + 1..];
      lines := lines + [Line(rows[i])];
    }
    assert lines == lines + Lines(rows[|rows|..]);
    text := Joined(lines, CRLF) + CRLF;
  }

  // ---- The reader ----

  /** Where the reader is: at the start of a cell, in a bare one, in a quoted one, or just behind a quote in it. */
  datatype State = CellStart | Bare | Quoted | QuoteSeen

  /**
   Reads records, each ended by CRLF.  `cells` are the cells read in this record and
   `cell` is what has been read of the current one.
   */
  function Read(text: string, state: State, cells: Row, cell: Cell): Option<seq<Row>>
    decreases |text|
  {
    if text == "" then
      if state.CellStart? && cells == [] then Some([]) else None
    else
      var c := text[0];
      if state.Quoted? then
        if c == '"' then Read(text[1..], QuoteSeen, cells, cell) else Read(text[1..], Quoted, cells, cell + [c])
      else if c == '"' then
        if state.CellStart? then Read(text[1..], Quoted, cells, "")
        else if state.QuoteSeen? then Read(text[1..], Quoted, cells, cell + "\"")
        else None
      else if c == ',' then Read(text[1..], CellStart, cells + [cell], "")
      else if c == '\r' then
        if |text| >= 2 && text[1] == '\n' then
          var rest := Read(text[2..], CellStart, [], "");
          if rest.None? then None else Some([cells + [cell]] + rest.value)
        else None
      else if c == '\n' || state.QuoteSeen? then None
      else Read(text[1..], Bare, cells, cell + [c])
  }

  function ReadFile(text: string): Option<seq<Row>> {
    Read(text, CellStart, [], "")
  }

  /** A cell is quoted exactly if it has a comma, a quote or a line break in it; otherwise it is written as it is. */
  lemma QuotedIff(s: Cell)
    ensures if '"' in s || ',' in s || '\r' in s || '\n' in s then CsvCell(s) == "\"" + DoubleQuotes(s) + "\""
            else CsvCell(s) == s
  {
    SpecialInside(s);
  }

  lemma {:induction false} SpecialInside(s: string)
    ensures NeedsQuotes(s) <==> '"' in s || ',' in s || '\r' in s || '\n' in s
  {
    if s != "" {
      SpecialInside(s[1..]);
      assert s == [s[0]] + s[1..];
    }
  }

  // ---- Reading back ----

  /** What follows a written cell: a comma, or the end of the record. */
  predicate EndsCell(rest: string) {
    rest != "" && (rest[0] == ',' || (rest[0] == '\r' && |rest| >= 2 && rest[1] == '\n'))
  }

  lemma {:induction false} ReadQuotedText(s: string, rest: string, cells: Row, cell: Cell)
    requires EndsCell(rest)
    ensures Read(DoubleQuotes(s) + "\"" + rest, Quoted, cells, cell) == Read(rest, Bare, cells, cell + s)
  {
    var text := DoubleQuotes(s) + "\"" + rest;
    if s == "" {
      assert text[1..] == rest;
      assert cell + "" == cell;
    } else {
      var more := DoubleQuotes(s[1..]) + "\"" + rest;
      ReadQuotedText(s[1..], rest, cells, cell + [s[0]]);
      assert (cell + [s[0]]) + s[1..] == cell + s;
      if s[0] == '"' {
        assert text == "\"\"" + more;
        assert text[1..] == "\"" + more && text[1..][1..] == more;
        assert [s[0]] == "\"";
      } else {
        assert text == [s[0]] + more;
        assert text[1..] == more;
      }
    }
  }

  lemma {:induction false} ReadBareText(s: string, rest: string, state: State, cells: Row, cell: Cell)
    requires EndsCell(rest) && !NeedsQuotes(s) && (state.CellStart? || state.Bare?)
    ensures Read(s + rest, state, cells, cell) == Read(rest, Bare, cells, cell + s)
  {
    if s == "" {
      assert s + rest == rest && cell + s == cell;
    } else {
      assert (s + rest)[1..] == s[1..] + rest;
      ReadBareText(s[1..], rest, Bare, cells, cell + [s[0]]);
      assert (cell + [s[0]]) + s[1..] == cell + s;
    }
  }

  /** Reading one written cell adds exactly that cell. */
  lemma ReadCell(s: Cell, rest: string, cells: Row)
    requires EndsCell(rest)
    ensures Read(CsvCell(s) + rest, CellStart, cells, "") == Read(rest, Bare, cells, s)
  {
    if NeedsQuotes(s) {
      var body := DoubleQuotes(s) + "\"" + rest;
      assert CsvCell(s) + rest == "\"" + body;
      assert (CsvCell(s) + rest)[1..] == body;
      ReadQuotedText(s, rest, cells, "");
      assert "" + s == s;
    } else {
      ReadBareText(s, rest, CellStart, cells, "");
      assert "" + s == s;
    }
  }

  /** What reading gives when the current record ends with this row and `rest` follows it. */
  function Recorded(row: Row, rest: string): Option<seq<Row>> {
    var more := ReadFile(rest);
    if more.None? then None else Some([row] + more.value)
  }

  lemma ReadLastCell(s: Cell, rest: string, cells: Row)
    ensures Read(CsvCell(s) + (CRLF + rest), CellStart, cells, "") == Recorded(cells + [s], rest)
  {
    var after := CRLF + rest;
    ReadCell(s, after, cells);
    assert after[2..] == rest;
  }

  lemma ReadInnerCell(s: Cell, rest: string, cells: Row)
    ensures Read(CsvCell(s) + ("," + rest), CellStart, cells, "") == Read(rest, CellStart, cells + [s], "")
  {
    var after := "," + rest;
    ReadCell(s, after, cells);
    assert after[1..] == rest;
  }

  /** The text of one record and what follows it. */
  function Terminated(row: Row, rest: string): string {
    Line(row) + CRLF + rest
  }

  lemma TerminatedLast(row: Row, rest: string)
    requires |row| == 1
    ensures Terminated(row, rest) == CsvCell(row[0]) + (CRLF + rest)
  {
    assert CsvCells(row) == [CsvCell(row[0])];
    Reassociate(CsvCell(row[0]), CRLF, rest);
  }

  lemma TerminatedInner(row: Row, rest: string)
    requires |row| > 1
    ensures Terminated(row, rest) == CsvCell(row[0]) + ("," + Terminated(row[1..], rest))
  {
    var cell, tail := CsvCell(row[0]), Line(row[1..]);
    assert CsvCells(row)[1..] == CsvCells(row[1..]);
    assert Line(row) == cell + "," + tail;
    Reassociate(cell + "," + tail, CRLF, rest);
    Reassociate(cell, ",", tail);
    Reassociate(cell, "," + tail, CRLF + rest);
    Reassociate(",", tail, CRLF + rest);
    Reassociate(tail, CRLF, rest);
  }

  lemma Reassociate(a: string, b: string, c: string)
    ensures a + b + c == a + (b + c)
  {}

  lemma {:induction false} ReadLine(row: Row, rest: string, cells: Row)
    requires row != []
    ensures Read(Terminated(row, rest), CellStart, cells, "") == Recorded(cells + row, rest)
  {
    if |row| == 1 {
      TerminatedLast(row, rest);
      ReadLastCell(row[0], rest, cells);
      assert cells + [row[0]] == cells + row;
    } else {
      TerminatedInner(row, rest);
      ReadInnerCell(row[0], Terminated(row[1..], rest), cells);
      ReadLine(row[1..], rest, cells + [row[0]]);
      assert (cells + [row[0]]) + row[1..] == cells + row;
    }
  }

  /** The lines with their line ends, one after another. */
  function Body(rows: seq<Row>): string {
    if rows == [] then "" else Terminated(rows[0], Body(rows[1..]))
  }

  lemma {:induction false} ReadBody(rows: seq<Row>)
    requires forall i | 0 <= i < |rows| :: rows[i] != []
    ensures ReadFile(Body(rows)) == Some(rows)
  {
    if rows != [] {
      ReadBody(rows[1..]);
      ReadLine(rows[0], Body(rows[1..]), []);
      assert [] + rows[0] == rows[0];
      assert [rows[0]] + rows[1..] == rows;
    }
  }

  lemma {:induction false} JoinedIsBody(rows: seq<Row>)
    requires rows != []
    ensures Joined(Lines(rows), CRLF) + CRLF == Body(rows)
  {
    if |rows| > 1 {
      JoinedIsBody(rows[1..]);
      assert Lines(rows)[1..] == Lines(rows[1..]);
      assert Joined(Lines(rows), CRLF) + CRLF == Line(rows[0]) + CRLF + (Joined(Lines(rows[1..]), CRLF) + CRLF);
    } else {
      assert Lines(rows) == [Line(rows[0])];
      assert rows[1..] == [];
      assert Body(rows) == Line(rows[0]) + CRLF + "";
    }
  }

  lemma {:induction false} PlainCells(row: Row)
    requires forall i | 0 <= i < |row| :: !NeedsQuotes(row[i])
    ensures CsvCells(row) == row
  {
    if row != [] {
      PlainCells(row[1..]);
      assert row == [row[0]] + row[1..];
    }
  }

  lemma {:induction false} PlainText(s: string)
    requires forall i | 0 <= i < |s| :: !IsSpecial(s[i])
    ensures !NeedsQuotes(s)
  {
    if s != "" {
      PlainText(s[1..]);
    }
  }

  lemma HeaderIsPlain()
    ensures Line(HEADER) == Joined(HEADER, ",")
  {
    forall i | 0 <= i < |HEADER| ensures !NeedsQuotes(HEADER[i]) {
      PlainText(HEADER[i]);
    }
    PlainCells(HEADER);
  }

  /** Reading the exported file gives back the header and exactly the cells that were written. */
  lemma ExportReadsBack(rows: seq<Row>)
    requires forall i | 0 <= i < |rows| :: rows[i] != []
    ensures ReadFile(FileText(rows)) == Some([HEADER] + rows)
  {
    HeaderIsPlain();
    var all := [HEADER] + rows;
    assert all[1..] == rows;
    assert Lines(all) == [Joined(HEADER, ",")] + Lines(rows);
    JoinedIsBody(all);
    ReadBody(all);
  }

  /** So two exports with the same text have the same rows. */
  lemma ExportIsInjective(a: seq<Row>, b: seq<Row>)
    requires forall i | 0 <= i < |a| :: a[i] != []
    requires forall i | 0 <= i < |b| :: b[i] != []
    requires FileText(a) == FileText(b)
    ensures a == b
  {
    ExportReadsBack(a);
    ExportReadsBack(b);
    assert ([HEADER] + a)[1..] == a && ([HEADER] + b)[1..] == b;
  }
}
