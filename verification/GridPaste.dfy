/**
  Text pasted from a spreadsheet, as rows of cells: tabs separate cells, line breaks separate rows,
  and a quoted cell may hold both, with its quotes doubled.
*/
module GridPaste {
  import opened Wrappers

  type Row = seq<string>

  predicate IsSeparator(c: char) { c == '\t' || c == '\r' || c == '\n' }

  /** What the scan has read: finished rows, the row and cell being read, and whether inside quotes. */
  datatype Scan = Scan(rows: seq<Row>, row: Row, cell: string, quoted: bool, atCellStart: bool)

  function EndCell(s: Scan): Scan { Scan(s.rows, s.row + [s.cell], "", s.quoted, true) }

  function EndRow(s: Scan): Scan { Scan(s.rows + [s.row + [s.cell]], [], "", s.quoted, true) }

  predicate Doubled(rest: string) { |rest| > 1 && rest[0] == '"' && rest[1] == '"' }

  /** The state after the next character, and how many characters it takes (two for a pair). */
  function Step(rest: string, s: Scan): (Scan, nat)
    requires rest != ""
  {
    var c := rest[0];
    if s.quoted then
      if Doubled(rest) then (s.(cell := s.cell + "\""), 2)
      else if c == '"' then (s.(quoted := false), 1)
      else (s.(cell := s.cell + [c]), 1)
    else if c == '"' && s.atCellStart then (s.(quoted := true, atCellStart := false), 1)
    else if c == '\t' then (EndCell(s), 1)
    else if c == '\r' || c == '\n' then (EndRow(s), if c == '\r' && |rest| > 1 && rest[1] == '\n' then 2 else 1)
    else (s.(cell := s.cell + [c], atCellStart := false), 1)
  }

  function ScanAll(rest: string, s: Scan): Scan
    decreases |rest|
  {
    if rest == "" then s
    else
      var (next, n) := Step(rest, s);
      ScanAll(rest[n..], next)
  }

  /** The last row is closed by the end of the text, unless a line break already did. */
  function Finished(s: Scan): seq<Row> {
    if s.cell != "" || s.row != [] then EndRow(s).rows else s.rows
  }

  function GridOf(text: string): Option<seq<Row>> {
    if !exists i :: 0 <= i < |text| && IsSeparator(text[i]) then None
    else Some(Finished(ScanAll(text, Scan([], [], "", false, true))))
  }

  /** One pass over the characters, looking one ahead. */
  method ParseClipboardGrid(text: string) returns (r: Option<seq<Row>>)
    ensures r == GridOf(text)
  {
    if !exists i :: 0 <= i < |text| && IsSeparator(text[i]) {
      return None;
    }
    var rows: seq<Row>, row: Row, cell: string := [], [], "";
    var quoted, atCellStart := false, true;
    var i := 0;
    assert text[0..] == text;
    while i < |text|
      invariant 0 <= i <= |text|
      invariant ScanAll(text[i..], Scan(rows, row, cell, quoted, atCellStart))
             == ScanAll(text, Scan([], [], "", false, true))
    {
      var c := text[i];
      ghost var rest := text[i..];
      assert rest[1..] == text[i + 1..] && (|rest| > 1 ==> rest[2..] == text[i + 2..]);
      if quoted {
        if c == '"' && i + 1 < |text| && text[i + 1] == '"' {
          cell := cell + "\"";
          i := i + 1;
        } else if c == '"' {
          quoted := false;
        } else {
          cell := cell + [c];
        }
      } else if c == '"' && atCellStart {
        quoted := true;
        atCellStart := false;
      } else if c == '\t' {
        row := row + [cell];
        cell := "";
        atCellStart := true;
      } else if c == '\r' || c == '\n' {
        if c == '\r' && i + 1 < |text| && text[i + 1] == '\n' {
          i := i + 1;
        }
        row := row + [cell];
        rows := rows + [row];
        row, cell, atCellStart := [], "", true;
      } else {
        cell := cell + [c];
        atCellStart := false;
      }
      i := i + 1;
    }
    if cell != "" || row != [] {
      row := row + [cell];
      rows := rows + [row];
    }
    r := Some(rows);
  }

  // ─── Writing ──────────────────────────────────────────

  function Escaped(cell: string): string {
    if cell == "" then "" else (if cell[0] == '"' then "\"\"" else [cell[0]]) + Escaped(cell[1..])
  }

  /** A cell that needs no quotes: it does not begin with one, and holds no separator. */
  predicate Plain(cell: string) {
    (cell != "" ==> cell[0] != '"') && forall i :: 0 <= i < |cell| ==> !IsSeparator(cell[i])
  }

  /** A cell as it is written, with quotes or, where it can, without them. */
  datatype Written = Written(cell: string, quoted: bool)

  predicate Writable(w: Written) { w.quoted || Plain(w.cell) }

  function WriteCell(w: Written): string {
    if w.quoted then "\"" + Escaped(w.cell) + "\"" else w.cell
  }

  datatype Break = LF | CR | CRLF

  function BreakText(b: Break): string {
    match b
    case LF => "\n"
    case CR => "\r"
    case CRLF => "\r\n"
  }

  datatype WrittenRow = WrittenRow(cells: seq<Written>, end: Break)

  /** The cells of a row with tabs between them. */
  function WriteCells(cells: seq<Written>): string
    requires cells != []
  {
    if |cells| == 1 then WriteCell(cells[0]) else WriteCell(cells[0]) + "\t" + WriteCells(cells[1..])
  }

  /** A row whose whole text is one LF. */
  predicate OnlyLF(row: WrittenRow) { row.cells == [Written("", false)] && row.end == LF }

  /** No row is empty, every cell can be written as asked, and no CR is followed by a row that is only an LF. */
  predicate WritableGrid(rows: seq<WrittenRow>) {
    && (forall i :: 0 <= i < |rows| ==>
          rows[i].cells != [] && forall j :: 0 <= j < |rows[i].cells| ==> Writable(rows[i].cells[j]))
    && (forall i :: 0 < i < |rows| ==> !(rows[i - 1].end == CR && OnlyLF(rows[i])))
  }

  function WriteGrid(rows: seq<WrittenRow>): string
    requires WritableGrid(rows)
  {
    if rows == [] then ""
    else WriteCells(rows[0].cells) + BreakText(rows[0].end) + WriteGrid(rows[1..])
  }

  function CellsOf(cells: seq<Written>): Row { seq(|cells|, i requires 0 <= i < |cells| => cells[i].cell) }

  function GridCells(rows: seq<WrittenRow>): seq<Row> {
    seq(|rows|, i requires 0 <= i < |rows| => CellsOf(rows[i].cells))
  }

  // ─── Reading what was written ─────────────────────────

  /** Inside quotes, an escaped cell is read whole, up to its closing quote. */
  lemma {:induction false} QuotedBody(cell: string, tail: string, s: Scan)
    requires s.quoted && (tail == "" || tail[0] != '"')
    ensures ScanAll(Escaped(cell) + "\"" + tail, s) == ScanAll(tail, s.(cell := s.cell + cell, quoted := false))
    decreases |cell|
  {
    var rest := Escaped(cell) + "\"" + tail;
    if cell == "" {
      assert rest == "\"" + tail && rest[1..] == tail;
      assert s.cell + cell == s.cell;
    } else {
      var after := Escaped(cell[1..]) + "\"" + tail;
      var first := if cell[0] == '"' then "\"\"" else [cell[0]];
      assert rest == first + after && rest[|first|..] == after;
      assert s.cell + [cell[0]] + cell[1..] == s.cell + cell;
      QuotedBody(cell[1..], tail, s.(cell := s.cell + [cell[0]]));
    }
  }

  lemma {:induction false} PlainBody(cell: string, tail: string, s: Scan)
    requires !s.quoted && !s.atCellStart && forall i :: 0 <= i < |cell| ==> !IsSeparator(cell[i])
    ensures ScanAll(cell + tail, s) == ScanAll(tail, s.(cell := s.cell + cell))
    decreases |cell|
  {
    if cell == "" {
      assert cell + tail == tail && s.cell + cell == s.cell;
    } else {
      assert (cell + tail)[1..] == cell[1..] + tail;
      assert s.cell + [cell[0]] + cell[1..] == s.cell + cell;
      PlainBody(cell[1..], tail, s.(cell := s.cell + [cell[0]]));
    }
  }

  predicate AtCell(s: Scan) { s.cell == "" && !s.quoted && s.atCellStart }

  lemma ReadQuoted(cell: string, tail: string, s: Scan)
    requires AtCell(s) && (tail == "" || tail[0] != '"')
    ensures ScanAll("\"" + Escaped(cell) + "\"" + tail, s) == ScanAll(tail, s.(cell := cell, atCellStart := false))
  {
    var body := Escaped(cell) + "\"" + tail;
    var text := "\"" + Escaped(cell) + "\"" + tail;
    assert text[1..] == body && text[0] == '"';
    var inside := s.(quoted := true, atCellStart := false);
    assert ScanAll(text, s) == ScanAll(body, inside);
    QuotedBody(cell, tail, inside);
    assert "" + cell == cell;
  }

  lemma ReadPlain(cell: string, tail: string, s: Scan)
    requires AtCell(s) && Plain(cell) && cell != ""
    ensures ScanAll(cell + tail, s) == ScanAll(tail, s.(cell := cell, atCellStart := false))
  {
    hide Step, ScanAll;
    var rest := cell[1..];
    assert (cell + tail)[1..] == rest + tail && (cell + tail)[0] == cell[0];
    FirstPlain(cell + tail, s);
    PlainBody(rest, tail, s.(cell := [cell[0]], atCellStart := false));
    assert [cell[0]] + rest == cell;
  }

  lemma FirstPlain(text: string, s: Scan)
    requires AtCell(s) && text != "" && !IsSeparator(text[0]) && text[0] != '"'
    ensures ScanAll(text, s) == ScanAll(text[1..], s.(cell := [text[0]], atCellStart := false))
  {
    assert s.cell + [text[0]] == [text[0]];
  }

  lemma ReadCell(w: Written, tail: string, s: Scan)
    requires Writable(w) && AtCell(s) && tail != "" && IsSeparator(tail[0])
    ensures ScanAll(WriteCell(w) + tail, s)
         == ScanAll(tail, s.(cell := w.cell, atCellStart := !w.quoted && w.cell == ""))
  {
    hide ScanAll, Escaped;
    if w.quoted {
      ReadQuoted(w.cell, tail, s);
    } else if w.cell == "" {
      assert WriteCell(w) + tail == tail;
    } else {
      ReadPlain(w.cell, tail, s);
    }
  }

  lemma ReadBreak(b: Break, tail: string, s: Scan)
    requires !s.quoted && !(b == CR && tail != "" && tail[0] == '\n')
    ensures ScanAll(BreakText(b) + tail, s) == ScanAll(tail, EndRow(s))
  {
    var text := BreakText(b) + tail;
    assert text[|BreakText(b)|..] == tail;
  }

  lemma {:induction false} ReadRow(cells: seq<Written>, b: Break, tail: string, s: Scan)
    requires cells != [] && (forall j :: 0 <= j < |cells| ==> Writable(cells[j])) && AtCell(s)
    requires !(b == CR && tail != "" && tail[0] == '\n')
    ensures ScanAll(WriteCells(cells) + BreakText(b) + tail, s)
         == ScanAll(tail, Scan(s.rows + [s.row + CellsOf(cells)], [], "", false, true))
    decreases |cells|
  {
    hide ScanAll, WriteCell, BreakText;
    var first := cells[0];
    var read := s.(cell := first.cell, atCellStart := !first.quoted && first.cell == "");
    BreakBegins(b, tail);
    if |cells| == 1 {
      Regroup(WriteCell(first), BreakText(b), tail);
      ReadCell(first, BreakText(b) + tail, s);
      ReadBreak(b, tail, read);
      assert CellsOf(cells) == [first.cell];
    } else {
      var more := WriteCells(cells[1..]) + BreakText(b) + tail;
      RegroupRow(WriteCell(first), WriteCells(cells[1..]), BreakText(b), tail);
      ReadCell(first, "\t" + more, s);
      ReadTab(more, read);
      ReadRow(cells[1..], b, tail, EndCell(read));
      CellsOfSplit(s.row, cells);
    }
  }

  lemma BreakBegins(b: Break, tail: string)
    ensures BreakText(b) + tail != "" && IsSeparator((BreakText(b) + tail)[0])
  {
  }

  lemma Regroup(a: string, b: string, c: string)
    ensures a + b + c == a + (b + c)
  {
  }

  lemma RegroupRow(a: string, m: string, b: string, c: string)
    ensures a + "\t" + m + b + c == a + ("\t" + (m + b + c))
  {
  }

  lemma CellsOfSplit(row: Row, cells: seq<Written>)
    requires cells != []
    ensures row + [cells[0].cell] + CellsOf(cells[1..]) == row + CellsOf(cells)
  {
  }

  lemma ReadTab(tail: string, s: Scan)
    requires !s.quoted
    ensures ScanAll("\t" + tail, s) == ScanAll(tail, EndCell(s))
  {
    assert ("\t" + tail)[1..] == tail;
  }

  function FirstChar(row: WrittenRow): char
    requires row.cells != []
  {
    if WriteCell(row.cells[0]) != "" then WriteCell(row.cells[0])[0]
    else if |row.cells| > 1 then '\t' else BreakText(row.end)[0]
  }

  lemma GridBegins(rows: seq<WrittenRow>)
    requires WritableGrid(rows) && rows != []
    ensures WriteGrid(rows) != "" && WriteGrid(rows)[0] == FirstChar(rows[0])
  {
    var cells := rows[0].cells;
    assert WriteCells(cells) != "" ==> WriteCells(cells)[0] == FirstChar(rows[0]);
  }

  /** A row begins with LF only when it is nothing else. */
  lemma OnlyLFBeginsWithLF(row: WrittenRow)
    requires row.cells != [] && Writable(row.cells[0]) && FirstChar(row) == '\n'
    ensures OnlyLF(row)
  {
  }

  lemma NoLFAfterCR(rows: seq<WrittenRow>)
    requires WritableGrid(rows) && rows != [] && WritableGrid(rows[1..])
    ensures var tail := WriteGrid(rows[1..]);
            !(rows[0].end == CR && tail != "" && tail[0] == '\n')
  {
    if |rows| > 1 {
      GridBegins(rows[1..]);
      assert Writable(rows[1].cells[0]);
      if FirstChar(rows[1]) == '\n' { OnlyLFBeginsWithLF(rows[1]); }
    }
  }

  lemma TailIsWritable(rows: seq<WrittenRow>)
    requires WritableGrid(rows) && rows != []
    ensures WritableGrid(rows[1..])
  {
    forall i | 0 < i < |rows[1..]| ensures !(rows[1..][i - 1].end == CR && OnlyLF(rows[1..][i])) {
      assert rows[1..][i] == rows[i + 1] && rows[1..][i - 1] == rows[i];
    }
  }

  lemma {:induction false} ReadGrid(rows: seq<WrittenRow>, s: Scan)
    requires WritableGrid(rows) && AtCell(s) && s.row == []
    ensures ScanAll(WriteGrid(rows), s) == Scan(s.rows + GridCells(rows), [], "", false, true)
    decreases |rows|
  {
    if rows == [] {
      assert s.rows + [] == s.rows;
    } else {
      TailIsWritable(rows);
      var tail := WriteGrid(rows[1..]);
      NoLFAfterCR(rows);
      ReadRow(rows[0].cells, rows[0].end, tail, s);
      var next := Scan(s.rows + [[] + CellsOf(rows[0].cells)], [], "", false, true);
      ReadGrid(rows[1..], next);
      assert [] + CellsOf(rows[0].cells) == CellsOf(rows[0].cells);
      assert s.rows + [CellsOf(rows[0].cells)] + GridCells(rows[1..]) == s.rows + GridCells(rows);
    }
  }

  lemma HasSeparator(rows: seq<WrittenRow>)
    requires WritableGrid(rows) && rows != []
    ensures exists i :: 0 <= i < |WriteGrid(rows)| && IsSeparator(WriteGrid(rows)[i])
  {
    var n := |WriteCells(rows[0].cells)|;
    assert IsSeparator(WriteGrid(rows)[n]);
  }

  /**
    Writing any matrix of non-empty rows and reading it gives the matrix back, for all cell contents:
    each cell in quotes or, where it needs none, without; each row ended by any of the line breaks.
  */
  lemma RoundTrip(rows: seq<WrittenRow>)
    requires rows != [] && WritableGrid(rows)
    ensures GridOf(WriteGrid(rows)) == Some(GridCells(rows))
  {
    hide ScanAll;
    HasSeparator(rows);
    ReadGrid(rows, Scan([], [], "", false, true));
    assert [] + GridCells(rows) == GridCells(rows);
  }

  /** A matrix with every cell quoted and a line feed after each row. */
  function Quoted(matrix: seq<Row>): seq<WrittenRow> {
    seq(|matrix|, i requires 0 <= i < |matrix| =>
      WrittenRow(seq(|matrix[i]|, j requires 0 <= j < |matrix[i]| => Written(matrix[i][j], true)), LF))
  }

  /** In particular with everything quoted, whatever the cells hold: tabs, line breaks and quotes included. */
  lemma QuotedRoundTrip(matrix: seq<Row>)
    requires matrix != [] && forall i :: 0 <= i < |matrix| ==> matrix[i] != []
    ensures WritableGrid(Quoted(matrix)) && GridOf(WriteGrid(Quoted(matrix))) == Some(matrix)
  {
    hide GridOf, WriteGrid;
    var rows := Quoted(matrix);
    RoundTrip(rows);
    forall i | 0 <= i < |matrix| ensures GridCells(rows)[i] == matrix[i] {
      assert CellsOf(rows[i].cells) == matrix[i];
    }
    assert GridCells(rows) == matrix;
  }
}
