/** `exportAsCSV` (src/utils/exportUtils.js): a fixed header line, then one
    line per result of nine cells, each wrapped in `"` with embedded quotes
    doubled (rule 7 of section 2 of RFC 4180), lines joined with `\n`.

    A reader for such rows is defined beside the writer, and every row is
    proved to read back as the cells it was written from. */
module Csv {
  import opened Wrappers
  import opened Seqs
  import opened Text
  import opened UseCases

  const Headers: seq<string> :=
    ["ID", "Title", "Category", "Subcategory", "Description", "Surfaces", "Modes", "Risk Level", "Tags"]

  /** `headers.join(',')`, written out. */
  const HeaderLine := "ID,Title,Category,Subcategory,Description,Surfaces,Modes,Risk Level,Tags"

  /** The nine cells of a result: a missing field is an empty cell and a
      list is joined with `"; "`. */
  function Cells(u: UseCase): (cells: seq<string>)
    ensures |cells| == |Headers|
  {
    [ u.id,
      TextOrEmpty(u.title),
      TextOrEmpty(u.category),
      TextOrEmpty(u.subcategory),
      TextOrEmpty(u.description),
      Join(ListOrEmpty(u.surfaces), "; "),
      Join(ListOrEmpty(u.modes), "; "),
      TextOrEmpty(u.riskLevel),
      Join(ListOrEmpty(u.tags), "; ") ]
  }

  /** Missing fields give empty cells, in the header's column order. */
  lemma CellsOfMissing(u: UseCase)
    ensures u.title.None? ==> Cells(u)[1] == ""
    ensures u.category.None? ==> Cells(u)[2] == ""
    ensures u.subcategory.None? ==> Cells(u)[3] == ""
    ensures u.description.None? ==> Cells(u)[4] == ""
    ensures u.surfaces.None? ==> Cells(u)[5] == ""
    ensures u.modes.None? ==> Cells(u)[6] == ""
    ensures u.riskLevel.None? ==> Cells(u)[7] == ""
    ensures u.tags.None? ==> Cells(u)[8] == ""
  {
  }

  /** `cell.replace(/"/g, '""')`. */
  function DoubleQuotes(s: string): (r: string)
    ensures |r| >= |s|
  {
    if s == [] then []
    else (if s[0] == '"' then "\"\"" else [s[0]]) + DoubleQuotes(s[1..])
  }

  /** A quoted cell. */
  function Quote(cell: string): string {
    "\"" + DoubleQuotes(cell) + "\""
  }

  /** One row of cells. */
  function RowText(cells: seq<string>): string {
    Join(Map(cells, Quote), ",")
  }

  function Row(u: UseCase): string {
    RowText(Cells(u))
  }

  /** `exportAsCSV(results)`. */
  function ExportCsv(results: seq<UseCase>): (r: string)
    ensures HeaderLine <= r
  {
    JoinFirstPart([HeaderLine] + Map(results, Row), "\n");
    Join([HeaderLine] + Map(results, Row), "\n")
  }

  // ---------------------------------------------------------------------
  // Reading rows back

  /** Reads a quoted cell after its opening quote: the content, with each
      `""` read as one `"`, and the text after the closing quote. */
  function ReadQuoted(s: string): (r: Option<(string, string)>)
    ensures r.Some? ==> |r.value.1| < |s|
    decreases |s|
  {
    if s == [] then None
    else if s[0] == '"' then
      if |s| >= 2 && s[1] == '"' then
        var inner := ReadQuoted(s[2..]);
        if inner.None? then None else Some(("\"" + inner.value.0, inner.value.1))
      else Some(("", s[1..]))
    else
      var inner := ReadQuoted(s[1..]);
      if inner.None? then None else Some(([s[0]] + inner.value.0, inner.value.1))
  }

  /** Reads quoted cells separated by commas, up to the first character
      after a cell that is not a comma. */
  function ReadCells(s: string): (r: Option<(seq<string>, string)>)
    ensures r.Some? ==> |r.value.1| < |s|
    decreases |s|
  {
    if s == [] || s[0] != '"' then None
    else
      var first := ReadQuoted(s[1..]);
      if first.None? then None
      else
        var rest := first.value.1;
        if rest != [] && rest[0] == ',' then
          var more := ReadCells(rest[1..]);
          if more.None? then None else Some(([first.value.0] + more.value.0, more.value.1))
        else Some(([first.value.0], rest))
  }

  /** Reads rows of quoted cells separated by `\n`, up to the end. */
  function ReadRows(s: string): Option<seq<seq<string>>>
    decreases |s|
  {
    var line := ReadCells(s);
    if line.None? then None
    else if line.value.1 == [] then Some([line.value.0])
    else if line.value.1[0] == '\n' then
      var more := ReadRows(line.value.1[1..]);
      if more.None? then None else Some([line.value.0] + more.value)
    else None
  }

  /** Un-doubling a quoted cell recovers the cell, and reading stops at the
      closing quote. */
  lemma {:induction false} ReadQuotedRoundTrip(cell: string, rest: string)
    requires rest == [] || rest[0] != '"'
    ensures ReadQuoted(DoubleQuotes(cell) + "\"" + rest) == Some((cell, rest))
    decreases |cell|
  {
    var s := DoubleQuotes(cell) + "\"" + rest;
    if cell == [] {
      assert s == "\"" + rest;
      assert s[1..] == rest;
    } else if cell[0] == '"' {
      ReadQuotedRoundTrip(cell[1..], rest);
      assert s[2..] == DoubleQuotes(cell[1..]) + "\"" + rest;
      assert "\"" + cell[1..] == cell;
    } else {
      ReadQuotedRoundTrip(cell[1..], rest);
      assert s[1..] == DoubleQuotes(cell[1..]) + "\"" + rest;
      assert [cell[0]] + cell[1..] == cell;
    }
  }

  /** A row of one cell is that cell quoted; a longer row is its first
      cell quoted, a comma, and the row of the others. */
  lemma RowTextCons(cells: seq<string>)
    requires cells != []
    ensures |cells| == 1 ==> RowText(cells) == Quote(cells[0])
    ensures |cells| > 1 ==> RowText(cells) == Quote(cells[0]) + "," + RowText(cells[1..])
  {
    assert Map(cells, Quote)[0] == Quote(cells[0]);
    if |cells| > 1 {
      assert Map(cells, Quote)[1..] == Map(cells[1..], Quote);
    }
  }

  /** A quoted cell followed by a line break or the end is a last cell. */
  lemma ReadLastCell(cell: string, rest: string)
    requires rest == [] || rest[0] == '\n'
    ensures ReadCells(Quote(cell) + rest) == Some(([cell], rest))
  {
    var s := Quote(cell) + rest;
    assert s[1..] == DoubleQuotes(cell) + "\"" + rest;
    ReadQuotedRoundTrip(cell, rest);
  }

  /** A quoted cell followed by a comma is followed by more cells. */
  lemma ReadNextCell(cell: string, more: string)
    requires ReadCells(more).Some?
    ensures ReadCells(Quote(cell) + "," + more)
         == Some(([cell] + ReadCells(more).value.0, ReadCells(more).value.1))
  {
    var s := Quote(cell) + "," + more;
    assert s[1..] == DoubleQuotes(cell) + "\"" + ("," + more);
    ReadQuotedRoundTrip(cell, "," + more);
    assert ("," + more)[1..] == more;
  }

  /** A written row reads back as its cells. */
  lemma {:induction false} ReadCellsRoundTrip(cells: seq<string>, rest: string)
    requires cells != []
    requires rest == [] || rest[0] == '\n'
    ensures ReadCells(RowText(cells) + rest) == Some((cells, rest))
    decreases |cells|
  {
    if |cells| == 1 {
      RowTextCons(cells);
      ReadLastCell(cells[0], rest);
      assert [cells[0]] == cells;
    } else {
      ReadCellsRoundTrip(cells[1..], rest);
      ReadCellsStep(cells, rest);
    }
  }

  /** If the cells after the first read back, so do all of them. */
  lemma ReadCellsStep(cells: seq<string>, rest: string)
    requires |cells| > 1
    requires ReadCells(RowText(cells[1..]) + rest) == Some((cells[1..], rest))
    ensures ReadCells(RowText(cells) + rest) == Some((cells, rest))
  {
    var tail := RowText(cells[1..]) + rest;
    RowTextCons(cells);
    ReadNextCell(cells[0], tail);
    assert Quote(cells[0]) + "," + tail == RowText(cells) + rest;
    assert [cells[0]] + cells[1..] == cells;
  }

  /** Rows joined with `\n`. */
  function RowsText(rows: seq<seq<string>>): string {
    Join(Map(rows, RowText), "\n")
  }

  lemma RowsTextCons(rows: seq<seq<string>>)
    requires |rows| > 1
    ensures RowsText(rows) == RowText(rows[0]) + "\n" + RowsText(rows[1..])
  {
    assert Map(rows, RowText)[0] == RowText(rows[0]);
    assert Map(rows, RowText)[1..] == Map(rows[1..], RowText);
  }

  /** A row followed by a line break is followed by more rows. */
  lemma ReadNextRow(row: seq<string>, more: string)
    requires row != [] && ReadRows(more).Some?
    ensures ReadRows(RowText(row) + "\n" + more) == Some([row] + ReadRows(more).value)
  {
    var s := RowText(row) + ("\n" + more);
    ReadCellsRoundTrip(row, "\n" + more);
    assert ReadCells(s) == Some((row, "\n" + more));
    assert ("\n" + more)[1..] == more;
    assert ReadRows(s) == Some([row] + ReadRows(more).value);
    assert RowText(row) + "\n" + more == s;
  }

  /** Written rows read back as their cells. */
  lemma {:induction false} ReadRowsRoundTrip(rows: seq<seq<string>>)
    requires rows != []
    requires forall i :: 0 <= i < |rows| ==> rows[i] != []
    ensures ReadRows(RowsText(rows)) == Some(rows)
    decreases |rows|
  {
    if |rows| == 1 {
      assert |Map(rows, RowText)| == 1 && Map(rows, RowText)[0] == RowText(rows[0]);
      assert RowsText(rows) == RowText(rows[0]);
      ReadCellsRoundTrip(rows[0], "");
      assert RowText(rows[0]) + "" == RowText(rows[0]);
      assert [rows[0]] == rows;
    } else {
      RowsTextCons(rows);
      ReadRowsRoundTrip(rows[1..]);
      ReadNextRow(rows[0], RowsText(rows[1..]));
      assert [rows[0]] + rows[1..] == rows;
    }
  }

  /** The lines after the header. */
  function CsvBody(results: seq<UseCase>): string {
    Join(Map(results, Row), "\n")
  }

  /** The export is the header line alone, or the header line, a `\n`, and
      text that reads back as the nine cells of every result, in order. */
  lemma ExportCsvRoundTrip(results: seq<UseCase>)
    ensures results == [] ==> ExportCsv(results) == HeaderLine
    ensures results != [] ==> ExportCsv(results) == HeaderLine + "\n" + CsvBody(results)
    ensures results != [] ==> ReadRows(CsvBody(results)) == Some(Map(results, Cells))
  {
    if results != [] {
      var lines := Map(results, Row);
      assert ([HeaderLine] + lines)[1..] == lines;
      var rows := Map(results, Cells);
      assert lines == Map(rows, RowText);
      ReadRowsRoundTrip(rows);
    }
  }
}
