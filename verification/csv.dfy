/**
 * The CSV text both export buttons build: a header line of comma-joined
 * column names, then one line per record whose cells are each wrapped in
 * double quotes and joined by commas, all joined by line feeds. Cells are
 * wrapped but not escaped: a double quote inside a cell is copied as is.
 */
module Csv {
  import opened Text

  /** A cell wrapped in double quotes, its contents copied unchanged. */
  function Quote(cell: string): (q: string)
    ensures |q| == |cell| + 2
    ensures q[0] == '"' && q[|q| - 1] == '"'
    ensures q[1..|q| - 1] == cell
  {
    "\"" + cell + "\""
  }

  /** Strip one pair of surrounding double quotes; anything else is kept as is. */
  function Unquote(field: string): (cell: string)
    ensures |field| >= 2 && field[0] == '"' && field[|field| - 1] == '"' ==> cell == field[1..|field| - 1]
  {
    if |field| >= 2 && field[0] == '"' && field[|field| - 1] == '"' then field[1..|field| - 1]
    else field
  }

  /**
   * A data line: every cell quoted, then joined by commas. A line with cells
   * opens with its first cell's quote and closes with its last cell's.
   */
  function Row(cells: seq<string>): (line: string)
    ensures cells == [] ==> line == ""
    ensures cells != [] ==> |line| >= 2 && line[0] == '"' && line[|line| - 1] == '"'
    ensures |cells| == 1 ==> line == Quote(cells[0])
  {
    var quoted := seq(|cells|, i requires 0 <= i < |cells| => Quote(cells[i]));
    if cells == [] then Join(quoted, ',')
    else
      JoinEnds(quoted, ',');
      Join(quoted, ',')
  }

  /** The lines of the document: the bare header line, then one line per row. */
  function Lines(headers: seq<string>, rows: seq<seq<string>>): (lines: seq<string>)
    ensures |lines| == |rows| + 1
  {
    [Join(headers, ',')] + seq(|rows|, i requires 0 <= i < |rows| => Row(rows[i]))
  }

  /** One row of cells per record, in list order. */
  function Rows<T>(records: seq<T>, cells: T -> seq<string>): (rows: seq<seq<string>>)
    ensures |rows| == |records|
    ensures forall i :: 0 <= i < |rows| ==> rows[i] == cells(records[i])
  {
    seq(|records|, i requires 0 <= i < |records| => cells(records[i]))
  }

  /**
   * The exported text: it always opens with the header line, and with no
   * rows it is the header line alone.
   */
  function Document(headers: seq<string>, rows: seq<seq<string>>): (text: string)
    ensures |text| >= |Join(headers, ',')| && text[..|Join(headers, ',')|] == Join(headers, ',')
    ensures rows == [] ==> text == Join(headers, ',')
  {
    var lines := Lines(headers, rows);
    assert lines[0] == Join(headers, ',');
    JoinEnds(lines, '\n');
    Join(lines, '\n')
  }

  /** No cell of any row contains the character `c`. */
  predicate CellsFree(rows: seq<seq<string>>, c: char) {
    forall i :: 0 <= i < |rows| ==> SeparatorFree(rows[i], c)
  }

  /** Reading a data line back: split at commas and strip each field's quotes. */
  function ParseRow(line: string): (cells: seq<string>)
    ensures |cells| == |Split(line, ',')|
  {
    var fields := Split(line, ',');
    seq(|fields|, i requires 0 <= i < |fields| => Unquote(fields[i]))
  }

  /** A quoted cell contains a character other than `"` only if the cell does. */
  lemma QuoteFree(cell: string, c: char)
    requires c != '"' && c !in cell
    ensures c !in Quote(cell)
  {
    var q := Quote(cell);
    forall k | 0 <= k < |q|
      ensures q[k] != c
    {
      if 0 < k < |q| - 1 {
        assert q[k] == cell[k - 1];
      }
    }
  }

  /** A data line holds no line feed when none of its cells does. */
  lemma RowFree(cells: seq<string>, c: char)
    requires c != '"' && c != ',' && SeparatorFree(cells, c)
    ensures c !in Row(cells)
  {
    var quoted := seq(|cells|, i requires 0 <= i < |cells| => Quote(cells[i]));
    forall i | 0 <= i < |quoted|
      ensures c !in quoted[i]
    {
      QuoteFree(cells[i], c);
    }
    JoinSeparatorFree(quoted, ',', c);
  }

  /**
   * Round trip of a line: when no cell holds a comma, the line splits at its
   * commas into exactly the quoted cells, each cell wrapped in double quotes,
   * and reading the line back yields exactly the cells that were written.
   */
  lemma RowRoundTrip(cells: seq<string>)
    requires |cells| >= 1 && SeparatorFree(cells, ',')
    ensures Split(Row(cells), ',') == seq(|cells|, i requires 0 <= i < |cells| => Quote(cells[i]))
    ensures ParseRow(Row(cells)) == cells
  {
    var quoted := seq(|cells|, i requires 0 <= i < |cells| => Quote(cells[i]));
    forall i | 0 <= i < |quoted|
      ensures ',' !in quoted[i]
    {
      QuoteFree(cells[i], ',');
    }
    SplitJoin(quoted, ',');
    var parsed := ParseRow(Row(cells));
    assert |parsed| == |cells|;
    forall i | 0 <= i < |cells|
      ensures parsed[i] == cells[i]
    {
      assert parsed[i] == Unquote(quoted[i]);
    }
  }

  /**
   * When no header and no cell holds a line feed, the document splits into
   * exactly the header line and one line per row, in order.
   */
  lemma DocumentLines(headers: seq<string>, rows: seq<seq<string>>)
    requires SeparatorFree(headers, '\n') && CellsFree(rows, '\n')
    ensures Split(Document(headers, rows), '\n') == Lines(headers, rows)
    ensures |Split(Document(headers, rows), '\n')| == |rows| + 1
  {
    var lines := Lines(headers, rows);
    forall i | 0 <= i < |lines|
      ensures '\n' !in lines[i]
    {
      if i == 0 {
        JoinSeparatorFree(headers, ',', '\n');
      } else {
        assert lines[i] == Row(rows[i - 1]);
        RowFree(rows[i - 1], '\n');
      }
    }
    SplitJoin(lines, '\n');
  }

  /**
   * Reading the whole document back: with no line feed anywhere and no comma
   * in any cell, line `i + 1` reads back as row `i`.
   */
  lemma DocumentReadBack(headers: seq<string>, rows: seq<seq<string>>)
    requires SeparatorFree(headers, '\n') && CellsFree(rows, '\n') && CellsFree(rows, ',')
    requires forall i :: 0 <= i < |rows| ==> |rows[i]| >= 1
    ensures var lines := Split(Document(headers, rows), '\n');
      |lines| == |rows| + 1 && forall i :: 0 <= i < |rows| ==> ParseRow(lines[i + 1]) == rows[i]
  {
    DocumentLines(headers, rows);
    var lines := Lines(headers, rows);
    forall i | 0 <= i < |rows|
      ensures ParseRow(lines[i + 1]) == rows[i]
    {
      RowRoundTrip(rows[i]);
    }
  }

  // ---------------------------------------------------------------------------
  // Comparison with RFC 4180
  // ---------------------------------------------------------------------------

  /** Section 2 of RFC 4180: a double quote inside a quoted field is written twice. */
  function EscapeQuotes(s: string): (r: string)
    ensures |r| >= |s|
    ensures '"' !in s ==> r == s
    ensures '"' in s ==> |r| > |s|
  {
    if s == [] then []
    else (if s[0] == '"' then "\"\"" else [s[0]]) + EscapeQuotes(s[1..])
  }

  /** A field as RFC 4180 writes it: quoted, with inner quotes doubled. */
  function RfcField(cell: string): string {
    "\"" + EscapeQuotes(cell) + "\""
  }

  /** The export's quoting agrees with RFC 4180 exactly for cells without a double quote. */
  lemma QuoteMatchesRfc(cell: string)
    ensures Quote(cell) == RfcField(cell) <==> '"' !in cell
  {
    if '"' in cell {
      assert |RfcField(cell)| > |Quote(cell)|;
    }
  }
}
