// The CSV export (`csv_row`, `csv_escape` and the row loop of `responses_csv` in
// src/routes/admin.rs) against a reader of section 2 of RFC 4180 with LF line ends.
module Csv {
  import opened Wrappers

  type Record = seq<string>

  // -------------------------------------------------------------------------
  // Writing
  // -------------------------------------------------------------------------

  predicate Special(c: char) {
    c == ',' || c == '"' || c == '\n' || c == '\r'
  }

  /** `s.replace('"', "\"\"")`. */
  function Doubled(s: string): string {
    if s == [] then [] else (if s[0] == '"' then "\"\"" else [s[0]]) + Doubled(s[1..])
  }

  function Escape(s: string): string {
    if exists c | c in s :: Special(c) then "\"" + Doubled(s) + "\"" else s
  }

  function Joined(cells: seq<string>): string
    requires cells != []
  {
    if |cells| == 1 then Escape(cells[0]) else Joined(cells[..|cells| - 1]) + "," + Escape(cells[|cells| - 1])
  }

  function RowText(cells: seq<string>): string {
    (if cells == [] then "" else Joined(cells)) + "\n"
  }

  method CsvRow(cells: seq<string>) returns (s: string)
    ensures s == RowText(cells)
  {
    s := "";
    var i := 0;
    while i < |cells|
      invariant 0 <= i <= |cells|
      invariant s == if i == 0 then "" else Joined(cells[..i])
    {
      assert cells[..i + 1][..i] == cells[..i];
      if i > 0 {
        s := s + ",";
      }
      s := s + Escape(cells[i]);
      i := i + 1;
    }
    assert cells[..i] == cells;
    s := s + "\n";
  }

  function TableText(rows: seq<Record>): string {
    if rows == [] then "" else TableText(rows[..|rows| - 1]) + RowText(rows[|rows| - 1])
  }

  /** The header, then one row per response. */
  method WriteTable(rows: seq<Record>) returns (out: string)
    ensures out == TableText(rows)
  {
    out := "";
    var i := 0;
    while i < |rows|
      invariant 0 <= i <= |rows|
      invariant out == TableText(rows[..i])
    {
      assert rows[..i + 1][..i] == rows[..i];
      var line := CsvRow(rows[i]);
      out := out + line;
      i := i + 1;
    }
    assert rows[..i] == rows;
  }

  // -------------------------------------------------------------------------
  // Reading: the grammar of RFC 4180, section 2
  // -------------------------------------------------------------------------

  /** Where the reader stands: before a field, inside a plain one, inside quotes, or after a
      quote that either closes the field or doubles. */
  datatype State = Start | Plain | Quoted | Closing

  /** Rows read, the cells of the current row, and the current field. */
  datatype Reader = Reader(state: State, rows: seq<Record>, cells: Record, field: string)

  function EndField(r: Reader): Reader {
    Reader(Start, r.rows, r.cells + [r.field], "")
  }

  function EndRow(r: Reader): Reader {
    Reader(Start, r.rows + [r.cells + [r.field]], [], "")
  }

  /** Reads one character; a quote in a plain field, text after a closing quote and a bare
      carriage return are errors. */
  function Read(r: Reader, c: char): Option<Reader> {
    match r.state
    case Start =>
      if c == '"' then Some(r.(state := Quoted))
      else if c == ',' then Some(EndField(r))
      else if c == '\n' then Some(EndRow(r))
      else if c == '\r' then None
      else Some(r.(state := Plain, field := r.field + [c]))
    case Plain =>
      if c == ',' then Some(EndField(r))
      else if c == '\n' then Some(EndRow(r))
      else if c == '"' || c == '\r' then None
      else Some(r.(field := r.field + [c]))
    case Quoted => if c == '"' then Some(r.(state := Closing)) else Some(r.(field := r.field + [c]))
    case Closing =>
      if c == '"' then Some(r.(state := Quoted, field := r.field + ['"']))
      else if c == ',' then Some(EndField(r))
      else if c == '\n' then Some(EndRow(r))
      else None
  }

  function ReadAll(r: Reader, text: string): Option<Reader>
    decreases |text|
  {
    if text == [] then Some(r)
    else
      var next := Read(r, text[0]);
      if next.None? then None else ReadAll(next.value, text[1..])
  }

  /** The table a text holds; it must end with a finished row. */
  function Parse(text: string): Option<seq<Record>> {
    var end := ReadAll(Reader(Start, [], [], ""), text);
    if end.Some? && end.value.state.Start? && end.value.cells == [] then Some(end.value.rows) else None
  }

  // -------------------------------------------------------------------------
  // There and back
  // -------------------------------------------------------------------------

  lemma {:induction false} ReadAppend(r: Reader, a: string, b: string)
    requires ReadAll(r, a).Some?
    ensures ReadAll(r, a + b) == ReadAll(ReadAll(r, a).value, b)
    decreases |a|
  {
    if a == [] {
      assert a + b == b;
    } else {
      assert (a + b)[1..] == a[1..] + b;
      ReadAppend(Read(r, a[0]).value, a[1..], b);
    }
  }

  lemma ReadOne(r: Reader, c: char)
    ensures ReadAll(r, [c]) == Read(r, c)
  {
  }

  lemma {:induction false} ReadPlain(r: Reader, s: string)
    requires r.state.Plain? && forall c | c in s :: !Special(c)
    ensures ReadAll(r, s) == Some(r.(field := r.field + s))
    decreases |s|
  {
    if s == [] {
      assert r.field + s == r.field;
    } else {
      var next := r.(field := r.field + [s[0]]);
      assert s[0] in s && Read(r, s[0]) == Some(next);
      ReadPlain(next, s[1..]);
      assert next.field + s[1..] == r.field + s;
    }
  }

  lemma {:induction false} ReadDoubled(r: Reader, s: string)
    requires r.state.Quoted?
    ensures ReadAll(r, Doubled(s)) == Some(r.(field := r.field + s))
    decreases |s|
  {
    if s == [] {
      assert r.field + s == r.field;
    } else {
      var head := if s[0] == '"' then "\"\"" else [s[0]];
      var next := r.(field := r.field + [s[0]]);
      if s[0] == '"' {
        assert "\"\"" == "\"" + "\"";
        ReadOne(r, '"');
        ReadOne(r.(state := Closing), '"');
        ReadAppend(r, "\"", "\"");
      } else {
        ReadOne(r, s[0]);
      }
      assert ReadAll(r, head) == Some(next);
      ReadAppend(r, head, Doubled(s[1..]));
      ReadDoubled(next, s[1..]);
      assert next.field + s[1..] == r.field + s;
    }
  }

  /** At the start of a field, an escaped cell followed by a separator reads as the cell. */
  lemma ReadCell(r: Reader, cell: string, stop: char)
    requires r.state.Start? && r.field == "" && (stop == ',' || stop == '\n')
    ensures ReadAll(r, Escape(cell) + [stop])
      == Some(if stop == ',' then EndField(r.(field := cell)) else EndRow(r.(field := cell)))
  {
    if exists c | c in cell :: Special(c) {
      ReadQuotedCell(r, cell, stop);
    } else {
      ReadPlainCell(r, cell, stop);
    }
  }

  lemma ReadPlainCell(r: Reader, cell: string, stop: char)
    requires r.state.Start? && r.field == "" && (stop == ',' || stop == '\n') && forall c | c in cell :: !Special(c)
    ensures ReadAll(r, cell + [stop])
      == Some(if stop == ',' then EndField(r.(field := cell)) else EndRow(r.(field := cell)))
  {
    if cell == [] {
      assert cell + [stop] == [stop];
      ReadOne(r, stop);
    } else {
      var first := r.(state := Plain, field := [cell[0]]);
      assert cell[0] in cell && r.field + [cell[0]] == [cell[0]];
      assert Read(r, cell[0]) == Some(first);
      ReadPlain(first, cell[1..]);
      var full := first.(field := cell);
      assert first.field + cell[1..] == cell;
      assert (cell + [stop])[1..] == cell[1..] + [stop];
      ReadAppend(first, cell[1..], [stop]);
      ReadOne(full, stop);
    }
  }

  lemma ReadQuotedCell(r: Reader, cell: string, stop: char)
    requires r.state.Start? && r.field == "" && (stop == ',' || stop == '\n')
    ensures ReadAll(r, "\"" + Doubled(cell) + "\"" + [stop])
      == Some(if stop == ',' then EndField(r.(field := cell)) else EndRow(r.(field := cell)))
  {
    var open := r.(state := Quoted);
    var full := open.(field := cell);
    var text := "\"" + Doubled(cell) + "\"" + [stop];
    assert text[1..] == Doubled(cell) + ("\"" + [stop]);
    ReadDoubled(open, cell);
    assert open.field + cell == cell;
    ReadAppend(open, Doubled(cell), "\"" + [stop]);
    ReadOne(full, '"');
    ReadAppend(full, "\"", [stop]);
    ReadOne(full.(state := Closing), stop);
  }

  lemma {:induction false} ReadCells(r: Reader, cells: Record, stop: char)
    requires r.state.Start? && r.field == "" && cells != [] && (stop == ',' || stop == '\n')
    ensures ReadAll(r, Joined(cells) + [stop])
      == Some(if stop == ',' then Reader(Start, r.rows, r.cells + cells, "") else Reader(Start, r.rows + [r.cells + cells], [], ""))
    decreases |cells|
  {
    var n := |cells| - 1;
    if n == 0 {
      ReadCell(r, cells[0], stop);
      assert cells == [cells[0]];
    } else {
      var mid := Reader(Start, r.rows, r.cells + cells[..n], "");
      ReadCells(r, cells[..n], ',');
      assert Joined(cells) + [stop] == (Joined(cells[..n]) + ",") + (Escape(cells[n]) + [stop]);
      ReadAppend(r, Joined(cells[..n]) + ",", Escape(cells[n]) + [stop]);
      ReadCell(mid, cells[n], stop);
      assert mid.cells + [cells[n]] == r.cells + cells;
    }
  }

  /** A row as a reader sees it: no line holds fewer than one cell. */
  function Shown(row: Record): Record {
    if row == [] then [""] else row
  }

  function ShownAll(rows: seq<Record>): (r: seq<Record>)
    ensures |r| == |rows|
  {
    seq(|rows|, i requires 0 <= i < |rows| => Shown(rows[i]))
  }

  lemma ReadRow(rows: seq<Record>, row: Record)
    ensures ReadAll(Reader(Start, rows, [], ""), RowText(row)) == Some(Reader(Start, rows + [Shown(row)], [], ""))
  {
    assert RowText(row) == Joined(Shown(row)) + "\n";
    ReadCells(Reader(Start, rows, [], ""), Shown(row), '\n');
    assert [] + Shown(row) == Shown(row);
  }

  lemma ShownSnoc(before: seq<Record>, last: Record)
    ensures ShownAll(before + [last]) == ShownAll(before) + [Shown(last)]
  {
  }

  lemma {:induction false} ReadTable(rows: seq<Record>)
    ensures ReadAll(Reader(Start, [], [], ""), TableText(rows)) == Some(Reader(Start, ShownAll(rows), [], ""))
  {
    if rows == [] {
      assert ShownAll(rows) == [];
    } else {
      var (before, last) := (rows[..|rows| - 1], rows[|rows| - 1]);
      ReadTable(before);
      ReadAppend(Reader(Start, [], [], ""), TableText(before), RowText(last));
      ReadRow(ShownAll(before), last);
      assert rows == before + [last];
      ShownSnoc(before, last);
    }
  }

  /** Reading an export gives back the table, whatever the cells contain, exactly when every
      row has a cell; a row without cells reads as one empty cell, and nothing else changes. */
  lemma CsvRoundTrip(rows: seq<Record>)
    ensures Parse(TableText(rows)) == Some(ShownAll(rows))
    ensures Parse(TableText(rows)) == Some(rows) <==> forall i | 0 <= i < |rows| :: rows[i] != []
  {
    ReadTable(rows);
    if ShownAll(rows) == rows {
      assert forall i | 0 <= i < |rows| :: Shown(rows[i]) == rows[i];
    }
  }
}
