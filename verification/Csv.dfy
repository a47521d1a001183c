// src/services/exportService.ts: the CSV writer, against a reader of the
// grammar in section 2 of RFC 4180.
module Csv {
  import opened Wrappers

  datatype Column = Column(header: string, key: string)
  type Row = map<string, Option<string>>       // each value already through String(); null is None

  // ---------------------------------------------------------------- the writer

  predicate NeedsQuotes(c: char) { c == '"' || c == ',' || c == '\n' || c == '\r' }

  function Doubled(s: string): string {
    if s == [] then [] else Doubled(s[..|s| - 1]) + if s[|s| - 1] == '"' then "\"\"" else [s[|s| - 1]]
  }

  function CsvEscape(value: Option<string>): string {
    if value.None? then ""
    else if exists i :: 0 <= i < |value.value| && NeedsQuotes(value.value[i]) then "\"" + Doubled(value.value) + "\""
    else value.value
  }

  /** A value is quoted when it contains a quote, a comma or a line break, and written as it is otherwise; null is nothing. */
  lemma {:induction false} EscapeExactly(value: Option<string>)
    ensures value.None? ==> CsvEscape(value) == ""
    ensures value.Some? ==>
              var s := value.value;
              if '"' in s || ',' in s || '\r' in s || '\n' in s
              then CsvEscape(value) == "\"" + Doubled(s) + "\"" else CsvEscape(value) == s
  {
    if value.Some? {
      var s := value.value;
      if i :| 0 <= i < |s| && NeedsQuotes(s[i]) {
        assert s[i] in s;
      }
    }
  }

  function Cell(row: Row, key: string): Option<string> { if key in row then row[key] else None }

  function HeaderCells(columns: seq<Column>): (cells: seq<Option<string>>)
    ensures |cells| == |columns| && forall i :: 0 <= i < |columns| ==> cells[i] == Some(columns[i].header)
  {
    seq(|columns|, i requires 0 <= i < |columns| => Some(columns[i].header))
  }

  function RowCells(columns: seq<Column>, row: Row): (cells: seq<Option<string>>)
    ensures |cells| == |columns| && forall i :: 0 <= i < |columns| ==> cells[i] == Cell(row, columns[i].key)
  {
    seq(|columns|, i requires 0 <= i < |columns| => Cell(row, columns[i].key))
  }

  /** The table being exported: the header, then a line per row. */
  function Table(columns: seq<Column>, rows: seq<Row>): (t: seq<seq<Option<string>>>)
    ensures t != [] && forall i :: 0 <= i < |t| ==> |t[i]| == |columns|
  {
    if rows == [] then [HeaderCells(columns)]
    else Table(columns, rows[..|rows| - 1]) + [RowCells(columns, rows[|rows| - 1])]
  }

  function Line(cells: seq<Option<string>>): string {
    if cells == [] then ""
    else if |cells| == 1 then CsvEscape(cells[0])
    else Line(cells[..|cells| - 1]) + "," + CsvEscape(cells[|cells| - 1])
  }

  function Text(t: seq<seq<Option<string>>>): string
    requires t != []
  {
    if |t| == 1 then Line(t[0]) else Text(t[..|t| - 1]) + "\r\n" + Line(t[|t| - 1])
  }

  function JoinedLines(lines: seq<string>): string
    requires lines != []
  {
    if |lines| == 1 then lines[0] else JoinedLines(lines[..|lines| - 1]) + "\r\n" + lines[|lines| - 1]
  }

  /** buildCsvBuffer, before the UTF-8 encoding. */
  method BuildCsv(columns: seq<Column>, rows: seq<Row>) returns (csv: string)
    ensures csv == Text(Table(columns, rows))
  {
    var lines := [Line(HeaderCells(columns))];
    var i := 0;
    while i < |rows|
      invariant 0 <= i <= |rows| && lines != []
      invariant JoinedLines(lines) == Text(Table(columns, rows[..i]))
    {
      assert rows[..i + 1][..i] == rows[..i];
      var line := Line(RowCells(columns, rows[i]));
      assert (lines + [line])[..|lines|] == lines;
      TextSnoc(Table(columns, rows[..i]), RowCells(columns, rows[i]));
      lines := lines + [line];
      i := i + 1;
    }
    assert rows[..|rows|] == rows;
    csv := JoinedLines(lines);
  }

  lemma {:induction false} TextSnoc(t: seq<seq<Option<string>>>, cells: seq<Option<string>>)
    requires t != []
    ensures Text(t + [cells]) == Text(t) + "\r\n" + Line(cells)
  {
    assert (t + [cells])[..|t|] == t;
  }

  // ---------------------------------------------------------------- the reader

  /** TEXTDATA: as the grammar has it, or widened to every character that is no delimiter. */
  predicate TextData(c: char, wide: bool) {
    !NeedsQuotes(c) && (wide || ' ' <= c <= '~')
  }

  datatype Mode = Start | Plain | Quoted | QuoteSeen | CrSeen | Bad
  datatype Reader = Reader(records: seq<seq<string>>, record: seq<string>, field: string, mode: Mode)

  const FRESH := Reader([], [], "", Start)

  function EndField(r: Reader, mode: Mode): Reader { Reader(r.records, r.record + [r.field], "", mode) }

  function Step(r: Reader, c: char, wide: bool): Reader {
    match r.mode
    case Start =>
      if c == '"' then r.(mode := Quoted)
      else if c == ',' then EndField(r, Start)
      else if c == '\r' then EndField(r, CrSeen)
      else if TextData(c, wide) then r.(field := r.field + [c], mode := Plain)
      else r.(mode := Bad)
    case Plain =>
      if c == ',' then EndField(r, Start)
      else if c == '\r' then EndField(r, CrSeen)
      else if TextData(c, wide) then r.(field := r.field + [c])
      else r.(mode := Bad)
    case Quoted =>
      if c == '"' then r.(mode := QuoteSeen)
      else if TextData(c, wide) || c == ',' || c == '\r' || c == '\n' then r.(field := r.field + [c])
      else r.(mode := Bad)
    case QuoteSeen =>
      if c == '"' then r.(field := r.field + [c], mode := Quoted)
      else if c == ',' then EndField(r, Start)
      else if c == '\r' then EndField(r, CrSeen)
      else r.(mode := Bad)
    case CrSeen =>
      if c == '\n' then Reader(r.records + [r.record], [], "", Start) else r.(mode := Bad)
    case Bad => r
  }

  function Feed(r: Reader, s: string, wide: bool): Reader {
    if s == [] then r else Step(Feed(r, s[..|s| - 1], wide), s[|s| - 1], wide)
  }

  /** The records of a file, or None when it does not follow the grammar. */
  function Read(s: string, wide: bool): Option<seq<seq<string>>> {
    var r := Feed(FRESH, s, wide);
    if r.mode in {Start, Plain, QuoteSeen} then Some(r.records + [r.record + [r.field]]) else None
  }

  // ------------------------------------------------------------------ the round trip

  lemma {:induction false} FeedConcat(r: Reader, a: string, b: string, wide: bool)
    ensures Feed(r, a + b, wide) == Feed(Feed(r, a, wide), b, wide)
    decreases |b|
  {
    if b == [] {
      assert a + b == a;
    } else {
      FeedConcat(r, a, b[..|b| - 1], wide);
      assert (a + b)[..|a + b| - 1] == a + b[..|b| - 1];
    }
  }

  lemma {:induction false} FeedOne(r: Reader, c: char, wide: bool)
    ensures Feed(r, [c], wide) == Step(r, c, wide)
  {
    assert [c][..0] == [];
  }

  lemma {:induction false} FeedNothing(r: Reader, wide: bool)
    ensures Feed(r, [], wide) == r
  {
  }

  predicate Readable(s: string, wide: bool) { forall i | 0 <= i < |s| :: NeedsQuotes(s[i]) || TextData(s[i], wide) }

  lemma {:induction false} FeedPlain(r: Reader, s: string, wide: bool)
    requires r.mode == Start && r.field == "" && forall i | 0 <= i < |s| :: TextData(s[i], wide)
    ensures Feed(r, s, wide) == r.(field := s, mode := if s == [] then Start else Plain)
    decreases |s|
  {
    if s != [] {
      FeedPlain(r, s[..|s| - 1], wide);
      assert s[..|s| - 1] + [s[|s| - 1]] == s;
    }
  }

  lemma {:induction false} FeedQuoted(r: Reader, s: string, wide: bool)
    requires r.mode == Quoted && r.field == "" && Readable(s, wide)
    ensures Feed(r, Doubled(s), wide) == r.(field := s)
    decreases |s|
  {
    hide Feed;
    FeedNothing(r, wide);
    if s != [] {
      var front, c := s[..|s| - 1], s[|s| - 1];
      FeedQuoted(r, front, wide);
      assert front + [c] == s;
      if c == '"' {
        FeedConcat(r, Doubled(front), "\"\"", wide);
        FeedConcat(r.(field := front), "\"", "\"", wide);
        assert "\"" + "\"" == "\"\"";
        FeedOne(r.(field := front), '"', wide);
        FeedOne(r.(field := front, mode := QuoteSeen), '"', wide);
      } else {
        FeedConcat(r, Doubled(front), [c], wide);
        FeedOne(r.(field := front), c, wide);
      }
    }
  }

  function Shown(value: Option<string>): string { if value.Some? then value.value else "" }

  /** Reading an escaped cell leaves its text as the field, ready to be ended. */
  predicate Holds(r: Reader, before: Reader, s: string) {
    r.records == before.records && r.record == before.record && r.field == s && r.mode in {Start, Plain, QuoteSeen}
  }

  lemma {:induction false} FeedCell(r: Reader, value: Option<string>, wide: bool)
    requires r.mode == Start && r.field == "" && Readable(Shown(value), wide)
    ensures Holds(Feed(r, CsvEscape(value), wide), r, Shown(value))
  {
    var s := Shown(value);
    if exists i :: 0 <= i < |s| && NeedsQuotes(s[i]) {
      FeedConcat(r, "\"" + Doubled(s), "\"", wide);
      FeedConcat(r, "\"", Doubled(s), wide);
      FeedOne(r, '"', wide);
      FeedQuoted(r.(mode := Quoted), s, wide);
      FeedOne(r.(mode := Quoted, field := s), '"', wide);
    } else {
      FeedPlain(r, s, wide);
    }
  }

  function ShownCells(cells: seq<Option<string>>): (r: seq<string>)
    ensures |r| == |cells| && forall i :: 0 <= i < |cells| ==> r[i] == Shown(cells[i])
  {
    seq(|cells|, i requires 0 <= i < |cells| => Shown(cells[i]))
  }

  predicate ReadableCells(cells: seq<Option<string>>, wide: bool) {
    forall i | 0 <= i < |cells| :: Readable(Shown(cells[i]), wide)
  }

  lemma {:induction false} FeedLine(r: Reader, cells: seq<Option<string>>, wide: bool)
    requires r.mode == Start && r.field == "" && r.record == [] && cells != [] && ReadableCells(cells, wide)
    ensures var n, e := |cells| - 1, Feed(r, Line(cells), wide);
            e.records == r.records && e.record == ShownCells(cells[..n]) && e.field == Shown(cells[n]) && e.mode in {Start, Plain, QuoteSeen}
    decreases |cells|
  {
    hide Feed, CsvEscape, Readable;
    var n := |cells| - 1;
    if n == 0 {
      FeedCell(r, cells[0], wide);
    } else {
      var front := cells[..n];
      FeedLine(r, front, wide);
      var e := Feed(r, Line(front), wide);
      FeedConcat(r, Line(front) + ",", CsvEscape(cells[n]), wide);
      FeedConcat(r, Line(front), ",", wide);
      FeedOne(e, ',', wide);
      assert ShownCells(front[..n - 1]) + [Shown(front[n - 1])] == ShownCells(front);
      FeedCell(EndField(e, Start), cells[n], wide);
    }
  }

  function Records(t: seq<seq<Option<string>>>): (r: seq<seq<string>>)
    ensures |r| == |t| && forall i :: 0 <= i < |t| ==> r[i] == ShownCells(t[i])
  {
    seq(|t|, i requires 0 <= i < |t| => ShownCells(t[i]))
  }

  predicate ReadableTable(t: seq<seq<Option<string>>>, wide: bool) {
    forall i | 0 <= i < |t| :: ReadableCells(t[i], wide)
  }

  /** A line break ends the field and the record, and the next line starts a new one. */
  lemma {:induction false} FeedNextLine(e: Reader, cells: seq<Option<string>>, wide: bool)
    requires e.mode in {Start, Plain, QuoteSeen} && cells != [] && ReadableCells(cells, wide)
    ensures var d := Feed(e, "\r\n" + Line(cells), wide);
            && d.records == e.records + [e.record + [e.field]] && d.mode in {Start, Plain, QuoteSeen}
            && d.record + [d.field] == ShownCells(cells)
  {
    hide Feed, Line, ReadableCells;
    FeedConcat(e, "\r\n", Line(cells), wide);
    FeedConcat(e, "\r", "\n", wide);
    assert "\r" + "\n" == "\r\n";
    FeedOne(e, '\r', wide);
    FeedOne(EndField(e, CrSeen), '\n', wide);
    FeedLine(Reader(e.records + [e.record + [e.field]], [], "", Start), cells, wide);
    assert ShownCells(cells) == ShownCells(cells[..|cells| - 1]) + [Shown(cells[|cells| - 1])];
  }

  /** Having read the text of a table, the reader holds all its records, the last one still open. */
  ghost predicate ReadTable(e: Reader, t: seq<seq<Option<string>>>)
    requires t != []
  {
    e.records + [e.record + [e.field]] == Records(t) && e.mode in {Start, Plain, QuoteSeen}
  }

  lemma {:induction false} FeedFirstLine(cells: seq<Option<string>>, wide: bool)
    requires cells != [] && ReadableCells(cells, wide)
    ensures ReadTable(Feed(FRESH, Line(cells), wide), [cells])
  {
    FeedLine(FRESH, cells, wide);
    assert ShownCells(cells) == ShownCells(cells[..|cells| - 1]) + [Shown(cells[|cells| - 1])];
  }

  lemma {:induction false} FeedMore(e: Reader, t: seq<seq<Option<string>>>, cells: seq<Option<string>>, wide: bool)
    requires t != [] && ReadTable(e, t) && cells != [] && ReadableCells(cells, wide)
    ensures ReadTable(Feed(e, "\r\n" + Line(cells), wide), t + [cells])
  {
    FeedNextLine(e, cells, wide);
    assert Records(t + [cells]) == Records(t) + [ShownCells(cells)];
  }

  lemma {:induction false} FeedAppended(t: seq<seq<Option<string>>>, cells: seq<Option<string>>, wide: bool)
    requires t != [] && ReadTable(Feed(FRESH, Text(t), wide), t) && cells != [] && ReadableCells(cells, wide)
    ensures ReadTable(Feed(FRESH, Text(t + [cells]), wide), t + [cells])
  {
    hide Feed, Line, Text, ReadTable, ReadableCells;
    TextSnoc(t, cells);
    var next := "\r\n" + Line(cells);
    assert Text(t) + "\r\n" + Line(cells) == Text(t) + next;
    FeedConcat(FRESH, Text(t), next, wide);
    FeedMore(Feed(FRESH, Text(t), wide), t, cells, wide);
  }

  lemma {:induction false} ReadableTableSnoc(t: seq<seq<Option<string>>>, cells: seq<Option<string>>, wide: bool)
    ensures ReadableTable(t + [cells], wide) <==> ReadableTable(t, wide) && ReadableCells(cells, wide)
  {
    hide ReadableCells;
    var all := t + [cells];
    if ReadableTable(all, wide) {
      assert forall i | 0 <= i < |t| :: all[i] == t[i];
      assert all[|t|] == cells;
    }
  }

  lemma {:induction false} FeedTable(t: seq<seq<Option<string>>>, wide: bool)
    requires t != [] && ReadableTable(t, wide) && forall i | 0 <= i < |t| :: t[i] != []
    ensures ReadTable(Feed(FRESH, Text(t), wide), t)
    decreases |t|
  {
    hide Feed, Line, ReadTable, ReadableTable, ReadableCells;
    var front, last := t[..|t| - 1], t[|t| - 1];
    assert t == front + [last];
    ReadableTableSnoc(front, last, wide);
    if front == [] {
      FeedFirstLine(last, wide);
    } else {
      FeedTable(front, wide);
      FeedAppended(front, last, wide);
    }
  }

  /** What a row shows in a column: its value, nothing when that is null or missing. */
  function Field(row: Row, key: string): string { if key in row && row[key].Some? then row[key].value else "" }

  /** The records of an export: the headers, then each row's fields, in the order of the columns. */
  ghost predicate Exports(records: seq<seq<string>>, columns: seq<Column>, rows: seq<Row>) {
    && |records| == |rows| + 1 && (forall i | 0 <= i <= |rows| :: |records[i]| == |columns|)
    && (forall j | 0 <= j < |columns| :: records[0][j] == columns[j].header)
    && forall i, j | 0 <= i < |rows| && 0 <= j < |columns| :: records[i + 1][j] == Field(rows[i], columns[j].key)
  }

  lemma {:induction false} TableRows(columns: seq<Column>, rows: seq<Row>, i: nat)
    ensures |Table(columns, rows)| == |rows| + 1 && Table(columns, rows)[0] == HeaderCells(columns)
    ensures i < |rows| ==> Table(columns, rows)[i + 1] == RowCells(columns, rows[i])
    decreases |rows|
  {
    if rows != [] {
      TableRows(columns, rows[..|rows| - 1], i);
    }
  }

  lemma {:induction false} TableExports(columns: seq<Column>, rows: seq<Row>)
    ensures Exports(Records(Table(columns, rows)), columns, rows)
  {
    var t := Table(columns, rows);
    forall i: nat ensures |t| == |rows| + 1 && t[0] == HeaderCells(columns) && (i < |rows| ==> t[i + 1] == RowCells(columns, rows[i])) {
      TableRows(columns, rows, i);
    }
    forall i, j | 0 <= i < |rows| && 0 <= j < |columns| ensures Records(t)[i + 1][j] == Field(rows[i], columns[j].key) {
      assert Records(t)[i + 1] == ShownCells(RowCells(columns, rows[i]));
    }
  }

  /** For a table with columns, reading the file gives back the header and every cell, null as the empty field. */
  lemma {:induction false} RoundTrip(columns: seq<Column>, rows: seq<Row>, wide: bool)
    requires columns != [] && ReadableTable(Table(columns, rows), wide)
    ensures Read(Text(Table(columns, rows)), wide) == Some(Records(Table(columns, rows)))
    ensures Exports(Read(Text(Table(columns, rows)), wide).value, columns, rows)
  {
    hide Exports, Table;
    var t := Table(columns, rows);
    FeedTable(t, wide);
    TableExports(columns, rows);
  }

  /** Without a column the file still reads as one empty field per line, so the table is lost. */
  lemma {:induction false} NoColumnsLosesTable(rows: seq<Row>, wide: bool)
    ensures Read(Text(Table([], rows)), wide).Some? ==> !Exports(Read(Text(Table([], rows)), wide).value, [], rows)
  {
    var t := Table([], rows);
    var r := Feed(FRESH, Text(t), wide);
    var read := r.records + [r.record + [r.field]];
    assert |read[|read| - 1]| > 0;
    assert |Records(t)[|t| - 1]| == 0;
  }

  // --------------------------------------------------- the grammar taken literally

  lemma {:induction false} FeedUnreadable(r: Reader, s: string, wide: bool)
    requires r.mode == Bad || !Readable(s, wide)
    ensures Feed(r, s, wide).mode == Bad
    decreases |s|
  {
    if s != [] {
      var front, c := s[..|s| - 1], s[|s| - 1];
      if r.mode == Bad || !Readable(front, wide) {
        FeedUnreadable(r, front, wide);
      }
    }
  }

  lemma {:induction false} DoubledKeeps(s: string, wide: bool)
    ensures Readable(Doubled(s), wide) <==> Readable(s, wide)
    decreases |s|
  {
    if s != [] {
      DoubledKeeps(s[..|s| - 1], wide);
      assert s == s[..|s| - 1] + [s[|s| - 1]];
      ReadableConcat(s[..|s| - 1], [s[|s| - 1]], wide);
      ReadableConcat(Doubled(s[..|s| - 1]), if s[|s| - 1] == '"' then "\"\"" else [s[|s| - 1]], wide);
    }
  }

  lemma {:induction false} ReadableConcat(a: string, b: string, wide: bool)
    ensures Readable(a + b, wide) <==> Readable(a, wide) && Readable(b, wide)
  {
    if Readable(a + b, wide) {
      assert forall i | 0 <= i < |a| :: (a + b)[i] == a[i];
      assert forall i | 0 <= i < |b| :: (a + b)[|a| + i] == b[i];
    }
  }

  lemma {:induction false} EscapeKeeps(value: Option<string>, wide: bool)
    ensures Readable(CsvEscape(value), wide) <==> Readable(Shown(value), wide)
  {
    var s := Shown(value);
    DoubledKeeps(s, wide);
    ReadableConcat("\"", Doubled(s), wide);
    ReadableConcat("\"" + Doubled(s), "\"", wide);
  }

  lemma {:induction false} Delimiters(wide: bool)
    ensures Readable(",", wide) && Readable("\r\n", wide) && Readable("\"", wide) && Readable("", wide)
  {
  }

  lemma {:induction false} NoRows(wide: bool)
    ensures ReadableTable([], wide) && ReadableCells([], wide)
  {
  }

  lemma {:induction false} ReadableCellsSnoc(cells: seq<Option<string>>, cell: Option<string>, wide: bool)
    ensures ReadableCells(cells + [cell], wide) <==> ReadableCells(cells, wide) && Readable(Shown(cell), wide)
  {
    hide Readable;
    var all := cells + [cell];
    if ReadableCells(all, wide) {
      assert forall i | 0 <= i < |cells| :: all[i] == cells[i];
      assert all[|cells|] == cell;
    }
  }

  lemma {:induction false} LineKeeps(cells: seq<Option<string>>, wide: bool)
    ensures Readable(Line(cells), wide) <==> ReadableCells(cells, wide)
    decreases |cells|
  {
    hide Readable, ReadableCells, CsvEscape;
    Delimiters(wide);
    NoRows(wide);
    if cells != [] {
      var front, last := cells[..|cells| - 1], cells[|cells| - 1];
      assert cells == front + [last];
      ReadableCellsSnoc(front, last, wide);
      EscapeKeeps(last, wide);
      if front != [] {
        LineKeeps(front, wide);
        ReadableConcat(Line(front), ",", wide);
        ReadableConcat(Line(front) + ",", CsvEscape(last), wide);
      }
    }
  }

  lemma {:induction false} TextKeeps(t: seq<seq<Option<string>>>, wide: bool)
    requires t != []
    ensures Readable(Text(t), wide) <==> ReadableTable(t, wide)
    decreases |t|
  {
    hide Readable, ReadableTable, ReadableCells, Line;
    var front, last := t[..|t| - 1], t[|t| - 1];
    assert t == front + [last];
    LineKeeps(last, wide);
    ReadableTableSnoc(front, last, wide);
    if front == [] {
      NoRows(wide);
    } else {
      TextKeeps(front, wide);
      Delimiters(wide);
      ReadableConcat(Text(front), "\r\n", wide);
      ReadableConcat(Text(front) + "\r\n", Line(last), wide);
    }
  }

  /** Printable ASCII, CR and LF. */
  predicate Ascii(s: string) { forall i | 0 <= i < |s| :: 0x20 <= s[i] as int <= 0x7E || s[i] == '\r' || s[i] == '\n' }

  predicate AsciiExport(columns: seq<Column>, rows: seq<Row>) {
    && (forall j | 0 <= j < |columns| :: Ascii(columns[j].header))
    && forall i, j | 0 <= i < |rows| && 0 <= j < |columns| :: Ascii(Field(rows[i], columns[j].key))
  }

  lemma {:induction false} ReadableIsAscii(s: string)
    ensures Readable(s, false) <==> Ascii(s)
  {
  }

  lemma {:induction false} ReadableExactly(columns: seq<Column>, rows: seq<Row>)
    ensures ReadableTable(Table(columns, rows), false) <==> AsciiExport(columns, rows)
  {
    hide Readable, Ascii;
    var t := Table(columns, rows);
    TableExports(columns, rows);
    forall i, j | 0 <= i < |t| && 0 <= j < |columns|
      ensures Readable(Shown(t[i][j]), false) <==>
              Ascii(if i == 0 then columns[j].header else Field(rows[i - 1], columns[j].key))
    {
      assert Records(t)[i][j] == Shown(t[i][j]);
      if i > 0 {
        assert Records(t)[(i - 1) + 1][j] == Field(rows[i - 1], columns[j].key);
      }
      ReadableIsAscii(Shown(t[i][j]));
    }
    if ReadableTable(t, false) {
      forall j | 0 <= j < |columns| ensures Ascii(columns[j].header) {
        assert ReadableCells(t[0], false);
        assert Readable(Shown(t[0][j]), false);
      }
      forall i, j | 0 <= i < |rows| && 0 <= j < |columns| ensures Ascii(Field(rows[i], columns[j].key)) {
        assert ReadableCells(t[i + 1], false);
        assert Readable(Shown(t[i + 1][j]), false);
      }
    }
    if AsciiExport(columns, rows) {
      forall i | 0 <= i < |t| ensures ReadableCells(t[i], false) {
        forall j | 0 <= j < |columns| ensures Readable(Shown(t[i][j]), false) {
          if i > 0 {
            assert Ascii(Field(rows[i - 1], columns[j].key));
          }
        }
      }
    }
  }

  /**
   * A reader that takes the grammar's TEXTDATA literally accepts the file
   * exactly when every character of every cell is printable ASCII, a comma, a
   * quote, CR or LF; then it reads the same table, and otherwise it refuses.
   */
  lemma {:induction false} LiteralGrammar(columns: seq<Column>, rows: seq<Row>)
    requires columns != []
    ensures Read(Text(Table(columns, rows)), false).Some? <==> AsciiExport(columns, rows)
    ensures AsciiExport(columns, rows) ==> Exports(Read(Text(Table(columns, rows)), false).value, columns, rows)
  {
    hide Exports, AsciiExport, ReadableTable, Feed, Text, Table;
    var t := Table(columns, rows);
    ReadableExactly(columns, rows);
    if ReadableTable(t, false) {
      RoundTrip(columns, rows, false);
    } else {
      TextKeeps(t, false);
      FeedUnreadable(FRESH, Text(t), false);
    }
  }

  /** With TEXTDATA widened every file of a table with columns reads back, whatever its cells contain; and only those do. */
  lemma {:induction false} WideGrammar(columns: seq<Column>, rows: seq<Row>)
    ensures Read(Text(Table(columns, rows)), true).Some? && Exports(Read(Text(Table(columns, rows)), true).value, columns, rows) <==>
            columns != []
  {
    hide Feed, Text, Table, Exports;
    if columns != [] {
      AllReadable(columns, rows);
      RoundTrip(columns, rows, true);
    } else {
      NoColumnsLosesTable(rows, true);
    }
  }

  lemma {:induction false} AllReadable(columns: seq<Column>, rows: seq<Row>)
    ensures ReadableTable(Table(columns, rows), true)
  {
  }
}
