/** What merging one chunk's groups does to the output workbook, stated on
    values: sheet resolution, the running counter, the appended rows and the
    number formats of the appended cells. The imperative code in `Pipeline`
    is proved to do exactly this. */
module Merge {
  import opened Cells
  import SheetNames
  import Chunking
  import opened Grouping

  /** The rows of one sheet; row `r` (1-based) is `rows[r - 1]`. */
  type Rows = seq<seq<Cell>>

  /** Row 1 of every sheet the processing creates. */
  const Header: seq<Cell> := [Str("Campo Adicional"), Str("Assembleia"), Str("Valor"),
    Str("Fundo Comum"), Str("%"), Str("Adm. Antecipada"), Str("Taxa Adm."),
    Str("Fundo Reserva"), Str("Total"), Str("Desembolso"), Str("Vencimento")]

  datatype NumberFormat = General | Currency | Percentage | Date

  /** The number-format strings the workbook stores. */
  function FormatCode(f: NumberFormat): string
  {
    match f
    case Currency => "R$ #,##0.00"
    case Percentage => "0.00%"
    case Date => "DD/MM/YYYY"
    case General => "General"
  }

  /** The font size given to every formatted cell. */
  const FontSize: nat := 9

  /** What a cell looks like before anything is set on it. */
  const DefaultStyle: Style := Style(General, 11)

  datatype Style = Style(format: NumberFormat, fontSize: nat)

  /** A cell position: sheet name, 1-based row and column. */
  datatype Coord = Coord(sheet: string, row: int, col: int)

  /** The output workbook: its sheets and the styles set on its cells. */
  datatype Book = Book(sheets: map<string, Rows>, styles: map<Coord, Style>)

  /** A new workbook once its default sheet is removed. */
  const NoSheets: Book := Book(map[], map[])

  function StyleAt(styles: map<Coord, Style>, k: Coord): Style
  {
    if k in styles then styles[k] else DefaultStyle
  }

  /** The workbook's `max_row`: the number of rows, and 1 for a sheet with none. */
  function MaxRow(rows: Rows): nat
  {
    if rows == [] then 1 else |rows|
  }

  /** The length of the longest row. */
  function MaxLength(rows: Rows): (m: nat)
    ensures forall i :: 0 <= i < |rows| ==> |rows[i]| <= m
    ensures rows == [] ==> m == 0
    ensures rows != [] ==> exists i :: 0 <= i < |rows| && |rows[i]| == m
  {
    if rows == [] then 0
    else
      var m := MaxLength(rows[..|rows| - 1]);
      var last := |rows[|rows| - 1]|;
      if last > m then last else m
  }

  /** The workbook's `max_column`: the longest row, and 1 when there is none. */
  function MaxColumn(rows: Rows): nat
  {
    if MaxLength(rows) == 0 then 1 else MaxLength(rows)
  }

  /** The value at a 1-based position; a position outside the rows reads as empty. */
  function CellAt(rows: Rows, r: int, c: int): Cell
  {
    if 1 <= r <= |rows| && 1 <= c <= |rows[r - 1]| then rows[r - 1][c - 1] else Empty
  }

  /** `format_row`: Python's `t[2:-1]`. */
  function FormatRow(t: seq<Cell>): (r: seq<Cell>)
    ensures |t| >= 3 ==> |r| == |t| - 3 && forall i :: 0 <= i < |r| ==> r[i] == t[i + 2]
    ensures |t| < 3 ==> r == []
  {
    if |t| >= 3 then t[2..|t| - 1] else []
  }

  /** The tuple of a chunk row ends with the added key column, so the slice
      drops fields 0 and 1 and the key, and keeps every other input field. */
  lemma PayloadIsFieldsFromTwo(cells: seq<Cell>, key: string)
    requires |cells| >= 2
    ensures FormatRow(cells + [Str(key)]) == cells[2..]
  {
    var t := cells + [Str(key)];
    assert t[2..|t| - 1] == cells[2..];
  }

  /** The counter the next appended row gets: 1 while the sheet has at most one
      row; otherwise one more than the column-1 value of its last row when that
      value is an int, and 1 when it is not. */
  function NextCounter(rows: Rows): (r: int)
    ensures |rows| <= 1 ==> r == 1
    ensures |rows| > 1 && rows[|rows| - 1] != [] && IsInt(rows[|rows| - 1][0]) ==>
      r == IntValue(rows[|rows| - 1][0]) + 1
    ensures |rows| > 1 && (rows[|rows| - 1] == [] || !IsInt(rows[|rows| - 1][0])) ==> r == 1
  {
    var lastRow := MaxRow(rows);
    if lastRow > 1 then
      var previous := CellAt(rows, lastRow, 1);
      (if IsInt(previous) then IntValue(previous) else 0) + 1
    else 1
  }

  /** The sheet after appending, one by one, `[counter] + t[2:-1]` for each tuple `t`. */
  function AppendBatch(rows: Rows, ts: seq<seq<Cell>>): (r: Rows)
    ensures |r| == |rows| + |ts|
    ensures r[..|rows|] == rows
    decreases |ts|
  {
    if ts == [] then rows
    else
      var prev := AppendBatch(rows, ts[..|ts| - 1]);
      prev + [[Int(NextCounter(prev))] + FormatRow(ts[|ts| - 1])]
  }

  /** The counter of the `j`-th row of a batch appended to `rows`. */
  function BatchCounter(rows: Rows, j: nat): int
  {
    if rows == [] then (if j == 0 then 1 else j) else NextCounter(rows) + j
  }

  /** The rows a batch appends: each is its counter followed by the tuple's
      payload. On a sheet with at least one row the counters run
      `NextCounter(rows)`, `+1`, `+2`, ...; on a sheet with no row at all the
      first two rows both get 1, because `max_row` is still 1 after the first
      append. */
  lemma {:induction false} AppendBatchRows(rows: Rows, ts: seq<seq<Cell>>, j: nat)
    requires j < |ts|
    ensures AppendBatch(rows, ts)[|rows| + j] == [Int(BatchCounter(rows, j))] + FormatRow(ts[j])
    decreases |ts|
  {
    var n := |ts|;
    var prev := AppendBatch(rows, ts[..n - 1]);
    if j < n - 1 {
      AppendBatchRows(rows, ts[..n - 1], j);
      assert AppendBatch(rows, ts)[|rows| + j] == prev[|rows| + j];
    } else if n >= 2 {
      AppendBatchRows(rows, ts[..n - 1], n - 2);
      assert ts[..n - 1][n - 2] == ts[n - 2];
      var last := prev[|prev| - 1];
      assert last == [Int(BatchCounter(rows, n - 2))] + FormatRow(ts[n - 2]);
      assert last[0] == Int(BatchCounter(rows, n - 2));
      if |prev| > 1 {
        assert NextCounter(prev) == BatchCounter(rows, n - 2) + 1;
      } else {
        assert NextCounter(prev) == 1;
      }
    } else {
      assert prev == rows;
    }
  }

  /** The counter carries over between runs: after a run that left 7 in column 1
      of a sheet's last data row, the next row appended there gets 8. */
  lemma CounterContinues(rows: Rows)
    requires |rows| >= 2 && rows[|rows| - 1] != [] && rows[|rows| - 1][0] == Int(7)
    ensures NextCounter(rows) == 8
  {
  }

  /** The number formats `row[0]` ... `row[11]` get, columns 1 to 12. */
  const FixedFormats: seq<NumberFormat> := [General, Currency, Currency, Percentage, General,
    Currency, Percentage, Currency, Percentage, Currency, General, Date]

  /** The columns the fixed formats need: a row narrower than this fails. */
  const FormattedColumns: nat := 12

  /** The first pass over a row: column 1 general, every other column currency. */
  function BaseFormat(col: int): NumberFormat
  {
    if col == 1 then General else Currency
  }

  /** The format a column ends with once both passes are done. */
  function ColumnFormat(col: int): NumberFormat
  {
    if 1 <= col <= |FixedFormats| then FixedFormats[col - 1] else BaseFormat(col)
  }

  /** The format table by column: general at 1, 5 and 11, percentage at 4, 7
      and 9, date at 12, currency at 2, 3, 6, 8, 10 and from 13 on. */
  lemma FormatTable(col: int)
    requires col >= 1
    ensures ColumnFormat(col) == General <==> col == 1 || col == 5 || col == 11
    ensures ColumnFormat(col) == Percentage <==> col == 4 || col == 7 || col == 9
    ensures ColumnFormat(col) == Date <==> col == 12
    ensures ColumnFormat(col) == Currency <==> col in {2, 3, 6, 8, 10} || col >= 13
  {
  }

  /** Different formats have different format texts. */
  lemma FormatCodesDiffer(f: NumberFormat, g: NumberFormat)
    requires f != g
    ensures FormatCode(f) != FormatCode(g)
  {
    assert FormatCode(f)[0] != FormatCode(g)[0];
  }

  /** The number-format text each column ends with: `DD/MM/YYYY` only in
      column 12, `0.00%` in 4, 7 and 9, `General` in 1, 5 and 11, and the
      currency text `R$ #,##0.00` everywhere else. */
  lemma ColumnFormatCodes(col: int)
    requires col >= 1
    ensures FormatCode(ColumnFormat(col)) == "DD/MM/YYYY" <==> col == 12
    ensures FormatCode(ColumnFormat(col)) == "0.00%" <==> col == 4 || col == 7 || col == 9
    ensures FormatCode(ColumnFormat(col)) == "General" <==> col == 1 || col == 5 || col == 11
    ensures FormatCode(ColumnFormat(col)) == "R$ #,##0.00" <==> col in {2, 3, 6, 8, 10} || col >= 13
  {
    FormatTable(col);
    var f := ColumnFormat(col);
    if f != Date { FormatCodesDiffer(f, Date); }
    if f != Percentage { FormatCodesDiffer(f, Percentage); }
    if f != General { FormatCodesDiffer(f, General); }
    if f != Currency { FormatCodesDiffer(f, Currency); }
  }

  /** The cells a formatting pass covers. */
  predicate InRange(k: Coord, name: string, lo: int, hi: int, width: nat)
  {
    k.sheet == name && lo <= k.row <= hi && 1 <= k.col <= width
  }

  /** The first pass over columns `1..upto` of row `r`: general in column 1,
      currency elsewhere, font size 9. */
  function BasePass(styles: map<Coord, Style>, name: string, r: int, upto: nat): map<Coord, Style>
    decreases upto
  {
    if upto == 0 then styles
    else BasePass(styles, name, r, upto - 1)[Coord(name, r, upto) := Style(BaseFormat(upto), FontSize)]
  }

  /** The second pass: `row[0]` ... `row[upto - 1]` of row `r` get their fixed
      number formats and keep their fonts. */
  function FixedPass(styles: map<Coord, Style>, name: string, r: int, upto: nat): map<Coord, Style>
    requires upto <= |FixedFormats|
    decreases upto
  {
    if upto == 0 then styles
    else
      var s := FixedPass(styles, name, r, upto - 1);
      var k := Coord(name, r, upto);
      s[k := StyleAt(s, k).(format := FixedFormats[upto - 1])]
  }

  /** Both passes over row `r` of a sheet at least 12 columns wide. */
  function RowStyles(styles: map<Coord, Style>, name: string, r: int, width: nat): map<Coord, Style>
    requires width >= FormattedColumns
  {
    FixedPass(BasePass(styles, name, r, width), name, r, |FixedFormats|)
  }

  /** The styles after rows `lo..hi` of sheet `name` are formatted row by row;
      `FormatRangeCells` states what each cell then holds. */
  function FormatRange(styles: map<Coord, Style>, name: string, lo: int, hi: int, width: nat): map<Coord, Style>
    requires hi < lo || width >= FormattedColumns
    decreases hi - lo
  {
    if hi < lo then styles
    else RowStyles(FormatRange(styles, name, lo, hi - 1, width), name, hi, width)
  }

  /** The first pass sets exactly the cells of its columns. */
  lemma {:induction false} BasePassAt(styles: map<Coord, Style>, name: string, r: int, upto: nat, k: Coord)
    ensures StyleAt(BasePass(styles, name, r, upto), k)
      == if InRange(k, name, r, r, upto) then Style(BaseFormat(k.col), FontSize) else StyleAt(styles, k)
    decreases upto
  {
    if upto > 0 {
      BasePassAt(styles, name, r, upto - 1, k);
    }
  }

  /** The second pass changes the format, and only the format, of exactly the
      cells of its columns. */
  lemma {:induction false} FixedPassAt(styles: map<Coord, Style>, name: string, r: int, upto: nat, k: Coord)
    requires upto <= |FixedFormats|
    ensures StyleAt(FixedPass(styles, name, r, upto), k)
      == if InRange(k, name, r, r, upto) then StyleAt(styles, k).(format := FixedFormats[k.col - 1])
         else StyleAt(styles, k)
    decreases upto
  {
    if upto > 0 {
      FixedPassAt(styles, name, r, upto - 1, k);
      FixedPassAt(styles, name, r, upto - 1, Coord(name, r, upto));
    }
  }

  /** Every cell of a formatted row, columns `1..width`, ends with its column's
      format and font size 9; the rest of the workbook keeps its styles. */
  lemma RowStylesAt(styles: map<Coord, Style>, name: string, r: int, width: nat, k: Coord)
    requires width >= FormattedColumns
    ensures StyleAt(RowStyles(styles, name, r, width), k)
      == if InRange(k, name, r, r, width) then Style(ColumnFormat(k.col), FontSize) else StyleAt(styles, k)
  {
    BasePassAt(styles, name, r, width, k);
    FixedPassAt(BasePass(styles, name, r, width), name, r, |FixedFormats|, k);
  }

  /** Formatting rows `lo..hi`: each cell of those rows, columns `1..width`,
      gets its column's format and font size 9; every other cell keeps its
      style, so the rows that were there before are untouched. */
  lemma {:induction false} FormatRangeAt(styles: map<Coord, Style>, name: string, lo: int, hi: int, width: nat, k: Coord)
    requires hi < lo || width >= FormattedColumns
    ensures StyleAt(FormatRange(styles, name, lo, hi, width), k)
      == if InRange(k, name, lo, hi, width) then Style(ColumnFormat(k.col), FontSize) else StyleAt(styles, k)
    decreases hi - lo
  {
    if hi >= lo {
      FormatRangeAt(styles, name, lo, hi - 1, width, k);
      RowStylesAt(FormatRange(styles, name, lo, hi - 1, width), name, hi, width, k);
    }
  }

  /** The workbook together with the names of the sheets created so far. */
  datatype State = State(book: Book, modified: seq<string>)

  /** Reuse the sheet called `name`, or create it with the header as row 1 and
      record its name. */
  function Resolve(st: State, name: string): (r: State)
    ensures name in r.book.sheets
  {
    if name in st.book.sheets then st
    else State(Book(st.book.sheets[name := [Header]], st.book.styles), st.modified + [name])
  }

  /** One group: resolve its sheet, append its rows with counters, format the
      appended rows. Fails when the appended rows are there but the sheet is
      narrower than the 12 columns the fixed formats address. */
  function GroupStep(st: State, g: Group): (r: Result<State>)
    ensures g.tuples == [] ==> r.Ok?
    ensures var name := SheetNames.Sanitize(g.key);
      r.Ok? ==>
        && r.value.book.sheets.Keys == st.book.sheets.Keys + {name}
        && st.modified <= r.value.modified
        && |r.value.book.sheets[name]| == (if name in st.book.sheets then |st.book.sheets[name]| else 1) + |g.tuples|
  {
    var name := SheetNames.Sanitize(g.key);
    var resolved := Resolve(st, name);
    var rows := resolved.book.sheets[name];
    var grown := AppendBatch(rows, g.tuples);
    var width := MaxColumn(grown);
    if g.tuples != [] && width < FormattedColumns then Err
    else Ok(State(Book(resolved.book.sheets[name := grown],
                       FormatRange(resolved.book.styles, name, |rows| + 1, |grown|, width)),
                  resolved.modified))
  }

  /** The groups in order, stopping at the first failure. */
  function RunGroups(st: State, gs: seq<Group>): (r: Result<State>)
    ensures r.Ok? ==> st.book.sheets.Keys <= r.value.book.sheets.Keys && st.modified <= r.value.modified
    ensures r.Ok? ==> forall g :: g in gs ==> SheetNames.Sanitize(g.key) in r.value.book.sheets
    decreases |gs|
  {
    if gs == [] then Ok(st)
    else match GroupStep(st, gs[0])
      case Err => Err
      case Ok(next) => RunGroups(next, gs[1..])
  }

  /** One chunk: reading field 1 fails on a table with fewer than two columns;
      otherwise its groups are merged. */
  function ChunkStep(st: State, chunk: seq<Row>, width: nat): (r: Result<State>)
    ensures width < 2 ==> r == Err
    ensures r.Ok? ==> st.book.sheets.Keys <= r.value.book.sheets.Keys && st.modified <= r.value.modified
    ensures r.Ok? ==> forall x :: x in Survivors(chunk) ==> SheetNames.Sanitize(x.key) in r.value.book.sheets
  {
    if width < 2 then Err
    else
      var gs := ChunkGroups(chunk);
      var r := RunGroups(st, gs);
      assert r.Ok? ==> forall x :: x in Survivors(chunk) ==> SheetNames.Sanitize(x.key) in r.value.book.sheets by {
        if r.Ok? {
          forall x | x in Survivors(chunk)
            ensures SheetNames.Sanitize(x.key) in r.value.book.sheets
          {
            var i :| 0 <= i < |gs| && gs[i].key == x.key;
            assert gs[i] in gs;
          }
        }
      }
      r
  }

  /** The chunks in order, stopping at the first failure. */
  function RunChunks(st: State, cs: seq<seq<Row>>, width: nat): (r: Result<State>)
    ensures cs != [] && width < 2 ==> r == Err
    ensures r.Ok? ==> st.book.sheets.Keys <= r.value.book.sheets.Keys && st.modified <= r.value.modified
    ensures r.Ok? ==> forall c, x :: c in cs && x in Survivors(c) ==> SheetNames.Sanitize(x.key) in r.value.book.sheets
    decreases |cs|
  {
    if cs == [] then Ok(st)
    else match ChunkStep(st, cs[0], width)
      case Err => Err
      case Ok(next) => RunChunks(next, cs[1..], width)
  }

  /** The whole input merged into the workbook `start`. */
  function Process(input: Frame, start: Book): (r: Result<State>)
    ensures r.Ok? ==> start.sheets.Keys <= r.value.book.sheets.Keys
    ensures r.Ok? ==> forall c, x :: c in Chunking.Chunks(input.rows, Chunking.ChunkSize) && x in Survivors(c) ==>
      SheetNames.Sanitize(x.key) in r.value.book.sheets
  {
    RunChunks(State(start, []), Chunking.Chunks(input.rows, Chunking.ChunkSize), input.width)
  }
}
