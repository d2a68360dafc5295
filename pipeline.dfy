/** The body of `process_excel`: the chunk loop, the group loop, the append
    loop with its running counter and the formatting loops, mutating the
    output workbook in place; each is proved to do what `Merge` states. */
module Pipeline {
  import opened Cells
  import SheetNames
  import Chunking
  import opened Grouping
  import opened Merge
  import opened Store

  /** Reuse the sheet `name` or create it with the header (lines 88-98). */
  method ResolveSheet(wb: Workbook, name: string, modified: seq<string>) returns (modified': seq<string>)
    modifies wb
    ensures State(wb.Model(), modified') == Resolve(State(old(wb.Model()), modified), name)
  {
    if name in wb.sheets {
      modified' := modified;
    } else {
      wb.CreateSheet(name);
      wb.Append(name, Header);
      assert [] + [Header] == [Header];
      modified' := modified + [name];
    }
  }

  /** Append `[counter] + t[2:-1]` for every tuple, reading the previous counter
      back from column 1 of the sheet's last row each time (lines 100-113). */
  method AppendRows(wb: Workbook, name: string, tuples: seq<seq<Cell>>) returns (lastRow: nat)
    requires name in wb.sheets
    modifies wb
    ensures wb.sheets == old(wb.sheets)[name := AppendBatch(old(wb.sheets)[name], tuples)]
    ensures wb.styles == old(wb.styles)
    ensures lastRow == MaxRow(wb.sheets[name])
  {
    lastRow := wb.MaxRowOf(name);
    var i := 0;
    while i < |tuples|
      invariant 0 <= i <= |tuples|
      invariant wb.sheets == old(wb.sheets)[name := AppendBatch(old(wb.sheets)[name], tuples[..i])]
      invariant wb.styles == old(wb.styles)
      invariant lastRow == MaxRow(wb.sheets[name])
    {
      ghost var before := wb.sheets[name];
      var formatted := FormatRow(tuples[i]);
      var newValue: int;
      if lastRow > 1 {
        var previous := wb.CellValue(name, lastRow, 1);
        newValue := (if IsInt(previous) then IntValue(previous) else 0) + 1;
      } else {
        newValue := 1;
      }
      assert newValue == NextCounter(before);
      wb.Append(name, [Int(newValue)] + formatted);
      lastRow := wb.MaxRowOf(name);
      assert tuples[..i + 1][..i] == tuples[..i];
      assert wb.sheets[name] == AppendBatch(old(wb.sheets)[name], tuples[..i + 1]);
      i := i + 1;
    }
    assert tuples[..i] == tuples;
  }

  /** The first pass over one row (lines 118-120): every cell of columns
      `1..width` gets general in column 1, currency elsewhere, and font size 9. */
  method BaseRowPass(wb: Workbook, name: string, r: int, width: nat)
    modifies wb
    ensures wb.sheets == old(wb.sheets)
    ensures wb.styles == BasePass(old(wb.styles), name, r, width)
  {
    var c := 1;
    while c <= width
      invariant 1 <= c <= width + 1
      invariant wb.sheets == old(wb.sheets)
      invariant wb.styles == BasePass(old(wb.styles), name, r, c - 1)
    {
      var k := Coord(name, r, c);
      wb.SetNumberFormat(k, BaseFormat(c));
      wb.SetFont(k, FontSize);
      c := c + 1;
    }
  }

  /** The second pass over one row (lines 123-134): `row[0]` ... `row[11]` get
      the fixed formats. */
  method FixedRowPass(wb: Workbook, name: string, r: int)
    modifies wb
    ensures wb.sheets == old(wb.sheets)
    ensures wb.styles == FixedPass(old(wb.styles), name, r, |FixedFormats|)
  {
    var i := 0;
    while i < |FixedFormats|
      invariant 0 <= i <= |FixedFormats|
      invariant wb.sheets == old(wb.sheets)
      invariant wb.styles == FixedPass(old(wb.styles), name, r, i)
    {
      wb.SetNumberFormat(Coord(name, r, i + 1), FixedFormats[i]);
      i := i + 1;
    }
  }

  /** One row of the formatting loop (lines 118-134): the first pass, then the
      fixed formats, which need at least 12 columns. Rows `lo..r - 1` are
      already formatted; on success so is row `r`. */
  method FormatOneRow(wb: Workbook, name: string, r: int, width: nat, ghost o: map<Coord, Style>, ghost lo: int)
    returns (ok: bool)
    requires lo <= r && (r == lo || width >= FormattedColumns)
    requires wb.styles == FormatRange(o, name, lo, r - 1, width)
    modifies wb
    ensures wb.sheets == old(wb.sheets)
    ensures ok <==> width >= FormattedColumns
    ensures ok ==> wb.styles == FormatRange(o, name, lo, r, width)
  {
    BaseRowPass(wb, name, r, width);
    if width < FormattedColumns {
      return false;
    }
    FixedRowPass(wb, name, r);
    ok := true;
  }

  /** The loop over rows `lo..hi` with the sheet's width fixed (lines 116-134):
      it fails at its first row when the sheet is narrower than 12 columns. */
  method FormatRows(wb: Workbook, name: string, lo: int, hi: int, width: nat) returns (ok: bool)
    modifies wb
    ensures wb.sheets == old(wb.sheets)
    ensures ok <==> (hi < lo || width >= FormattedColumns)
    ensures ok ==> wb.styles == FormatRange(old(wb.styles), name, lo, hi, width)
  {
    ghost var o := wb.styles;
    var r := lo;
    while r <= hi
      invariant lo <= r && (r <= hi + 1 || r == lo)
      invariant r > lo ==> width >= FormattedColumns
      invariant wb.sheets == old(wb.sheets)
      invariant wb.styles == FormatRange(o, name, lo, r - 1, width)
    {
      ok := FormatOneRow(wb, name, r, width, o, lo);
      if !ok {
        return;
      }
      r := r + 1;
    }
    ok := true;
  }

  /** The formatting of rows `lo..max_row`, columns `1..max_column` of the
      sheet (lines 116-134). */
  method FormatNewRows(wb: Workbook, name: string, lo: int) returns (ok: bool)
    requires name in wb.sheets
    modifies wb
    ensures wb.sheets == old(wb.sheets)
    ensures var rows := old(wb.sheets)[name];
      ok <==> (lo > MaxRow(rows) || MaxColumn(rows) >= FormattedColumns)
    ensures var rows := old(wb.sheets)[name];
      ok ==> wb.styles == FormatRange(old(wb.styles), name, lo, MaxRow(rows), MaxColumn(rows))
  {
    var hi := wb.MaxRowOf(name);
    var width := wb.MaxColumnOf(name);
    ok := FormatRows(wb, name, lo, hi, width);
  }

  /** One group (lines 87-134). */
  method ProcessGroup(wb: Workbook, g: Group, modified: seq<string>) returns (ok: bool, modified': seq<string>)
    modifies wb
    ensures ok <==> GroupStep(State(old(wb.Model()), modified), g).Ok?
    ensures ok ==> GroupStep(State(old(wb.Model()), modified), g) == Ok(State(wb.Model(), modified'))
  {
    var name := SheetNames.Sanitize(g.key);
    modified' := ResolveSheet(wb, name, modified);
    var lastRow := AppendRows(wb, name, g.tuples);
    ok := FormatNewRows(wb, name, lastRow - |g.tuples| + 1);
  }

  /** The group loop of one chunk (lines 87-134): the groups are merged in
      order, stopping at the first failure. */
  method MergeGroups(wb: Workbook, groups: seq<Group>, modified: seq<string>)
    returns (ok: bool, modified': seq<string>)
    modifies wb
    ensures ok <==> RunGroups(State(old(wb.Model()), modified), groups).Ok?
    ensures ok ==> RunGroups(State(old(wb.Model()), modified), groups) == Ok(State(wb.Model(), modified'))
  {
    modified' := modified;
    var i := 0;
    while i < |groups|
      invariant 0 <= i <= |groups|
      invariant RunGroups(State(old(wb.Model()), modified), groups) == RunGroups(State(wb.Model(), modified'), groups[i..])
    {
      assert groups[i..][1..] == groups[i + 1..];
      ok, modified' := ProcessGroup(wb, groups[i], modified');
      if !ok {
        return;
      }
      i := i + 1;
    }
    ok := true;
  }

  /** One chunk: reading field 1 fails on a table narrower than two columns;
      otherwise its groups are merged. */
  method ProcessChunk(wb: Workbook, chunk: seq<Row>, width: nat, modified: seq<string>)
    returns (ok: bool, modified': seq<string>)
    modifies wb
    ensures ok <==> ChunkStep(State(old(wb.Model()), modified), chunk, width).Ok?
    ensures ok ==> ChunkStep(State(old(wb.Model()), modified), chunk, width) == Ok(State(wb.Model(), modified'))
  {
    if width < 2 {
      ok, modified' := false, modified;
      return;
    }
    ok, modified' := MergeGroups(wb, ChunkGroups(chunk), modified);
  }

  /** How a run ends. */
  datatype Outcome = Completed | InputNotFound | Failed

  /** The status line each outcome shows: its message prefix and its colour. */
  function StatusOf(o: Outcome): (r: (string, string))
    ensures r.1 == "green" <==> o == Completed
    ensures r.1 == "red" <==> o != Completed
  {
    match o
    case Completed => ("Processamento concluído", "green")
    case InputNotFound => ("Arquivo não encontrado", "red")
    case Failed => ("Ocorreu um erro", "red")
  }

  /** The outcome and the workbook written to the output file, if any. */
  datatype Report = Report(outcome: Outcome, saved: Option<Book>)

  /** The workbook a run starts from: the output file's, or a new one whose
      default sheet is removed (lines 51-55). */
  function StartOf(existing: Option<Book>): (b: Book)
    ensures existing.Some? ==> b == existing.value
    ensures existing.None? ==> b.sheets == map[] && b.styles == map[]
  {
    if existing.Some? then existing.value else NoSheets
  }

  /** What `process_excel` does, given whether the input file exists, the
      input table, and the output workbook when that file exists. The output
      file is written exactly when the run completes; saving a workbook left
      without sheets fails like any other error. */
  function Run(inputExists: bool, input: Frame, existing: Option<Book>): (r: Report)
    ensures r.outcome == InputNotFound <==> !inputExists
    ensures r.saved.Some? <==> r.outcome == Completed
    ensures r.outcome == Completed <==>
      inputExists && Process(input, StartOf(existing)).Ok? && Process(input, StartOf(existing)).value.book.sheets != map[]
    ensures r.outcome == Completed ==> r.saved == Some(Process(input, StartOf(existing)).value.book)
  {
    if !inputExists then Report(InputNotFound, None)
    else
      match Process(input, StartOf(existing))
      case Err => Report(Failed, None)
      case Ok(st) => if st.book.sheets == map[] then Report(Failed, None) else Report(Completed, Some(st.book))
  }

  /** The rows from `offset` on, or none once `offset` is past the end. */
  function From(rows: seq<Row>, offset: nat): seq<Row>
  {
    if offset < |rows| then rows[offset..] else []
  }

  /** Merging the rows from `offset` on is merging the slice that starts there
      and then the rows after it. */
  lemma RunChunksFrom(st: State, rows: seq<Row>, offset: nat, width: nat)
    requires offset < |rows|
    ensures var hi := if offset + Chunking.ChunkSize < |rows| then offset + Chunking.ChunkSize else |rows|;
      RunChunks(st, Chunking.Chunks(From(rows, offset), Chunking.ChunkSize), width)
        == match ChunkStep(st, rows[offset..hi], width)
           case Err => Err
           case Ok(next) => RunChunks(next, Chunking.Chunks(From(rows, offset + Chunking.ChunkSize), Chunking.ChunkSize), width)
  {
    Chunking.ChunksFrom(rows, Chunking.ChunkSize, offset);
    if offset + Chunking.ChunkSize >= |rows| {
      assert rows[|rows|..] == [];
    }
  }

  /** The chunk loop over offsets 0, 1000, 2000, ... (lines 66-69): each
      slice of at most 1000 rows is merged in order, stopping at the first
      failure. */
  method MergeChunks(wb: Workbook, rows: seq<Row>, width: nat, modified: seq<string>)
    returns (ok: bool, modified': seq<string>)
    modifies wb
    ensures ok <==> RunChunks(State(old(wb.Model()), modified), Chunking.Chunks(rows, Chunking.ChunkSize), width).Ok?
    ensures ok ==> RunChunks(State(old(wb.Model()), modified), Chunking.Chunks(rows, Chunking.ChunkSize), width)
                   == Ok(State(wb.Model(), modified'))
  {
    ghost var total := RunChunks(State(wb.Model(), modified), Chunking.Chunks(rows, Chunking.ChunkSize), width);
    assert From(rows, 0) == rows;
    modified' := modified;
    var offset := 0;
    while offset < |rows|
      invariant total == RunChunks(State(wb.Model(), modified'), Chunking.Chunks(From(rows, offset), Chunking.ChunkSize), width)
    {
      var hi := if offset + Chunking.ChunkSize < |rows| then offset + Chunking.ChunkSize else |rows|;
      RunChunksFrom(State(wb.Model(), modified'), rows, offset, width);
      ok, modified' := ProcessChunk(wb, rows[offset..hi], width, modified');
      if !ok {
        return;
      }
      offset := offset + Chunking.ChunkSize;
    }
    ok := true;
  }

  /** `process_excel` (lines 16-155): a missing input file ends the run at
      once; otherwise the workbook is written only after every chunk has
      succeeded. */
  method ProcessExcel(inputExists: bool, input: Frame, existing: Option<Book>) returns (report: Report)
    ensures report == Run(inputExists, input, existing)
  {
    if !inputExists {
      report := Report(InputNotFound, None);
      return;
    }
    var wb: Workbook;
    if existing.Some? {
      wb := new Workbook.Load(existing.value);
    } else {
      wb := new Workbook.Empty();
    }
    var ok, modified := MergeChunks(wb, input.rows, input.width, []);
    if !ok {
      report := Report(Failed, None);
      return;
    }
    var written := wb.Save();
    if written.Some? {
      report := Report(Completed, written);
    } else {
      report := Report(Failed, None);
    }
  }
}
