/** Properties of merging: what a run keeps of the workbook it starts from,
    the counters it writes, and when the formatting step fails. */
module MergeProperties {
  import opened Cells
  import SheetNames
  import Chunking
  import opened Grouping
  import opened Merge

  predicate Distinct(s: seq<string>)
  {
    forall i, j :: 0 <= i < j < |s| ==> s[i] != s[j]
  }

  /** How a state relates to the workbook `b0` the run started from: every
      sheet of `b0` is still there and its earlier rows are unchanged (they are
      a prefix of its rows now); every other sheet starts with the header; the
      recorded names are exactly the sheets that are new, each once; and the
      styles of the rows `b0` already had are unchanged. */
  ghost predicate Extends(b0: Book, st: State)
  {
    && (forall n :: n in b0.sheets ==> n in st.book.sheets && b0.sheets[n] <= st.book.sheets[n])
    && (forall n :: n in st.book.sheets && n !in b0.sheets ==>
          st.book.sheets[n] != [] && st.book.sheets[n][0] == Header)
    && (forall n :: n in st.modified <==> n in st.book.sheets && n !in b0.sheets)
    && Distinct(st.modified)
    && (forall k: Coord :: k.sheet in b0.sheets && k.row <= |b0.sheets[k.sheet]| ==>
          StyleAt(st.book.styles, k) == StyleAt(b0.styles, k))
  }

  /** The cells one group restyles: exactly the cells of its newly appended
      rows, up to the grown sheet's `max_column`, which get their column's
      format and size 9. Every other cell keeps its style, including the rows
      an earlier group of the same run wrote to that sheet. */
  lemma GroupStepStyles(st: State, g: Group, k: Coord)
    requires GroupStep(st, g).Ok?
    ensures var name := SheetNames.Sanitize(g.key);
      var rows := Resolve(st, name).book.sheets[name];
      var grown := AppendBatch(rows, g.tuples);
      StyleAt(GroupStep(st, g).value.book.styles, k)
        == if InRange(k, name, |rows| + 1, |rows| + |g.tuples|, MaxColumn(grown)) then Style(ColumnFormat(k.col), FontSize)
           else StyleAt(st.book.styles, k)
  {
    var name := SheetNames.Sanitize(g.key);
    var resolved := Resolve(st, name);
    var rows := resolved.book.sheets[name];
    var grown := AppendBatch(rows, g.tuples);
    FormatRangeAt(resolved.book.styles, name, |rows| + 1, |grown|, MaxColumn(grown), k);
  }

  /** Resolving a sheet keeps the relation. */
  lemma ResolveExtends(b0: Book, st: State, name: string)
    requires Extends(b0, st)
    ensures Extends(b0, Resolve(st, name))
  {
    if name !in st.book.sheets {
      var r := Resolve(st, name);
      assert name !in st.modified;
      forall i, j | 0 <= i < j < |r.modified| ensures r.modified[i] != r.modified[j] {
        if j == |r.modified| - 1 {
          assert r.modified[i] in st.modified;
        }
      }
    }
  }

  /** Growing one sheet of a state at its end, and changing only styles of
      rows past its old end, keeps the relation. */
  lemma GrowExtends(b0: Book, st: State, name: string, grown: Rows, styles: map<Coord, Style>)
    requires Extends(b0, st)
    requires name in st.book.sheets && st.book.sheets[name] <= grown
    requires forall k: Coord :: k.sheet != name || k.row <= |st.book.sheets[name]| ==>
               StyleAt(styles, k) == StyleAt(st.book.styles, k)
    ensures Extends(b0, State(Book(st.book.sheets[name := grown], styles), st.modified))
  {
    var rows := st.book.sheets[name];
    var next := State(Book(st.book.sheets[name := grown], styles), st.modified);
    forall n | n in b0.sheets
      ensures n in next.book.sheets && b0.sheets[n] <= next.book.sheets[n]
    {
      if n == name {
        assert b0.sheets[n] <= rows;
      }
    }
    forall n | n in next.book.sheets && n !in b0.sheets
      ensures next.book.sheets[n] != [] && next.book.sheets[n][0] == Header
    {
      if n == name {
        assert rows != [] && rows[0] == Header;
        assert grown[0] == rows[0];
      }
    }
    forall k: Coord | k.sheet in b0.sheets && k.row <= |b0.sheets[k.sheet]|
      ensures StyleAt(styles, k) == StyleAt(b0.styles, k)
    {
      if k.sheet == name {
        assert |b0.sheets[name]| <= |rows|;
      }
    }
  }

  /** One successful group step keeps the relation. */
  lemma GroupStepExtends(b0: Book, st: State, g: Group)
    requires Extends(b0, st)
    requires GroupStep(st, g).Ok?
    ensures Extends(b0, GroupStep(st, g).value)
  {
    var name := SheetNames.Sanitize(g.key);
    var resolved := Resolve(st, name);
    ResolveExtends(b0, st, name);
    var rows := resolved.book.sheets[name];
    var grown := AppendBatch(rows, g.tuples);
    var width := MaxColumn(grown);
    var styles := FormatRange(resolved.book.styles, name, |rows| + 1, |grown|, width);
    forall k: Coord | k.sheet != name || k.row <= |rows|
      ensures StyleAt(styles, k) == StyleAt(resolved.book.styles, k)
    {
      FormatRangeAt(resolved.book.styles, name, |rows| + 1, |grown|, width, k);
    }
    GrowExtends(b0, resolved, name, grown, styles);
  }

  lemma {:induction false} RunGroupsExtends(b0: Book, st: State, gs: seq<Group>)
    requires Extends(b0, st)
    requires RunGroups(st, gs).Ok?
    ensures Extends(b0, RunGroups(st, gs).value)
    decreases |gs|
  {
    if gs != [] {
      GroupStepExtends(b0, st, gs[0]);
      RunGroupsExtends(b0, GroupStep(st, gs[0]).value, gs[1..]);
    }
  }

  lemma {:induction false} RunChunksExtends(b0: Book, st: State, cs: seq<seq<Row>>, width: nat)
    requires Extends(b0, st)
    requires RunChunks(st, cs, width).Ok?
    ensures Extends(b0, RunChunks(st, cs, width).value)
    decreases |cs|
  {
    if cs != [] {
      RunGroupsExtends(b0, st, ChunkGroups(cs[0]));
      RunChunksExtends(b0, ChunkStep(st, cs[0], width).value, cs[1..], width);
    }
  }

  /** A successful run only adds: the sheets it started with keep their rows
      and the styles of those rows, the sheets it creates start with the header,
      and the list of created sheets names each new sheet once. */
  lemma ProcessExtends(input: Frame, start: Book)
    requires Process(input, start).Ok?
    ensures Extends(start, Process(input, start).value)
  {
    RunChunksExtends(start, State(start, []), Chunking.Chunks(input.rows, Chunking.ChunkSize), input.width);
  }

  /** A run on a fresh workbook records every sheet it ends with as created. */
  lemma FreshRunRecordsAllSheets(input: Frame)
    requires Process(input, NoSheets).Ok?
    ensures forall n :: n in Process(input, NoSheets).value.modified <==> n in Process(input, NoSheets).value.book.sheets
  {
    ProcessExtends(input, NoSheets);
  }

  /** The sheets and the recorded names after a successful group step. */
  lemma GroupStepSheets(st: State, g: Group)
    requires GroupStep(st, g).Ok?
    ensures var name := SheetNames.Sanitize(g.key);
      var resolved := Resolve(st, name);
      && GroupStep(st, g).value.book.sheets
           == resolved.book.sheets[name := AppendBatch(resolved.book.sheets[name], g.tuples)]
      && GroupStep(st, g).value.modified == resolved.modified
  {
  }

  /** A group sent to a sheet that does not exist yet: the sheet is created
      with the header as row 1, its name is recorded once, and the group's rows
      follow with counters 1, 2, 3, ... */
  lemma NewSheetCounters(st: State, g: Group)
    requires SheetNames.Sanitize(g.key) !in st.book.sheets
    requires GroupStep(st, g).Ok?
    ensures var name := SheetNames.Sanitize(g.key);
      var rows := GroupStep(st, g).value.book.sheets[name];
      && GroupStep(st, g).value.modified == st.modified + [name]
      && |rows| == |g.tuples| + 1 && rows[0] == Header
      && forall j :: 0 <= j < |g.tuples| ==> rows[j + 1] == [Int(j + 1)] + FormatRow(g.tuples[j])
  {
    GroupStepSheets(st, g);
    HeaderBatch(Header, g.tuples);
  }

  /** A batch appended below a single row (the header) is counted from 1. */
  lemma HeaderBatch(h: seq<Cell>, ts: seq<seq<Cell>>)
    ensures var rows := AppendBatch([h], ts);
      && rows[0] == h
      && forall j :: 0 <= j < |ts| ==> rows[j + 1] == [Int(j + 1)] + FormatRow(ts[j])
  {
    var rows := AppendBatch([h], ts);
    assert rows[0] == rows[..1][0];
    HeaderBatchRows(h, ts);
  }

  lemma HeaderBatchRows(h: seq<Cell>, ts: seq<seq<Cell>>)
    ensures forall j :: 0 <= j < |ts| ==> AppendBatch([h], ts)[j + 1] == [Int(j + 1)] + FormatRow(ts[j])
  {
    assert NextCounter([h]) == 1;
    forall j | 0 <= j < |ts|
      ensures AppendBatch([h], ts)[j + 1] == [Int(j + 1)] + FormatRow(ts[j])
    {
      AppendBatchRows([h], ts, j);
    }
  }

  /** A group sent to a sheet that already exists: no sheet is created and
      the group's rows are appended below the sheet's rows, which stay as they
      were; `ContinuedBatch` gives their counters. */
  lemma ExistingSheetGrows(st: State, g: Group)
    requires SheetNames.Sanitize(g.key) in st.book.sheets
    requires GroupStep(st, g).Ok?
    ensures var name := SheetNames.Sanitize(g.key);
      && GroupStep(st, g).value.modified == st.modified
      && GroupStep(st, g).value.book.sheets[name] == AppendBatch(st.book.sheets[name], g.tuples)
  {
    var name := SheetNames.Sanitize(g.key);
    GroupStepSheets(st, g);
    assert Resolve(st, name) == st;
  }

  /** A batch appended below at least one row continues from `NextCounter`. */
  lemma ContinuedBatch(before: Rows, ts: seq<seq<Cell>>)
    requires before != []
    ensures var rows := AppendBatch(before, ts);
      forall j :: 0 <= j < |ts| ==> rows[|before| + j] == [Int(NextCounter(before) + j)] + FormatRow(ts[j])
  {
    forall j | 0 <= j < |ts|
      ensures AppendBatch(before, ts)[|before| + j] == [Int(NextCounter(before) + j)] + FormatRow(ts[j])
    {
      AppendBatchRows(before, ts, j);
    }
  }

  /** An empty sheet that already exists gets counters 1, 1, 2, ...: after the
      first append `max_row` is still 1, so the second row also starts over. */
  lemma EmptySheetRepeatsFirstCounter(t0: seq<Cell>, t1: seq<Cell>)
    ensures var rows := AppendBatch([], [t0, t1]);
      rows[0] == [Int(1)] + FormatRow(t0) && rows[1] == [Int(1)] + FormatRow(t1)
  {
    AppendBatchRows([], [t0, t1], 0);
    AppendBatchRows([], [t0, t1], 1);
  }

  /** Every row of a batch is one cell longer than the tuple's payload. */
  lemma BatchRowLengths(rows: Rows, ts: seq<seq<Cell>>, j: nat)
    requires j < |ts|
    ensures |AppendBatch(rows, ts)[|rows| + j]| == 1 + |FormatRow(ts[j])|
  {
    AppendBatchRows(rows, ts, j);
  }

  /** Input of at most 12 columns gives appended rows of at most 11 cells, as
      wide as the header: a new sheet is then narrower than the 12 columns the
      formatting addresses, and the group fails. */
  lemma NarrowInputFails(st: State, g: Group)
    requires SheetNames.Sanitize(g.key) !in st.book.sheets
    requires g.tuples != []
    requires forall j :: 0 <= j < |g.tuples| ==> |g.tuples[j]| <= 13
    ensures GroupStep(st, g).Err?
  {
    var name := SheetNames.Sanitize(g.key);
    assert Resolve(st, name).book.sheets[name] == [Header];
    NarrowBatch(Header, g.tuples);
  }

  /** Rows of at most 11 cells below a header of at most 11 cells. */
  lemma NarrowBatch(h: seq<Cell>, ts: seq<seq<Cell>>)
    requires |h| <= 11
    requires forall j :: 0 <= j < |ts| ==> |ts[j]| <= 13
    ensures MaxColumn(AppendBatch([h], ts)) <= 11
  {
    var grown := AppendBatch([h], ts);
    forall i | 0 <= i < |grown|
      ensures |grown[i]| <= 11
    {
      if i == 0 {
        assert grown[0] == grown[..1][0];
      } else {
        BatchRowLengths([h], ts, i - 1);
      }
    }
  }

  /** A group with one tuple of at least 14 values (13 input columns plus the
      key) makes the sheet 12 columns wide, so its formatting succeeds. */
  lemma WideInputSucceeds(st: State, g: Group, j: nat)
    requires j < |g.tuples| && |g.tuples[j]| >= 14
    ensures GroupStep(st, g).Ok?
  {
    var name := SheetNames.Sanitize(g.key);
    var rows := Resolve(st, name).book.sheets[name];
    var grown := AppendBatch(rows, g.tuples);
    BatchRowLengths(rows, g.tuples, j);
    assert |grown[|rows| + j]| >= 12;
  }
}
