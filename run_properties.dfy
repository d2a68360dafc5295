/** Properties of a whole run of `process_excel`: which status it ends with,
    and what it writes to the output file. */
module RunProperties {
  import opened Cells
  import Chunking
  import opened Merge
  import opened MergeProperties
  import opened Pipeline

  /** A completed run writes the merged workbook, which keeps every sheet of
      the output file it started from with the rows and styles that sheet had,
      and starts every sheet it adds with the header. */
  lemma CompletedRunExtends(input: Frame, existing: Option<Book>)
    requires Run(true, input, existing).outcome == Completed
    ensures Process(input, StartOf(existing)).Ok?
    ensures Run(true, input, existing).saved == Some(Process(input, StartOf(existing)).value.book)
    ensures Extends(StartOf(existing), Process(input, StartOf(existing)).value)
  {
    ProcessExtends(input, StartOf(existing));
  }

  /** An input without data rows leaves the workbook as it was, and the run
      writes it unchanged; with no output file to start from, the new
      workbook has no sheet to write and the save fails. */
  lemma EmptyInputSavesUnchanged(input: Frame, existing: Option<Book>)
    requires input.rows == []
    ensures existing.Some? && existing.value.sheets != map[] ==>
      Run(true, input, existing) == Report(Completed, existing)
    ensures existing.None? ==> Run(true, input, existing) == Report(Failed, None)
  {
    assert Chunking.Chunks(input.rows, Chunking.ChunkSize) == [];
  }

  /** Reading field 1 of a table with fewer than two columns fails on the
      first chunk: the run ends with "an error occurred" and writes nothing. */
  lemma NarrowTableFails(input: Frame, existing: Option<Book>)
    requires input.rows != [] && input.width < 2
    ensures Run(true, input, existing) == Report(Failed, None)
  {
    var cs := Chunking.Chunks(input.rows, Chunking.ChunkSize);
    Chunking.ChunkSizes(input.rows, Chunking.ChunkSize);
    assert cs != [];
    assert ChunkStep(State(StartOf(existing), []), cs[0], input.width) == Err;
  }
}
