# Excel sheet processor: a verified model of `process_excel`

The program reads the last sheet of an input spreadsheet. It splits the rows
into chunks of 1000 and gives every row a key: its first two fields joined
by `-`, with every `.0` removed. A row is kept only when the part of its key
before the first `-` is a field-0 text of the same chunk. The kept rows are
grouped by key, and each group is appended to the output sheet named after
the key.

Each appended row is a running counter followed by fields 2 onwards of the
row. The counter is read back from column 1 of the sheet's last row. The
appended rows then get number formats and font size 9. The output file is
written only when every chunk has succeeded. A missing input file ends the
run with "file not found", and any other error ends it with "an error
occurred".

The model has two layers:

- **Values.** `Cells`, `SheetNames`, `Keys`, `Chunking`, `Grouping` and
  `Merge` state what each step does as functions on values.
  `MergeProperties` and `RunProperties` prove what a run keeps and what it
  writes.
- **State.** `Store.Workbook` is the output workbook as a class whose
  sheets and cell styles are updated in place. `Pipeline` holds the loops of
  `process_excel` as methods on it: the chunk loop, the group loop, the
  append loop with its counter, and the two formatting passes. Each method
  is proved to compute exactly what `Merge` states.

Several behaviours of the code are easy to misread. The model follows the
code in each case:

- **Groups come in ascending key order.** `groupby` sorts its keys, so they
  do not come in the order first seen (`Grouping.GroupByPartitions`).
- **The filter can drop rows.** A row whose field 0 contains `-` or `.0`
  has a key prefix that differs from its own field 0. Such a row is dropped
  unless another row of the chunk has that prefix as its field 0
  (`Grouping.SurvivesIff`, `Grouping.DecimalFirstFieldIsDropped`).
- **The key column ends up in the tuple.** The key is added to the chunk as
  a column before grouping, so the tuples of a group end with it. `t[2:-1]`
  therefore drops the key and keeps every input field from field 2 on
  (`Merge.PayloadIsFieldsFromTwo`).
- **The fixed formats need 12 columns.** They address `row[11]`. A sheet
  narrower than 12 columns makes that row fail. The header is 11 cells
  wide, so input with at most 12 columns fails on a new sheet: nothing is
  saved and the status is "an error occurred"
  (`MergeProperties.NarrowInputFails`). A group whose tuples have 14 or
  more values formats without error (`MergeProperties.WideInputSucceeds`).
- **An empty sheet repeats counter 1.** The workbook reports `max_row` as 1
  for a sheet with no rows. A sheet that exists but is empty therefore gets
  counters 1, 1, 2, 3, ... (`MergeProperties.EmptySheetRepeatsFirstCounter`).
- **A boolean counts as an int.** Python's `isinstance(v, int)` accepts
  booleans, so a previous counter cell holding `True` counts as 1.
- **`.0` is removed anywhere in the key**, including inside text
  (`Keys.StripsInsideText`). The removal is not idempotent
  (`Keys.NotIdempotent`).

Inputs that the program gets from I/O are parameters of the model:

- whether the input file exists;
- the input table: its column count, the texts of fields 0 and 1 of each
  row, and each row's cell values;
- the output workbook, when the output file exists.

## Model

| member | source | states |
|---|---|---|
| SheetNames.ReplaceForbidden | main.py:12 | same length as the input; each of `\ / * ? : [ ]` becomes `_`; every other character is kept in place |
| SheetNames.Sanitize | main.py:11-13 | the name has exactly min(length, 31) characters, none of them forbidden, each equal to the key's character at that position or `_` where that one was forbidden |
| SheetNames.SharedPrefixSharesSheet | main.py:13 | two keys that agree on their first 31 characters go to the same sheet |
| SheetNames.CleanNameUnchanged | main.py:11-13 | a name of at most 31 characters with no forbidden character is kept as it is |
| SheetNames.SanitizeIdempotent | main.py:11-13 | sanitising a sanitised name changes nothing |
| Keys.BeforeDash | main.py:73 | `split('-')[0]` is a prefix of the key without `-`, followed in the key by `-` or by nothing |
| Keys.ReplaceDotZero | main.py:27 | `replace('.0', '')`: the result is never longer than the input |
| Keys.RemoveDecimalPart | main.py:25-28 | the result is always the replaced text, since the `'.0' in s` test never changes it; a text without `.0` is returned as it is |
| Keys.Key | main.py:68-69 | the key is never longer than the two texts joined by `-`, and always contains `-` |
| Keys.ReplaceWithoutMatch | main.py:27 | a string without `.0` is unchanged by the replacement |
| Keys.ReplaceLength | main.py:27 | the replacement never lengthens, removes an even number of characters, and keeps the length exactly when there is no `.0` |
| Keys.ReplaceRemovesTwoPerMatch | main.py:27 | the replacement shortens the text by exactly two characters per `.0` it contains, so it removes every occurrence and nothing else |
| Keys.ContainsDotZeroTail | main.py:26 | a string that does not start with `.0` contains `.0` exactly when its tail does |
| Keys.ReplaceKeepsOtherCharacters | main.py:27 | every character other than `.` and `0` occurs as often after the replacement as before |
| Keys.KeyKeepsSeparator | main.py:68-69 | the key holds every `-` of both fields plus the joining one, so it always contains `-` |
| Keys.NotIdempotent | main.py:25-28 | `..00` becomes `.0`, which a second pass would turn into the empty string |
| Keys.StripsInsideText | main.py:68-69 | fields `A.0B` and `7` give the key `AB-7` |
| Keys.ReplacePassesPrefix | main.py:27 | a prefix without `.0` that does not end in `.` passes through the replacement unchanged |
| Keys.BeforeDashOfJoin | main.py:73 | the text before the first `-` of `a-b` is `a` when `a` has no `-` |
| Keys.PlainFirstFieldIsKeyPrefix | main.py:68-73 | when field 0 has neither `-` nor `.0`, the key's prefix before `-` is exactly field 0 |
| Keys.DashInFirstFieldShortensPrefix | main.py:72-73 | when field 0 contains `-`, the key's prefix is never equal to field 0 |
| Keys.ReplaceSplits | main.py:27 | unless a `.` ends the first part and a `0` starts the second, replacing in two joined parts is replacing in each part |
| Keys.DecimalTextSameKey | main.py:68-69 | a field text that gains a trailing `.0` (`10` read as `10.0`) gives the same key, in field 0 as in field 1 |
| Chunking.Chunks | main.py:66-67 | there are chunks exactly when there are rows, and each chunk holds between 1 and 1000 rows |
| Chunking.ChunksCoverInput | main.py:66-67 | the chunks, concatenated in order, are exactly the input rows |
| Chunking.ChunkSizes | main.py:66-67 | there are ceil(n/1000) chunks |
| Chunking.FullChunks | main.py:66-67 | every chunk but the last holds exactly 1000 rows |
| Chunking.ChunksFrom | main.py:66-67 | the chunks from offset `start` are the slice `start..start+1000` followed by the chunks after it |
| Grouping.LessIrreflexive | main.py:75 | the key order never puts a key before itself |
| Grouping.LessTransitive | main.py:75 | the key order is transitive |
| Grouping.LessTotal | main.py:75 | any two different keys are ordered one way or the other |
| Grouping.LessAsymmetric | main.py:75 | no two keys are each before the other |
| Grouping.Listed | main.py:72-73 | a keyed row is kept exactly when its key's prefix before `-` is one of the field-0 texts |
| Grouping.ListedAppend | main.py:72-73 | the filter works row by row: filtering two stretches of rows in turn keeps the rows of the first, then those of the second, in order, each once |
| Grouping.Survivors | main.py:68-73 | the surviving rows are keyed rows of the chunk, and no more of them than the chunk has |
| Grouping.ListedKeepsAll | main.py:72-73 | when every row passes the test, the filter keeps the chunk whole and in order |
| Grouping.SurvivesIff | main.py:72-73 | a row survives exactly when some row of the same chunk has the row's key prefix as its field-0 text |
| Grouping.PlainRowSurvives | main.py:72-73 | a row whose field 0 has neither `-` nor `.0` always survives |
| Grouping.PlainChunkKeepsAll | main.py:72-73 | a chunk whose field-0 texts have neither `-` nor `.0` passes the filter unchanged |
| Grouping.DecimalFirstFieldIsDropped | main.py:72-73 | a lone row with field 0 `1.0` has key `1-A` and is dropped |
| Grouping.Insert | main.py:75 | inserting a key keeps the keys strictly ascending and adds exactly that key |
| Grouping.SortedKeys | main.py:75 | the keys are strictly ascending and are exactly the keys of the rows |
| Grouping.Select | main.py:75 | a group's tuples are exactly the tuples of the rows with its key |
| Grouping.SelectAppend | main.py:75 | selecting from two stretches of rows in turn gives the first stretch's tuples then the second's: a group keeps input order and holds each row once |
| Grouping.GroupsFor | main.py:75 | one group per key, in key order, holding that key's tuples |
| Grouping.GroupBy | main.py:75 | the groups come in strictly ascending key order, each holds the tuples of its key's rows, and every row's key has a group |
| Grouping.ChunkGroups | main.py:68-75 | no group of a chunk is empty, and the groups together hold as many tuples as rows survive the filter |
| Grouping.GroupByPartitions | main.py:75-87 | groups come in strictly ascending key order; none is empty; every row is in the group of its key; the group sizes add up to the row count |
| Merge.MaxLength | main.py:117 | the longest row length: no row is longer and some row has it |
| Merge.PayloadIsFieldsFromTwo | main.py:103-104 | the payload of a group tuple is the row's values from field 2 on, since the last value is the key |
| Merge.NextCounter | main.py:106-110 | the counter is 1 while the sheet has at most one row; otherwise one more than the int (or boolean) in column 1 of the last row, and 1 when that cell is empty or holds no int |
| Merge.AppendBatch | main.py:103-113 | appending a group adds one row per tuple and keeps the earlier rows as a prefix |
| Merge.AppendBatchRows | main.py:100-113 | appended row `j` is its counter followed by tuple `j`'s payload; the counter is `NextCounter` of the sheet plus `j`, or 1, 1, 2, ... on a sheet with no row |
| Merge.CounterContinues | main.py:106-108 | after a run whose last row has 7 in column 1, the next row gets 8 |
| Merge.FormatTable | main.py:119-134 | final formats: general in columns 1, 5 and 11; percentage in 4, 7 and 9; date in 12; currency in 2, 3, 6, 8, 10 and from 13 on |
| Merge.FormatCodesDiffer | main.py:78-83 | the four format texts are pairwise different |
| Merge.ColumnFormatCodes | main.py:78-134 | the format text each column ends with: `DD/MM/YYYY` only in column 12, `0.00%` in 4, 7 and 9, `General` in 1, 5 and 11, `R$ #,##0.00` everywhere else |
| Merge.BasePassAt | main.py:118-120 | the first pass gives each cell of the row general (column 1) or currency and font size 9, and changes no other cell |
| Merge.FixedPassAt | main.py:123-134 | the second pass sets the fixed formats of columns 1-12 of the row, keeps their fonts, and changes no other cell |
| Merge.RowStylesAt | main.py:118-134 | each formatted cell ends with its column's format and size 9; the rest of the workbook keeps its styles |
| Merge.FormatRangeAt | main.py:116-134 | every cell of the new rows, up to `max_column`, has its column's format and size 9, and every other cell keeps its style |
| Merge.Resolve | main.py:88-98 | after resolution the sheet exists |
| Merge.GroupStep | main.py:87-134 | a group without rows never fails; after a successful group the sheets are the earlier ones plus the group's own, the recorded names only grow, and the group's sheet holds its earlier rows (or the header) plus one row per tuple |
| Merge.RunGroups | main.py:87-134 | after all groups succeed, no sheet is lost, the recorded names only grow, and every group has its sheet |
| Merge.ChunkStep | main.py:68-134 | a table narrower than two columns fails; a successful chunk loses no sheet, only adds recorded names, and leaves a sheet for every surviving row's key |
| Merge.RunChunks | main.py:66-134 | with at least one chunk, a table narrower than two columns fails; after all chunks succeed no sheet is lost and every surviving row of every chunk has its sheet |
| Merge.Process | main.py:51-134 | a successful run keeps every sheet it started with and leaves a sheet for every surviving row of every chunk |
| MergeProperties.ResolveExtends | main.py:88-98 | reusing or creating a sheet keeps the earlier sheets, starts a new sheet with the header, and records its name once |
| MergeProperties.GrowExtends | main.py:100-134 | growing a sheet at its end and restyling only its new rows keeps what the run started from |
| MergeProperties.GroupStepExtends | main.py:87-134 | a successful group keeps every earlier sheet's rows and the styles of those rows |
| MergeProperties.GroupStepStyles | main.py:100-134 | a group restyles exactly the cells of its new rows up to the grown sheet's `max_column`, giving each its column's format and size 9; every other cell, including rows an earlier group of the run wrote, keeps its style |
| MergeProperties.RunGroupsExtends | main.py:87-134 | the same for all groups of a chunk |
| MergeProperties.RunChunksExtends | main.py:66-134 | the same for all chunks |
| MergeProperties.ProcessExtends | main.py:51-134 | a successful run keeps the output file's sheets, their rows and their styles; it starts each sheet it adds with the header, and records each added sheet once |
| MergeProperties.FreshRunRecordsAllSheets | main.py:54-98 | on a new output file, the recorded names are exactly the sheets written |
| MergeProperties.GroupStepSheets | main.py:88-113 | after a group, the resolved sheet holds the appended batch and no other sheet changes |
| MergeProperties.NewSheetCounters | main.py:92-113 | a new sheet gets its name recorded, the header as row 1 and counters 1, 2, 3, ... |
| MergeProperties.HeaderBatch | main.py:97-113 | rows appended below the header are counted from 1 |
| MergeProperties.ExistingSheetGrows | main.py:90-113 | an existing sheet records no name and gets the batch appended below its rows |
| MergeProperties.ContinuedBatch | main.py:100-113 | below a nonempty sheet the counters run `NextCounter`, `+1`, `+2`, ... |
| MergeProperties.EmptySheetRepeatsFirstCounter | main.py:100-113 | the first two rows appended to an empty existing sheet both get counter 1 |
| MergeProperties.BatchRowLengths | main.py:104-112 | each appended row is one cell longer than its payload |
| MergeProperties.NarrowInputFails | main.py:94-134 | input of at most 12 columns makes a group sent to a new sheet fail |
| MergeProperties.NarrowBatch | main.py:97-117 | rows of at most 11 cells below the header leave `max_column` at most 11 |
| MergeProperties.WideInputSucceeds | main.py:116-134 | a tuple of 14 values or more makes the group's formatting succeed |
| Store.Workbook.Empty | main.py:53-55 | a new workbook with its default sheet removed has no sheets and no styles |
| Store.Workbook.Load | main.py:51-52 | the loaded workbook is the output file's |
| Store.Workbook.Save | main.py:142 | saving writes the workbook as it is, and fails exactly when it has no sheet |
| Store.Workbook.CreateSheet | main.py:93 | a new empty sheet with the title; nothing else changes |
| Store.Workbook.Append | main.py:112 | the row goes below the sheet's rows; nothing else changes |
| Store.Workbook.SetNumberFormat | main.py:119-134 | the cell's format changes and its font is kept |
| Store.Workbook.SetFont | main.py:120 | the cell's font size changes and its format is kept |
| Pipeline.ResolveSheet | main.py:88-98 | the workbook and recorded names end as `Merge.Resolve` states |
| Pipeline.AppendRows | main.py:100-113 | the sheet ends as `Merge.AppendBatch` of its rows, styles are untouched, and the returned row is the sheet's `max_row` |
| Pipeline.BaseRowPass | main.py:118-120 | the styles end as the first pass states |
| Pipeline.FixedRowPass | main.py:123-134 | the styles end as the second pass states |
| Pipeline.FormatOneRow | main.py:118-134 | a row formats exactly when the sheet is 12 columns wide or more, and then extends the formatted range by that row |
| Pipeline.FormatRows | main.py:116-134 | the loop succeeds exactly when there is no row or the width is at least 12, and then leaves the styles of `Merge.FormatRange` |
| Pipeline.FormatNewRows | main.py:116-117 | the same over rows `lo..max_row`, columns `1..max_column` |
| Pipeline.ProcessGroup | main.py:87-134 | succeeds exactly when `Merge.GroupStep` does, leaving the state it states |
| Pipeline.MergeGroups | main.py:87-134 | succeeds exactly when `Merge.RunGroups` does, leaving the state it states |
| Pipeline.ProcessChunk | main.py:68-134 | succeeds exactly when `Merge.ChunkStep` does (a table narrower than two columns fails), leaving the state it states |
| Pipeline.StatusOf | main.py:143-155 | the status is green exactly on completion and red otherwise |
| Pipeline.Run | main.py:16-155 | "file not found" exactly when the input is missing; the file is written exactly when the run completes, which is when processing succeeds and leaves at least one sheet; a completed run writes the processed workbook |
| Pipeline.RunChunksFrom | main.py:66-67 | merging the rows from an offset is merging the slice there and then the rows after it |
| Pipeline.MergeChunks | main.py:66-134 | succeeds exactly when `Merge.RunChunks` over all chunks does, leaving the state it states |
| Pipeline.ProcessExcel | main.py:16-155 | the outcome and the workbook written are exactly `Pipeline.Run` |
| RunProperties.CompletedRunExtends | main.py:51-146 | a completed run writes the merged workbook, which keeps the output file's sheets, rows and styles |
| RunProperties.EmptyInputSavesUnchanged | main.py:51-155 | input without data rows writes an existing output workbook back unchanged; with no output file, the new workbook has no sheet and the save fails |
| RunProperties.NarrowTableFails | main.py:68-155 | input with rows but fewer than two columns ends with "an error occurred" and writes nothing |

## Left out

- The user interface (`main`, buttons, file pickers), the intermediate status messages, `page.update()` and the elapsed time in the final message are not modelled. `Pipeline.StatusOf` gives only each outcome's message prefix and colour.
- Reading the input file is a parameter: the choice of its last sheet, how `read_excel` reads cells, and the header row it consumes. The texts of fields 0 and 1 that `astype(str)` produces are given with each row. For example, an integer column read as float prints as `10.0`, and this is not derived.
- Loading and writing the output file are parameters: a loaded workbook is given as a value, and `Store.Workbook.Save` yields the value that would be written. Of the ways `save` can fail, only a workbook with no sheet at all is modelled (it happens when a run on a new output file writes no group); a disk or permission error is not.
- The workbook's own handling of sheet titles is not modelled. It renames a new title that equals an existing one up to letter case. The model treats titles as case-sensitive, as the `in sheetnames` test does.
- Sheet order in the workbook and the ordering of `modified_sheets` beyond "each name once" are not modelled.
- Only a cell's number format and font size are modelled. `Font(size=9)` also resets the font's other attributes, and the model does not capture that. Cell values other than ints, booleans and strings are one `Other` case.
- The styles a failing run leaves half-applied are not described, because a failing run writes nothing.
- Merge.Resolve: its contract states only that the sheet exists; `MergeProperties.ResolveExtends` states the rest.
