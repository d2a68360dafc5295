/** The output workbook held in memory: the sheets the processing creates and
    appends to, and the styles it sets on cells. Reading and writing the file
    are outside this model: a loaded workbook is given as a `Book` value, and
    saving yields the `Book` that would be written. */
module Store {
  import opened Cells
  import opened Merge

  class Workbook {
    var sheets: map<string, Rows>
    var styles: map<Coord, Style>

    /** The workbook as a value. */
    function Model(): Book
      reads this
    {
      Book(sheets, styles)
    }

    /** A new workbook with its default sheet removed. */
    constructor Empty()
      ensures Model() == NoSheets
    {
      sheets := map[];
      styles := map[];
    }

    /** The existing output workbook. */
    constructor Load(b: Book)
      ensures Model() == b
    {
      sheets := b.sheets;
      styles := b.styles;
    }

    /** `create_sheet(title)`: a new sheet with no rows. */
    method CreateSheet(title: string)
      requires title !in sheets
      modifies this
      ensures sheets == old(sheets)[title := []]
      ensures styles == old(styles)
    {
      sheets := sheets[title := []];
    }

    /** `sheet.append(row)`: the row becomes the sheet's new last row. */
    method Append(title: string, row: seq<Cell>)
      requires title in sheets
      modifies this
      ensures sheets == old(sheets)[title := old(sheets)[title] + [row]]
      ensures styles == old(styles)
    {
      sheets := sheets[title := sheets[title] + [row]];
    }

    function MaxRowOf(title: string): nat
      reads this
      requires title in sheets
    {
      MaxRow(sheets[title])
    }

    function MaxColumnOf(title: string): nat
      reads this
      requires title in sheets
    {
      MaxColumn(sheets[title])
    }

    /** `sheet.cell(row=r, column=c).value`. */
    function CellValue(title: string, r: int, c: int): Cell
      reads this
      requires title in sheets
    {
      CellAt(sheets[title], r, c)
    }

    /** `cell.number_format = ...`: the cell keeps its font. */
    method SetNumberFormat(k: Coord, f: NumberFormat)
      modifies this
      ensures styles == old(styles)[k := StyleAt(old(styles), k).(format := f)]
      ensures sheets == old(sheets)
    {
      styles := styles[k := StyleAt(styles, k).(format := f)];
    }

    /** `cell.font = Font(size=...)`: the cell keeps its number format. */
    method SetFont(k: Coord, size: nat)
      modifies this
      ensures styles == old(styles)[k := StyleAt(old(styles), k).(fontSize := size)]
      ensures sheets == old(sheets)
    {
      styles := styles[k := StyleAt(styles, k).(fontSize := size)];
    }

    /** `save(filename)`: the workbook as written to the file. Writing a
        workbook without any sheet fails, since one sheet must be visible. */
    method Save() returns (written: Option<Book>)
      ensures written == None <==> sheets == map[]
      ensures written.Some? ==> written.value == Book(sheets, styles)
    {
      if sheets == map[] {
        written := None;
      } else {
        written := Some(Model());
      }
    }
  }
}
