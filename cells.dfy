/** Values held by spreadsheet cells, and the outcome of an operation that may fail. */
module Cells {

  /** A cell value. `Bool` is kept apart from `Int` because Python's
      `isinstance(v, int)` also accepts booleans; `Other` stands for floats,
      dates and every other value the counter logic treats as "not an int". */
  datatype Cell = Empty | Int(i: int) | Bool(b: bool) | Str(s: string) | Other

  /** True when Python's `isinstance(v, int)` holds of the cell's value. */
  predicate IsInt(c: Cell)
  {
    c.Int? || c.Bool?
  }

  /** The integer value of a cell that `IsInt` accepts (`True` is 1, `False` is 0). */
  function IntValue(c: Cell): (v: int)
    requires IsInt(c)
    ensures c.Bool? ==> (v == 1 <==> c.b) && (v == 0 <==> !c.b)
    ensures c.Int? ==> v == c.i
  {
    match c
    case Int(i) => i
    case Bool(b) => if b then 1 else 0
  }

  /** One input record: the texts of fields 0 and 1 (as the table's
      string conversion gives them) and all of the record's cell values. */
  datatype Row = Row(text0: string, text1: string, cells: seq<Cell>)

  /** The input table: the number of columns it has and its data rows. */
  datatype Frame = Frame(width: nat, rows: seq<Row>)

  datatype Option<T> = None | Some(value: T)

  /** A value, or the failure of the operation that was to produce it. */
  datatype Result<T> = Ok(value: T) | Err
}
