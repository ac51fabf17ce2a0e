/**
 * Tables as the repository's pandas code sees them: named columns, and rows
 * that map each column name to a cell.
 */
module Schema {
  import opened Dates

  /** One cell: text, a number (a float; NaN is `Null`), a parsed timestamp, or a missing value (NaN/NaT/None). */
  datatype Cell = Text(text: string) | Num(value: real) | Stamp(date: Date) | Null

  type Row = map<string, Cell>

  datatype Frame = Frame(columns: seq<string>, rows: seq<Row>)

  predicate Distinct(names: seq<string>) {
    forall i, j :: 0 <= i < j < |names| ==> names[i] != names[j]
  }

  /** Every row holds a cell for exactly the frame's columns. */
  predicate Rectangular(f: Frame) {
    forall i :: 0 <= i < |f.rows| ==> f.rows[i].Keys == set c | c in f.columns
  }

  predicate WellFormed(f: Frame) {
    Distinct(f.columns) && Rectangular(f)
  }

  /** `DataFrame.empty`: no rows or no columns. */
  predicate IsEmpty(f: Frame) {
    f.rows == [] || f.columns == []
  }

  /** `pd.DataFrame()`. */
  const EMPTY: Frame := Frame([], [])

  /** The cell of column `c`; rows of a rectangular frame hold every column, so `Null` stands only for "no such cell". */
  function Get(row: Row, c: string): Cell {
    if c in row then row[c] else Null
  }
}
