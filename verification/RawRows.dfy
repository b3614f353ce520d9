/**
  Rows as they are written: texts, figures and days of cells, and the figures of a column added up.
  The promises about views, groups and footers are stated in these terms.
*/
module RawRows {
  import opened Table

  /** The text of a cell; nothing where the column is missing or holds no text. */
  function Written(row: Row, column: string): string {
    if column in row && row[column].Text? then row[column].s else ""
  }

  /** The cell is blank, missing, or a number. */
  predicate Countable(row: Row, column: string) {
    column in row ==>
      match row[column]
      case Text(s, number, _, _) => s == "" || number.Some?
      case Amount(_) => true
      case Day(_) => false
  }

  /** The number of a cell; a blank or missing one is worth nothing. */
  function Worth(row: Row, column: string): real {
    if column !in row then 0.0
    else
      match row[column]
      case Text(s, Some(v), _, _) => if s == "" then 0.0 else v
      case Amount(v) => v
      case _ => 0.0
  }

  ghost predicate Carried(rows: seq<Row>, column: string) { exists row :: row in rows && column in row }

  ghost predicate AllCountable(rows: seq<Row>, column: string) { forall row :: row in rows ==> Countable(row, column) }

  /** The figures of a column, added up. */
  function Added(rows: seq<Row>, column: string): real {
    if rows == [] then 0.0 else Added(rows[..|rows| - 1], column) + Worth(rows[|rows| - 1], column)
  }
}
