/**
  What the footer check accepts and what a recomputed footer holds, as arithmetic on the figures of
  the rows.
*/
module FooterFigures {
  import opened Wrappers
  import opened Table
  import opened RawRows
  import opened Footer

  /** The figure a footer cell announces. */
  function Announced(c: Cell): Option<real> {
    match c
    case Text(_, number, _, _) => number
    case Amount(v) => Some(v)
    case Day(_) => None
  }

  predicate Whole(x: real) { x == x.Floor as real }

  lemma SameReading(row: Row, column: string)
    ensures Countable(row, column) <==> Reading(row, column).Some?
    ensures Worth(row, column) == Figure(row, column) || !Countable(row, column)
  {
  }

  lemma {:induction false} SumIsAdded(rows: seq<Row>, column: string)
    requires AllCountable(rows, column)
    ensures Sum(rows, row => Figure(row, column)) == Added(rows, column)
  {
    if rows != [] {
      var n := |rows| - 1;
      SumIsAdded(rows[..n], column);
      assert rows == rows[..n] + [rows[n]];
      FigureAppend(rows[..n], rows[n], column);
      SameReading(rows[n], column);
    }
  }

  lemma ReadableIsCountable(rows: seq<Row>, column: string)
    ensures Readable(rows, column) <==> AllCountable(rows, column)
  {
    forall row
      ensures Countable(row, column) <==> Reading(row, column).Some?
    {
      SameReading(row, column);
    }
    if Readable(rows, column) {
      forall row | row in rows
        ensures Countable(row, column)
      {
        var i :| 0 <= i < |rows| && rows[i] == row;
      }
    }
  }

  /** A column sum exists if every cell can be read, and is the figures added up. */
  lemma ColumnAdds(rows: seq<Row>, column: string)
    ensures ColumnSum(rows, column) == if AllCountable(rows, column) then Some(Added(rows, column)) else None
  {
    ReadableIsCountable(rows, column);
    if AllCountable(rows, column) {
      SumIsAdded(rows, column);
    }
  }

  lemma PresentIsCarried(rows: seq<Row>, column: string)
    ensures Present(rows, column) <==> Carried(rows, column)
  {
    if Carried(rows, column) {
      var row :| row in rows && column in row;
      var i :| 0 <= i < |rows| && rows[i] == row;
    }
  }

  function Distance(x: real, y: real): real { if x < y then y - x else x - y }

  /**
    A total agrees with the announced one: to the digit where the announced one is whole, other than
    for wages; else within a tolerance relative to the announced total, or to one if that is smaller.
  */
  ghost predicate Agrees(column: string, total: real, announced: real, tolerance: real) {
    if column != "je" && Whole(announced) then total == announced
    else
      && Distance(total, announced) <= tolerance * (if announced > 1.0 then announced
                                                    else if announced < -1.0 then -announced else 1.0)
  }

  /** What a footer may announce for a column that the rows carry. */
  ghost predicate TrueOf(rows: seq<Row>, column: string, announced: Cell, tolerance: real) {
    && AllCountable(rows, column) && Announced(announced).Some?
    && Agrees(column, Added(rows, column), Announced(announced).value, tolerance)
  }

  /** What a footer may announce as percentage: the sums' quotient, both rounded to hundredths. */
  ghost predicate TrueRatio(rows: seq<Row>, announced: Cell) {
    && AllCountable(rows, "sssl") && AllCountable(rows, "fhsl") && Announced(announced).Some?
    && HalfUp(Quotient(rows)) == HalfUp(Announced(announced).value)
  }

  /** A hundred times received over issued; nothing where nothing was issued. */
  function Quotient(rows: seq<Row>): real {
    if Added(rows, "fhsl") == 0.0 then 0.0 else 100.0 * Added(rows, "sssl") / Added(rows, "fhsl")
  }

  lemma QuotientIsPercentage(rows: seq<Row>)
    ensures Quotient(rows) == Percentage(Added(rows, "sssl"), Added(rows, "fhsl"))
  {
    var r, i := Added(rows, "sssl"), Added(rows, "fhsl");
    if i != 0.0 {
      assert 100.0 * r / i == r / i * 100.0;
    }
  }

  lemma AgreesIsClose(column: string, total: real, announced: real, tolerance: real)
    ensures Agrees(column, total, announced, tolerance) <==> Close(column, total, announced, tolerance)
  {
  }

  lemma ColumnKey(column: string)
    ensures ColumnOfKey(column + "_total") == Some(column)
  {
    TotalKeyColumn(column);
  }

  lemma KeyIsTrue(rows: seq<Row>, checksRatio: bool, column: string, announced: Cell, tolerance: real)
    requires rows != [] && column != "wcl"
    ensures KeyReconciles(rows, checksRatio, column + "_total", announced, tolerance) <==>
            (Carried(rows, column) ==> TrueOf(rows, column, announced, tolerance))
  {
    ColumnKey(column);
    ColumnAdds(rows, column);
    PresentIsCarried(rows, column);
    if ColumnSum(rows, column).Some? && Announced(announced).Some? {
      AgreesIsClose(column, Added(rows, column), Announced(announced).value, tolerance);
    }
  }

  lemma RatioIsTrue(rows: seq<Row>, footer: FooterMap, announced: Cell, tolerance: real)
    requires rows != []
    ensures KeyReconciles(rows, ChecksRatio(rows, footer), "wcl_total", announced, tolerance) <==>
            (ChecksRatio(rows, footer) ==> TrueRatio(rows, announced))
  {
    ColumnKey("wcl");
    assert "wcl" + "_total" == "wcl_total";
    ColumnAdds(rows, "sssl");
    ColumnAdds(rows, "fhsl");
    QuotientIsPercentage(rows);
    SeenIsPresent(rows, Wanted(footer), {}, "sssl");
    SeenIsPresent(rows, Wanted(footer), {}, "fhsl");
  }

  /**
    The check accepts the footer of a non-empty row set if and only if every total it announces for a
    column that some row carries is, up to the tolerance, that of the figures, and the percentage is
    the quotient of the sums wherever both its columns were met.
  */
  lemma FooterAccepted(rows: seq<Row>, footer: FooterMap, tolerance: real)
    requires rows != []
    ensures Reconciles(rows, footer, tolerance) <==>
            && (forall column :: column != "wcl" && column + "_total" in footer && Carried(rows, column) ==>
                  TrueOf(rows, column, footer[column + "_total"], tolerance))
            && ("wcl_total" in footer && ChecksRatio(rows, footer) ==> TrueRatio(rows, footer["wcl_total"]))
  {
    forall column | column != "wcl" && column + "_total" in footer
      ensures KeyReconciles(rows, ChecksRatio(rows, footer), column + "_total", footer[column + "_total"], tolerance)
              <==> (Carried(rows, column) ==> TrueOf(rows, column, footer[column + "_total"], tolerance))
    {
      KeyIsTrue(rows, ChecksRatio(rows, footer), column, footer[column + "_total"], tolerance);
    }
    if "wcl_total" in footer {
      RatioIsTrue(rows, footer, footer["wcl_total"], tolerance);
    }
    forall key | key in footer
      ensures ColumnOfKey(key).Some? ==> key == ColumnOfKey(key).value + "_total"
    {
    }
    assert "wcl" + "_total" == "wcl_total";
  }

  /** Without rows every announced total must be nothing. */
  lemma EmptyFooterAccepted(footer: FooterMap, tolerance: real)
    ensures Reconciles([], footer, tolerance) <==>
            forall column :: column + "_total" in footer ==> Announced(footer[column + "_total"]) == Some(0.0)
  {
    forall column | column + "_total" in footer
      ensures ColumnOfKey(column + "_total") == Some(column)
    {
      ColumnKey(column);
    }
    forall key | key in footer
      ensures ColumnOfKey(key).Some? ==> key == ColumnOfKey(key).value + "_total"
    {
    }
  }

  /** A recomputed footer holds the sum of the figures of each announced column that is carried and can be read. */
  lemma FooterServed(rows: seq<Row>, footer: FooterMap, column: string)
    requires column != "wcl"
    ensures var out := Recomputed(rows, footer);
            && (column + "_total" in out <==>
                column + "_total" in footer && (rows == [] || Carried(rows, column)) && AllCountable(rows, column))
            && (column + "_total" in out ==> out[column + "_total"] == Amount(Added(rows, column)))
  {
    ColumnKey(column);
    ColumnAdds(rows, column);
    PresentIsCarried(rows, column);
  }

  /** The percentage of a recomputed footer is the rounded quotient of the sums, where the rows carry both columns. */
  lemma RatioServed(rows: seq<Row>, footer: FooterMap)
    ensures var out := Recomputed(rows, footer);
            && ("wcl_total" in out <==>
                && "wcl_total" in footer && Carried(rows, "sssl") && Carried(rows, "fhsl")
                && AllCountable(rows, "sssl") && AllCountable(rows, "fhsl"))
            && ("wcl_total" in out ==> out["wcl_total"] == Amount(HalfUp(Quotient(rows))))
  {
    ColumnKey("wcl");
    assert "wcl" + "_total" == "wcl_total";
    ColumnAdds(rows, "sssl");
    ColumnAdds(rows, "fhsl");
    PresentIsCarried(rows, "sssl");
    PresentIsCarried(rows, "fhsl");
    QuotientIsPercentage(rows);
  }

  /** Keys that announce no total are dropped. */
  lemma OnlyTotalsServed(rows: seq<Row>, footer: FooterMap, key: string)
    requires key in Recomputed(rows, footer)
    ensures key in footer && exists column :: key == column + "_total"
  {
    assert key == ColumnOfKey(key).value + "_total";
  }

  lemma FloorExactly(y: real, n: int)
    ensures y.Floor == n <==> n as real <= y < n as real + 1.0
  {
  }

  lemma SameHundredth(k: int, n: int)
    ensures k as real / 100.0 == n as real / 100.0 <==> k == n
  {
    if k as real / 100.0 == n as real / 100.0 {
      assert k as real / 100.0 * 100.0 == k as real;
      assert n as real / 100.0 * 100.0 == n as real;
    }
  }

  /** A hundredth is the rounding of exactly what is nearer to it than to any other, halves away from zero. */
  lemma HalfUpExactly(x: real, n: nat)
    requires x >= 0.0
    ensures HalfUp(x) == n as real / 100.0 <==> n as real - 0.5 <= x * 100.0 < n as real + 0.5
  {
    var y := x * 100.0 + 0.5;
    FloorExactly(y, n);
    SameHundredth(y.Floor, n);
  }

  lemma HalfUpMirrors(x: real)
    ensures HalfUp(-x) == -HalfUp(x)
  {
    var y := if x >= 0.0 then x else -x;
    var k := (y * 100.0 + 0.5).Floor;
    assert -(-y) == y;
    if x == 0.0 {
      FloorExactly(0.5, 0);
    }
    NegatedHundredth(k);
  }

  lemma NegatedHundredth(k: int)
    ensures -(k as real) / 100.0 == -(k as real / 100.0)
  {
  }
}
