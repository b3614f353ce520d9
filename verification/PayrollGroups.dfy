/**
  What payroll grouping amounts to, group by group, stated without its loops: and why the order of
  the detail does not matter.
*/
module PayrollGroups {
  import opened Wrappers
  import opened Sorting
  import opened TextOrder
  import opened Table
  import opened Progress
  import opened Footer
  import opened PayrollView

  // ---------------------------------------------------------------- what each group holds

  /** Rows that can be grouped: each carries every dimension, and every figure it carries can be read. */
  predicate Groupable(row: Row, columns: seq<string>, measures: seq<string>) {
    && (forall c :: c in columns ==> c in row)
    && (forall m :: m in measures && m in row ==> Reading(row, m).Some?)
  }

  predicate AllGroupable(rows: seq<Row>, columns: seq<string>, measures: seq<string>) {
    forall i :: 0 <= i < |rows| ==> Groupable(rows[i], columns, measures)
  }

  predicate Keyed(rows: seq<Row>, columns: seq<string>, key: seq<string>) {
    exists i :: 0 <= i < |rows| && PayrollKey(rows[i], columns) == key
  }

  function KeyShare(row: Row, columns: seq<string>, key: seq<string>, m: string): real {
    if PayrollKey(row, columns) == key then Figure(row, m) else 0.0
  }

  /** The figures of one measure over the rows of one group, added up. */
  function KeySum(rows: seq<Row>, columns: seq<string>, key: seq<string>, m: string): real {
    Sum(rows, row => KeyShare(row, columns, key, m))
  }

  predicate Carried(rows: seq<Row>, columns: seq<string>, key: seq<string>, m: string) {
    exists i :: 0 <= i < |rows| && PayrollKey(rows[i], columns) == key && m in rows[i]
  }

  function First(rows: seq<Row>, columns: seq<string>, key: seq<string>): Row {
    if rows == [] then map[]
    else if PayrollKey(rows[0], columns) == key then rows[0]
    else First(rows[1..], columns, key)
  }

  /** A dimension that is itself a measure starts the sum with the group's own value. */
  function Opening(first: Row, columns: seq<string>, m: string): real { if m in columns then Figure(first, m) else 0.0 }

  function PayrollCell(rows: seq<Row>, columns: seq<string>, measures: seq<string>, key: seq<string>, c: string): Cell {
    if c in measures && Carried(rows, columns, key, c)
    then Amount(KeySum(rows, columns, key, c) + Opening(First(rows, columns, key), columns, c))
    else Get(DimensionCells(First(rows, columns, key), columns), c)
  }

  /** The row of one group: its dimensions, and the total of each measure that any of its rows carries. */
  function PayrollRow(rows: seq<Row>, columns: seq<string>, measures: seq<string>, key: seq<string>): Row {
    map c | c in columns + measures && (c in columns || Carried(rows, columns, key, c)) ::
      PayrollCell(rows, columns, measures, key, c)
  }

  /** The keys of the groups in order of first appearance. */
  function PayrollKeys(rows: seq<Row>, columns: seq<string>): seq<seq<string>> {
    if rows == [] then []
    else
      var n := |rows| - 1;
      var before, key := PayrollKeys(rows[..n], columns), PayrollKey(rows[n], columns);
      if key in before then before else before + [key]
  }

  /** One row per group, in order of the keys. */
  function PayrollTable(rows: seq<Row>, columns: seq<string>, measures: seq<string>): seq<Row> {
    var keys := Sort(PayrollKeys(rows, columns), TupleLe);
    seq(|keys|, i requires 0 <= i < |keys| => PayrollRow(rows, columns, measures, keys[i]))
  }

  lemma {:induction false} PayrollKeysMembers(rows: seq<Row>, columns: seq<string>, key: seq<string>)
    ensures key in PayrollKeys(rows, columns) <==> Keyed(rows, columns, key)
  {
    if rows != [] {
      var n := |rows| - 1;
      PayrollKeysMembers(rows[..n], columns, key);
      KeyedAppend(rows[..n], rows[n], columns, key);
      assert rows == rows[..n] + [rows[n]];
    }
  }

  lemma KeyedAppend(rows: seq<Row>, row: Row, columns: seq<string>, key: seq<string>)
    ensures Keyed(rows + [row], columns, key) <==> Keyed(rows, columns, key) || PayrollKey(row, columns) == key
  {
    var all := rows + [row];
    if Keyed(rows, columns, key) {
      var i :| 0 <= i < |rows| && PayrollKey(rows[i], columns) == key;
      assert all[i] == rows[i];
    }
    assert all[|rows|] == row;
  }

  lemma CarriedAppend(rows: seq<Row>, row: Row, columns: seq<string>, key: seq<string>, m: string)
    ensures Carried(rows + [row], columns, key, m) <==>
            Carried(rows, columns, key, m) || (PayrollKey(row, columns) == key && m in row)
  {
    var all := rows + [row];
    if Carried(rows, columns, key, m) {
      var i :| 0 <= i < |rows| && PayrollKey(rows[i], columns) == key && m in rows[i];
      assert all[i] == rows[i];
    }
    assert all[|rows|] == row;
  }

  lemma KeySumAppend(rows: seq<Row>, row: Row, columns: seq<string>, key: seq<string>, m: string)
    ensures KeySum(rows + [row], columns, key, m) == KeySum(rows, columns, key, m) + KeyShare(row, columns, key, m)
  {
    var weigh := (r: Row) => KeyShare(r, columns, key, m);
    SumConcat(rows, [row], weigh);
    assert [row][1..] == [];
    assert Sum([row], weigh) == weigh(row) + Sum([], weigh);
  }

  lemma {:induction false} FirstAppend(rows: seq<Row>, row: Row, columns: seq<string>, key: seq<string>)
    ensures First(rows + [row], columns, key) ==
            if Keyed(rows, columns, key) then First(rows, columns, key)
            else if PayrollKey(row, columns) == key then row else map[]
  {
    if rows == [] {
      assert ([] + [row])[1..] == [];
    } else {
      assert (rows + [row])[1..] == rows[1..] + [row];
      FirstAppend(rows[1..], row, columns, key);
      KeyedHead(rows, columns, key);
    }
  }

  lemma KeyedHead(rows: seq<Row>, columns: seq<string>, key: seq<string>)
    requires rows != []
    ensures Keyed(rows, columns, key) <==> PayrollKey(rows[0], columns) == key || Keyed(rows[1..], columns, key)
  {
    if Keyed(rows[1..], columns, key) {
      var i :| 0 <= i < |rows[1..]| && PayrollKey(rows[1..][i], columns) == key;
      assert rows[i + 1] == rows[1..][i];
    }
    if i :| 0 < i < |rows| && PayrollKey(rows[i], columns) == key {
      assert rows[1..][i - 1] == rows[i];
    }
  }

  /** A measure that no row of the group carries adds nothing. */
  lemma {:induction false} UncarriedIsZero(rows: seq<Row>, columns: seq<string>, key: seq<string>, m: string)
    requires !Carried(rows, columns, key, m)
    ensures KeySum(rows, columns, key, m) == 0.0
  {
    if rows != [] {
      var n := |rows| - 1;
      assert rows == rows[..n] + [rows[n]];
      CarriedAppend(rows[..n], rows[n], columns, key, m);
      UncarriedIsZero(rows[..n], columns, key, m);
      KeySumAppend(rows[..n], rows[n], columns, key, m);
    }
  }

  // ---------------------------------------------------------------- the loops build those groups

  lemma {:induction false} AddSucceeds(out: Row, row: Row, measures: seq<string>)
    requires Distinct(measures)
    requires forall m :: m in measures && m in row ==> Reading(out, m).Some? && Reading(row, m).Some?
    ensures AddMeasures(out, row, measures).Some?
  {
    if measures != [] {
      var n := |measures| - 1;
      AddSucceeds(out, row, measures[..n]);
      assert measures[n] !in measures[..n];
      AddKeeps(out, row, measures[..n], measures[n]);
    }
  }

  lemma {:induction false} AddFails(out: Row, row: Row, measures: seq<string>, m: string)
    requires m in measures && m in row && Reading(row, m).None?
    ensures AddMeasures(out, row, measures).None?
  {
    var n := |measures| - 1;
    if measures[n] != m {
      assert measures == measures[..n] + [measures[n]];
      AddFails(out, row, measures[..n], m);
    }
  }

  /** One cell of a group after one more row. */
  lemma AddedCell(out: Row, row: Row, measures: seq<string>, c: string)
    requires AddMeasures(out, row, measures).Some? && Distinct(measures)
    ensures var after := AddMeasures(out, row, measures).value;
            && (c in after <==> c in out || (c in measures && c in row))
            && (c in after ==> after[c] == if c in measures && c in row then Amount(Figure(out, c) + Figure(row, c))
                else out[c])
  {
    if c in measures && c in row {
      var k :| 0 <= k < |measures| && measures[k] == c;
      AddBumps(out, row, measures, k);
    } else {
      AddKeeps(out, row, measures, c);
    }
  }

  /** The row a group starts from, or has reached. */
  function Standing(rows: seq<Row>, row: Row, columns: seq<string>, measures: seq<string>): Row {
    var key := PayrollKey(row, columns);
    if Keyed(rows, columns, key) then PayrollRow(rows, columns, measures, key) else DimensionCells(row, columns)
  }

  lemma {:induction false} FirstHasColumns(rows: seq<Row>, columns: seq<string>, measures: seq<string>,
                                           key: seq<string>)
    requires AllGroupable(rows, columns, measures) && Keyed(rows, columns, key)
    ensures Groupable(First(rows, columns, key), columns, measures) &&
            PayrollKey(First(rows, columns, key), columns) == key
    ensures forall c :: c in columns ==> Carried(rows, columns, key, c)
    ensures First(rows, columns, key) in rows
  {
    var i :| 0 <= i < |rows| && PayrollKey(rows[i], columns) == key;
    assert Groupable(rows[i], columns, measures);
    if PayrollKey(rows[0], columns) == key {
      assert Groupable(rows[0], columns, measures);
    } else {
      KeyedHead(rows, columns, key);
      FirstHasColumns(rows[1..], columns, measures, key);
    }
  }

  lemma StandingReads(rows: seq<Row>, row: Row, columns: seq<string>, measures: seq<string>, m: string)
    requires AllGroupable(rows, columns, measures) && Groupable(row, columns, measures) && m in measures && m in row
    ensures Reading(Standing(rows, row, columns, measures), m).Some?
  {
    var key := PayrollKey(row, columns);
    if Keyed(rows, columns, key) {
      FirstHasColumns(rows, columns, measures, key);
    }
  }

  /** The figure a group stands at: the sum so far, and the opening value. */
  lemma StandingFigure(rows: seq<Row>, row: Row, columns: seq<string>, measures: seq<string>, m: string)
    requires AllGroupable(rows, columns, measures) && Groupable(row, columns, measures) && m in measures
    ensures var key := PayrollKey(row, columns);
            Figure(Standing(rows, row, columns, measures), m) ==
            KeySum(rows, columns, key, m) + Opening(First(rows + [row], columns, key), columns, m)
  {
    var key := PayrollKey(row, columns);
    FirstAppend(rows, row, columns, key);
    if Keyed(rows, columns, key) {
      FirstHasColumns(rows, columns, measures, key);
      if !Carried(rows, columns, key, m) {
        UncarriedIsZero(rows, columns, key, m);
      }
    } else {
      UncarriedIsZero(rows, columns, key, m);
      NewGroupStarts(row, columns, m);
    }
  }

  ghost predicate SameCell(a: Row, b: Row, c: string) { (c in a <==> c in b) && (c in a ==> a[c] == b[c]) }

  lemma SameRow(a: Row, b: Row)
    requires forall c :: SameCell(a, b, c)
    ensures a == b
  {
    assert forall c :: c in a ==> SameCell(a, b, c);
    assert forall c :: c in b ==> SameCell(a, b, c);
  }

  /** Adding a row to what its group stands at gives what the group should hold. */
  lemma AddedIsPayrollRow(rows: seq<Row>, row: Row, columns: seq<string>, measures: seq<string>, c: string)
    requires AllGroupable(rows, columns, measures) && Groupable(row, columns, measures) && Distinct(measures)
    requires AddMeasures(Standing(rows, row, columns, measures), row, measures).Some?
    ensures SameCell(AddMeasures(Standing(rows, row, columns, measures), row, measures).value,
                     PayrollRow(rows + [row], columns, measures, PayrollKey(row, columns)), c)
  {
    var key, out := PayrollKey(row, columns), Standing(rows, row, columns, measures);
    AddedCell(out, row, measures, c);
    CarriedAppend(rows, row, columns, key, c);
    FirstAppend(rows, row, columns, key);
    if Keyed(rows, columns, key) {
      FirstHasColumns(rows, columns, measures, key);
    } else {
      assert !Carried(rows, columns, key, c);
    }
    if c in measures {
      KeySumAppend(rows, row, columns, key, c);
      StandingFigure(rows, row, columns, measures, c);
    }
  }

  lemma StandingAdds(rows: seq<Row>, row: Row, columns: seq<string>, measures: seq<string>)
    requires AllGroupable(rows, columns, measures) && Groupable(row, columns, measures) && Distinct(measures)
    ensures AddMeasures(Standing(rows, row, columns, measures), row, measures).Some?
  {
    var out := Standing(rows, row, columns, measures);
    forall m | m in measures && m in row
      ensures Reading(out, m).Some? && Reading(row, m).Some?
    {
      StandingReads(rows, row, columns, measures, m);
    }
    AddSucceeds(out, row, measures);
  }

  lemma AddedRow(rows: seq<Row>, row: Row, columns: seq<string>, measures: seq<string>)
    requires AllGroupable(rows, columns, measures) && Groupable(row, columns, measures) && Distinct(measures)
    ensures AddMeasures(Standing(rows, row, columns, measures), row, measures) ==
            Some(PayrollRow(rows + [row], columns, measures, PayrollKey(row, columns)))
  {
    StandingAdds(rows, row, columns, measures);
    var after, goal := AddMeasures(Standing(rows, row, columns, measures), row, measures).value,
                       PayrollRow(rows + [row], columns, measures, PayrollKey(row, columns));
    forall c
      ensures SameCell(after, goal, c)
    {
      AddedIsPayrollRow(rows, row, columns, measures, c);
    }
    SameRow(after, goal);
  }

  /** A row changes no group but its own. */
  lemma OtherRow(rows: seq<Row>, row: Row, columns: seq<string>, measures: seq<string>, key: seq<string>)
    requires PayrollKey(row, columns) != key && Keyed(rows, columns, key)
    ensures PayrollRow(rows + [row], columns, measures, key) == PayrollRow(rows, columns, measures, key)
  {
    FirstAppend(rows, row, columns, key);
    forall c
      ensures Carried(rows + [row], columns, key, c) <==> Carried(rows, columns, key, c)
      ensures KeySum(rows + [row], columns, key, c) == KeySum(rows, columns, key, c)
    {
      CarriedAppend(rows, row, columns, key, c);
      KeySumAppend(rows, row, columns, key, c);
    }
    SameCells(rows + [row], rows, columns, measures, key);
  }

  /** The groups hold what the rows so far amount to. */
  ghost predicate Tabulates(groups: Groups, rows: seq<Row>, columns: seq<string>, measures: seq<string>) {
    && groups.order == PayrollKeys(rows, columns)
    && (forall key :: key in groups.rows <==> Keyed(rows, columns, key))
    && (forall key :: key in groups.rows ==> groups.rows[key] == PayrollRow(rows, columns, measures, key))
  }

  /** Including a row puts its group's new row in place. */
  lemma IncludePuts(groups: Groups, rows: seq<Row>, row: Row, columns: seq<string>, measures: seq<string>)
    requires Tabulates(groups, rows, columns, measures) && AllGroupable(rows, columns, measures)
    requires Groupable(row, columns, measures) && Distinct(measures)
    ensures var key := PayrollKey(row, columns);
            Include(groups, row, columns, measures) ==
              Some(Put(groups, key, PayrollRow(rows + [row], columns, measures, key)))
  {
    var key := PayrollKey(row, columns);
    AddedRow(rows, row, columns, measures);
    assert (if key in groups.rows then groups.rows[key] else DimensionCells(row, columns)) ==
           Standing(rows, row, columns, measures);
  }

  lemma PutOrder(groups: Groups, rows: seq<Row>, row: Row, columns: seq<string>, next: Row)
    requires groups.order == PayrollKeys(rows, columns) && forall key :: key in groups.rows <==>
             Keyed(rows, columns, key)
    ensures Put(groups, PayrollKey(row, columns), next).order == PayrollKeys(rows + [row], columns)
    ensures forall key :: key in Put(groups, PayrollKey(row, columns), next).rows <==> Keyed(rows + [row], columns, key)
  {
    assert (rows + [row])[..|rows|] == rows;
    PayrollKeysMembers(rows, columns, PayrollKey(row, columns));
    forall key
      ensures Keyed(rows + [row], columns, key) <==> Keyed(rows, columns, key) || PayrollKey(row, columns) == key
    {
      KeyedAppend(rows, row, columns, key);
    }
  }

  lemma IncludeHolds(groups: Groups, rows: seq<Row>, row: Row, columns: seq<string>, measures: seq<string>)
    requires Tabulates(groups, rows, columns, measures) && AllGroupable(rows, columns, measures)
    requires Groupable(row, columns, measures) && Distinct(measures)
    ensures Include(groups, row, columns, measures).Some?
    ensures Tabulates(Include(groups, row, columns, measures).value, rows + [row], columns, measures)
  {
    var key := PayrollKey(row, columns);
    IncludePuts(groups, rows, row, columns, measures);
    PutOrder(groups, rows, row, columns, PayrollRow(rows + [row], columns, measures, key));
    var after := Include(groups, row, columns, measures).value;
    forall k | k in after.rows && k != key
      ensures after.rows[k] == PayrollRow(rows + [row], columns, measures, k)
    {
      OtherRow(rows, row, columns, measures, k);
    }
  }

  lemma IncludeRefuses(groups: Groups, row: Row, columns: seq<string>, measures: seq<string>)
    requires !Groupable(row, columns, measures)
    ensures Include(groups, row, columns, measures).None?
  {
    if forall c :: c in columns ==> c in row {
      var m :| m in measures && m in row && Reading(row, m).None?;
      var key := PayrollKey(row, columns);
      AddFails(if key in groups.rows then groups.rows[key] else DimensionCells(row, columns), row, measures, m);
    }
  }

  /** The fold has come to what the rows amount to, or to nothing when one of them cannot be grouped. */
  ghost predicate CameTo(collected: Option<Groups>, rows: seq<Row>, columns: seq<string>, measures: seq<string>) {
    if AllGroupable(rows, columns, measures) then collected.Some? && Tabulates(collected.value, rows, columns, measures)
    else collected.None?
  }

  lemma OneMoreRow(groups: Groups, rows: seq<Row>, row: Row, columns: seq<string>, measures: seq<string>)
    requires Distinct(measures) && AllGroupable(rows, columns, measures) && Tabulates(groups, rows, columns, measures)
    ensures CameTo(Include(groups, row, columns, measures), rows + [row], columns, measures)
  {
    assert (rows + [row])[|rows|] == row;
    if Groupable(row, columns, measures) {
      IncludeHolds(groups, rows, row, columns, measures);
    } else {
      IncludeRefuses(groups, row, columns, measures);
    }
  }

  /** The loops succeed exactly on groupable rows, and then hold each group's own totals. */
  lemma {:induction false} CollectHolds(rows: seq<Row>, columns: seq<string>, measures: seq<string>)
    requires Distinct(measures)
    ensures CameTo(Collect(rows, columns, measures), rows, columns, measures)
  {
    if rows != [] {
      var n := |rows| - 1;
      CollectHolds(rows[..n], columns, measures);
      assert rows == rows[..n] + [rows[n]];
      if AllGroupable(rows[..n], columns, measures) {
        OneMoreRow(Collect(rows[..n], columns, measures).value, rows[..n], rows[n], columns, measures);
      }
    }
  }

  /**
    Payroll grouping is refused exactly when a row lacks a dimension or carries an unreadable
    figure; otherwise it has one row per key, in order, with the dimensions of the group and, for
    each measure a row of the group carries, the sum over exactly the rows of the group.
  */
  lemma PayrollIsGroupSum(rows: seq<Row>, fields: seq<string>)
    ensures PayrollGrouped(rows, fields).Some? <==> AllGroupable(rows, Dedup(fields), PayrollMeasures)
    ensures PayrollGrouped(rows, fields).Some? ==>
              PayrollGrouped(rows, fields).value == PayrollTable(rows, Dedup(fields), PayrollMeasures)
  {
    MeasuresDistinct();
    TableIsLaid(rows, Dedup(fields), PayrollMeasures);
  }

  lemma TableIsLaid(rows: seq<Row>, columns: seq<string>, measures: seq<string>)
    requires Distinct(measures)
    ensures Collect(rows, columns, measures).Some? <==> AllGroupable(rows, columns, measures)
    ensures AllGroupable(rows, columns, measures) ==>
              var groups := Collect(rows, columns, measures).value;
              Laid(groups, Sort(groups.order, TupleLe)) == PayrollTable(rows, columns, measures)
  {
    CollectHolds(rows, columns, measures);
    if AllGroupable(rows, columns, measures) {
      var groups := Collect(rows, columns, measures).value;
      var keys := Sort(groups.order, TupleLe);
      forall i | 0 <= i < |keys|
        ensures keys[i] in groups.rows
      {
        SortMembers(groups.order, i);
        PayrollKeysMembers(rows, columns, keys[i]);
      }
    }
  }

  method AggregatePayrollRows(rows: seq<Row>, fields: seq<string>) returns (r: Result<seq<Row>, PayrollError>)
    ensures r.Ok? <==> AllGroupable(rows, Dedup(fields), PayrollMeasures)
    ensures r.Ok? ==> r.value == PayrollTable(rows, Dedup(fields), PayrollMeasures)
    ensures PayrollGrouped(rows, fields) == if r.Ok? then Some(r.value) else None
  {
    PayrollIsGroupSum(rows, fields);
    var collected := CollectRows(rows, Dedup(fields), PayrollMeasures);
    if collected.Err? {
      return Err(collected.error);
    }
    return Ok(Laid(collected.value, Sort(collected.value.order, TupleLe)));
  }

  // ---------------------------------------------------------------- order of rows does not matter

  predicate Plain(rows: seq<Row>) { forall i, c :: 0 <= i < |rows| && c in rows[i] ==> rows[i][c].Text? }

  /** Rows of one group have the same dimension cells. */
  lemma SameDimensions(a: Row, b: Row, columns: seq<string>, measures: seq<string>)
    requires Groupable(a, columns, measures) && Groupable(b, columns, measures) && ReadAlike(a, b)
    requires (forall c :: c in a ==> a[c].Text?) && (forall c :: c in b ==> b[c].Text?)
    requires PayrollKey(a, columns) == PayrollKey(b, columns)
    ensures forall c :: c in columns ==> Get(a, c) == Get(b, c)
  {
    forall c | c in columns
      ensures Get(a, c) == Get(b, c)
    {
      var i :| 0 <= i < |columns| && columns[i] == c;
      assert PayrollKey(a, columns)[i] == PayrollKey(b, columns)[i];
    }
  }

  lemma CarriedPermutes(xs: seq<Row>, ys: seq<Row>, columns: seq<string>, key: seq<string>, m: string)
    requires multiset(xs) == multiset(ys) && Carried(xs, columns, key, m)
    ensures Carried(ys, columns, key, m)
  {
    var i :| 0 <= i < |xs| && PayrollKey(xs[i], columns) == key && m in xs[i];
    var j := SameMembers(xs, ys, i);
  }

  lemma KeyedPermutes(xs: seq<Row>, ys: seq<Row>, columns: seq<string>, key: seq<string>)
    requires multiset(xs) == multiset(ys) && Keyed(xs, columns, key)
    ensures Keyed(ys, columns, key)
  {
    var i :| 0 <= i < |xs| && PayrollKey(xs[i], columns) == key;
    var j := SameMembers(xs, ys, i);
  }

  lemma GroupablePermutes(xs: seq<Row>, ys: seq<Row>, columns: seq<string>, measures: seq<string>)
    requires multiset(xs) == multiset(ys) && AllGroupable(xs, columns, measures)
    ensures AllGroupable(ys, columns, measures)
  {
    forall i | 0 <= i < |ys|
      ensures Groupable(ys[i], columns, measures)
    {
      var j := SameMembers(ys, xs, i);
    }
  }

  /** The first rows of a group, in two orders, agree on the dimensions. */
  lemma FirstPermutes(xs: seq<Row>, ys: seq<Row>, columns: seq<string>, measures: seq<string>, key: seq<string>)
    requires multiset(xs) == multiset(ys) && AllGroupable(xs, columns, measures) && Keyed(xs, columns, key)
    requires Plain(xs) && Legible(xs)
    ensures forall c :: c in columns ==> Get(First(xs, columns, key), c) == Get(First(ys, columns, key), c)
  {
    KeyedPermutes(xs, ys, columns, key);
    GroupablePermutes(xs, ys, columns, measures);
    FirstHasColumns(xs, columns, measures, key);
    FirstHasColumns(ys, columns, measures, key);
    var a, b := First(xs, columns, key), First(ys, columns, key);
    assert b in multiset(xs);
    var i :| 0 <= i < |xs| && xs[i] == a;
    var j :| 0 <= j < |xs| && xs[j] == b;
    assert ReadAlike(xs[i], xs[j]);
    SameDimensions(a, b, columns, measures);
  }

  lemma PayrollRowPermutes(xs: seq<Row>, ys: seq<Row>, columns: seq<string>, measures: seq<string>, key: seq<string>)
    requires multiset(xs) == multiset(ys) && AllGroupable(xs, columns, measures) && Keyed(xs, columns, key)
    requires Plain(xs) && Legible(xs)
    ensures PayrollRow(xs, columns, measures, key) == PayrollRow(ys, columns, measures, key)
  {
    FirstPermutes(xs, ys, columns, measures, key);
    forall c
      ensures Carried(xs, columns, key, c) <==> Carried(ys, columns, key, c)
      ensures KeySum(xs, columns, key, c) == KeySum(ys, columns, key, c)
    {
      if Carried(xs, columns, key, c) {
        CarriedPermutes(xs, ys, columns, key, c);
      }
      if Carried(ys, columns, key, c) {
        CarriedPermutes(ys, xs, columns, key, c);
      }
      SumPermutes(xs, ys, row => KeyShare(row, columns, key, c));
    }
    SameCells(xs, ys, columns, measures, key);
  }

  lemma SameCells(xs: seq<Row>, ys: seq<Row>, columns: seq<string>, measures: seq<string>, key: seq<string>)
    requires forall c :: Carried(xs, columns, key, c) <==> Carried(ys, columns, key, c)
    requires forall c :: KeySum(xs, columns, key, c) == KeySum(ys, columns, key, c)
    requires forall c :: c in columns ==> Get(First(xs, columns, key), c) == Get(First(ys, columns, key), c)
    ensures PayrollRow(xs, columns, measures, key) == PayrollRow(ys, columns, measures, key)
  {
    forall c | c in columns + measures
      ensures PayrollCell(xs, columns, measures, key, c) == PayrollCell(ys, columns, measures, key, c)
    {
      var a, b := First(xs, columns, key), First(ys, columns, key);
      assert Opening(a, columns, c) == Opening(b, columns, c) by {
        if c in columns {
          assert Reading(a, c) == Reading(b, c);
        }
      }
    }
  }

  lemma {:induction false} PayrollKeysDistinct(rows: seq<Row>, columns: seq<string>)
    ensures forall i, j :: 0 <= i < j < |PayrollKeys(rows, columns)| ==>
            PayrollKeys(rows, columns)[i] != PayrollKeys(rows, columns)[j]
  {
    if rows != [] {
      PayrollKeysDistinct(rows[..|rows| - 1], columns);
    }
  }

  lemma PayrollKeysPermute(xs: seq<Row>, ys: seq<Row>, columns: seq<string>)
    requires multiset(xs) == multiset(ys)
    ensures Sort(PayrollKeys(xs, columns), TupleLe) == Sort(PayrollKeys(ys, columns), TupleLe)
  {
    var a, b := PayrollKeys(xs, columns), PayrollKeys(ys, columns);
    forall key
      ensures key in a <==> key in b
    {
      PayrollKeysMembers(xs, columns, key);
      PayrollKeysMembers(ys, columns, key);
      if key in a {
        KeyedPermutes(xs, ys, columns, key);
      }
      if key in b {
        KeyedPermutes(ys, xs, columns, key);
      }
    }
    PayrollKeysDistinct(xs, columns);
    PayrollKeysDistinct(ys, columns);
    DistinctPermute(a, b);
    SortIsStable(a, b);
  }

  lemma SortIsStable(a: seq<seq<string>>, b: seq<seq<string>>)
    requires multiset(a) == multiset(b)
    ensures Sort(a, TupleLe) == Sort(b, TupleLe)
  {
    SortKeeps(a, TupleLe);
    SortKeeps(b, TupleLe);
    TupleOrder();
    SortSorts(a, TupleLe);
    SortSorts(b, TupleLe);
    SortedIsUnique(Sort(a, TupleLe), Sort(b, TupleLe), TupleLe);
  }

  lemma TablePermutes(xs: seq<Row>, ys: seq<Row>, columns: seq<string>, measures: seq<string>)
    requires multiset(xs) == multiset(ys) && AllGroupable(xs, columns, measures) && Plain(xs) && Legible(xs)
    ensures PayrollTable(xs, columns, measures) == PayrollTable(ys, columns, measures)
  {
    PayrollKeysPermute(xs, ys, columns);
    var keys := Sort(PayrollKeys(xs, columns), TupleLe);
    forall i | 0 <= i < |keys|
      ensures PayrollRow(xs, columns, measures, keys[i]) == PayrollRow(ys, columns, measures, keys[i])
    {
      SortMembers(PayrollKeys(xs, columns), i);
      PayrollKeysMembers(xs, columns, keys[i]);
      PayrollRowPermutes(xs, ys, columns, measures, keys[i]);
    }
  }

  /** Success and output of payroll grouping depend on the multiset of rows only. */
  lemma PayrollIgnoresOrder(xs: seq<Row>, ys: seq<Row>, fields: seq<string>)
    requires multiset(xs) == multiset(ys) && Plain(xs) && Legible(xs)
    ensures PayrollGrouped(xs, fields) == PayrollGrouped(ys, fields)
  {
    PayrollIsGroupSum(xs, fields);
    PayrollIsGroupSum(ys, fields);
    if AllGroupable(xs, Dedup(fields), PayrollMeasures) {
      GroupablePermutes(xs, ys, Dedup(fields), PayrollMeasures);
      TablePermutes(xs, ys, Dedup(fields), PayrollMeasures);
    } else if AllGroupable(ys, Dedup(fields), PayrollMeasures) {
      GroupablePermutes(ys, xs, Dedup(fields), PayrollMeasures);
    }
  }
}
