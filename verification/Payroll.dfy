/**
  Payroll grouping: detail rows are added up per requested dimensions, each measure only where a
  row carries it.
*/
module PayrollView {
  import opened Wrappers
  import opened Sorting
  import opened TextOrder
  import opened Table
  import opened Progress
  import opened Footer

  const PayrollMeasures: seq<string> := ["je", "sl", "sssl", "zpsl", "bs", "wgs", "wts", "fhsl"]

  datatype PayrollError = MissingColumns | InvalidNumber

  datatype Groups = Groups(rows: map<seq<string>, Row>, order: seq<seq<string>>)

  function PayrollKey(row: Row, columns: seq<string>): seq<string> {
    seq(|columns|, i requires 0 <= i < |columns| => TextOf(Get(row, columns[i])))
  }

  /** The dimension cells of a new group: blanks for missing values. */
  function DimensionCells(row: Row, columns: seq<string>): Row {
    map c | c in columns :: if IsBlank(Get(row, c)) then Blank else Get(row, c)
  }

  /** Add one row to its group, measure by measure; nothing when a figure cannot be read. */
  function AddMeasures(out: Row, row: Row, measures: seq<string>): Option<Row> {
    if measures == [] then Some(out)
    else
      match AddMeasures(out, row, measures[..|measures| - 1])
      case None => None
      case Some(sofar) =>
        var m := measures[|measures| - 1];
        if m !in row then Some(sofar)
        else
          match (Reading(sofar, m), Reading(row, m))
          case (Some(a), Some(b)) => Some(sofar[m := Amount(a + b)])
          case _ => None
  }

  function Include(groups: Groups, row: Row, columns: seq<string>, measures: seq<string>): Option<Groups> {
    if exists c :: c in columns && c !in row then None
    else
      var key := PayrollKey(row, columns);
      var out := if key in groups.rows then groups.rows[key] else DimensionCells(row, columns);
      match AddMeasures(out, row, measures)
      case None => None
      case Some(next) =>
        Some(Groups(groups.rows[key := next], if key in groups.rows then groups.order else groups.order + [key]))
  }

  function Collect(rows: seq<Row>, columns: seq<string>, measures: seq<string>): Option<Groups> {
    if rows == [] then Some(Groups(map[], []))
    else
      match Collect(rows[..|rows| - 1], columns, measures)
      case None => None
      case Some(groups) => Include(groups, rows[|rows| - 1], columns, measures)
  }

  function Laid(groups: Groups, keys: seq<seq<string>>): seq<Row> {
    seq(|keys|, i requires 0 <= i < |keys| => if keys[i] in groups.rows then groups.rows[keys[i]] else map[])
  }

  function PayrollGrouped(rows: seq<Row>, fields: seq<string>): Option<seq<Row>> {
    match Collect(rows, Dedup(fields), PayrollMeasures)
    case None => None
    case Some(groups) => Some(Laid(groups, Sort(groups.order, TupleLe)))
  }

  // ---------------------------------------------------------------- the loops

  method AddRow(out: Row, row: Row, measures: seq<string>) returns (r: Option<Row>)
    ensures r == AddMeasures(out, row, measures)
  {
    var current := out;
    for i := 0 to |measures|
      invariant AddMeasures(out, row, measures[..i]) == Some(current)
    {
      var m := measures[i];
      assert measures[..i + 1][..i] == measures[..i];
      if m in row {
        if Reading(current, m).None? || Reading(row, m).None? {
          Stuck(out, row, measures, i + 1);
          return None;
        }
        current := current[m := Amount(Reading(current, m).value + Reading(row, m).value)];
      }
    }
    assert measures[..|measures|] == measures;
    return Some(current);
  }

  lemma {:induction false} Stuck(out: Row, row: Row, measures: seq<string>, i: nat)
    requires i <= |measures| && AddMeasures(out, row, measures[..i]).None?
    ensures AddMeasures(out, row, measures).None?
    decreases |measures|
  {
    if i == |measures| {
      assert measures[..i] == measures;
    } else {
      assert measures[..|measures| - 1][..i] == measures[..i];
      Stuck(out, row, measures[..|measures| - 1], i);
    }
  }

  lemma {:induction false} CollectStuck(rows: seq<Row>, columns: seq<string>, measures: seq<string>, i: nat)
    requires i <= |rows| && Collect(rows[..i], columns, measures).None?
    ensures Collect(rows, columns, measures).None?
    decreases |rows|
  {
    if i == |rows| {
      assert rows[..i] == rows;
    } else {
      assert rows[..|rows| - 1][..i] == rows[..i];
      CollectStuck(rows[..|rows| - 1], columns, measures, i);
    }
  }

  method CollectRows(rows: seq<Row>, columns: seq<string>, measures: seq<string>)
    returns (r: Result<Groups, PayrollError>)
    ensures r.Ok? <==> Collect(rows, columns, measures).Some?
    ensures r.Ok? ==> r.value == Collect(rows, columns, measures).value
  {
    var grouped: map<seq<string>, Row> := map[];
    var order: seq<seq<string>> := [];
    for i := 0 to |rows|
      invariant Collect(rows[..i], columns, measures) == Some(Groups(grouped, order))
    {
      var row := rows[i];
      assert rows[..i + 1][..i] == rows[..i];
      if exists c :: c in columns && c !in row {
        CollectStuck(rows, columns, measures, i + 1);
        return Err(MissingColumns);
      }
      var key := PayrollKey(row, columns);
      var out := if key in grouped then grouped[key] else DimensionCells(row, columns);
      var next := AddRow(out, row, measures);
      if next.None? {
        CollectStuck(rows, columns, measures, i + 1);
        return Err(InvalidNumber);
      }
      if key !in grouped {
        order := order + [key];
      }
      grouped := grouped[key := next.value];
    }
    assert rows[..|rows|] == rows;
    return Ok(Groups(grouped, order));
  }

  // ---------------------------------------------------------------- conservation

  /** A cell of a group after a row was added: the sum where the row carries the measure. */
  ghost predicate Bumped(out: Row, row: Row, after: Row, m: string) {
    m in after && Reading(out, m).Some? && Reading(row, m).Some? && after[m] == Amount(Figure(out, m) + Figure(row, m))
  }

  ghost predicate Untouched(out: Row, after: Row, m: string) {
    (m in after <==> m in out) && Get(after, m) == Get(out, m)
  }

  lemma {:induction false} AddKeeps(out: Row, row: Row, measures: seq<string>, m: string)
    requires AddMeasures(out, row, measures).Some? && (m !in measures || m !in row)
    ensures Untouched(out, AddMeasures(out, row, measures).value, m)
  {
    if measures != [] {
      AddKeeps(out, row, measures[..|measures| - 1], m);
    }
  }

  lemma {:induction false} AddBumps(out: Row, row: Row, measures: seq<string>, k: nat)
    requires AddMeasures(out, row, measures).Some? && k < |measures| && measures[k] in row
    requires forall i, j :: 0 <= i < j < |measures| ==> measures[i] != measures[j]
    ensures Bumped(out, row, AddMeasures(out, row, measures).value, measures[k])
  {
    var n := |measures| - 1;
    if k < n {
      AddBumps(out, row, measures[..n], k);
      assert measures[n] != measures[k];
    } else {
      assert forall i :: 0 <= i < n ==> measures[..n][i] != measures[n];
      AddKeeps(out, row, measures[..n], measures[n]);
    }
  }

  predicate Distinct(xs: seq<string>) { forall i, j :: 0 <= i < j < |xs| ==> xs[i] != xs[j] }

  lemma MeasuresDistinct()
    ensures Distinct(PayrollMeasures)
  {
  }

  /** What adding one row does to one measure of its group. */
  lemma AddedFigure(out: Row, row: Row, measures: seq<string>, m: string)
    requires AddMeasures(out, row, measures).Some? && m in measures && Distinct(measures)
    ensures var after := AddMeasures(out, row, measures).value;
            && Figure(after, m) == Figure(out, m) + Figure(row, m)
            && (m in after <==> m in out || m in row)
            && (m in row ==> Reading(row, m).Some?)
            && (Reading(out, m).Some? ==> Reading(after, m).Some?)
  {
    if m in row {
      var k :| 0 <= k < |measures| && measures[k] == m;
      AddBumps(out, row, measures, k);
    } else {
      AddKeeps(out, row, measures, m);
      assert Get(row, m) == Blank;
    }
  }

  /** The figures of one measure over the groups, added up. */
  function OverGroups(rows: map<seq<string>, Row>, keys: seq<seq<string>>, m: string): real {
    if keys == [] then 0.0
    else
      var n := |keys| - 1;
      OverGroups(rows, keys[..n], m) + (if keys[n] in rows then Figure(rows[keys[n]], m) else 0.0)
  }

  lemma {:induction false} OverGroupsUpdate(rows: map<seq<string>, Row>, keys: seq<seq<string>>, key: seq<string>,
                                            next: Row, m: string)
    requires forall i, j :: 0 <= i < j < |keys| ==> keys[i] != keys[j]
    ensures OverGroups(rows[key := next], keys, m) ==
            OverGroups(rows, keys, m) +
              (if key in keys then Figure(next, m) - (if key in rows then Figure(rows[key], m) else 0.0) else 0.0)
  {
    if keys != [] {
      var n := |keys| - 1;
      OverGroupsUpdate(rows, keys[..n], key, next, m);
      assert keys == keys[..n] + [keys[n]] && keys[n] !in keys[..n];
    }
  }

  ghost predicate Shaped(groups: Groups) {
    && (forall key :: key in groups.rows <==> key in groups.order)
    && (forall i, j :: 0 <= i < j < |groups.order| ==> groups.order[i] != groups.order[j])
  }

  ghost predicate ShowsIn(groups: map<seq<string>, Row>, m: string) {
    exists key :: key in groups && m in groups[key]
  }

  /** The row is the first of its group. */
  predicate Opens(rows: seq<Row>, row: Row, columns: seq<string>) {
    forall i :: 0 <= i < |rows| ==> PayrollKey(rows[i], columns) != PayrollKey(row, columns)
  }

  /** The value of one column in the first row of each group, added up; nothing unless the column is a dimension. */
  function Openings(rows: seq<Row>, columns: seq<string>, m: string): real {
    if rows == [] then 0.0
    else
      var n := |rows| - 1;
      Openings(rows[..n], columns, m) +
        (if Opens(rows[..n], rows[n], columns) && m in columns then Figure(rows[n], m) else 0.0)
  }

  ghost predicate AddsUp(groups: Groups, rows: seq<Row>, columns: seq<string>, m: string) {
    OverGroups(groups.rows, groups.order, m) == Sum(rows, row => Figure(row, m)) + Openings(rows, columns, m)
  }

  ghost predicate KeysSeen(groups: map<seq<string>, Row>, rows: seq<Row>, columns: seq<string>) {
    forall key :: key in groups <==> exists i :: 0 <= i < |rows| && PayrollKey(rows[i], columns) == key
  }

  ghost predicate GroupsReadable(groups: map<seq<string>, Row>, m: string) {
    forall key :: key in groups ==> Reading(groups[key], m).Some?
  }

  /** What the loop keeps about one measure. */
  ghost predicate Conserves(groups: Groups, rows: seq<Row>, columns: seq<string>, m: string) {
    && Shaped(groups) && (rows == [] <==> groups.order == [])
    && AddsUp(groups, rows, columns, m)
    && Readable(rows, m) && GroupsReadable(groups.rows, m)
    && (Present(rows, m) <==> ShowsIn(groups.rows, m))
  }

  /** A new group starts with the row's own value where the measure is a dimension, and else with nothing. */
  lemma NewGroupStarts(row: Row, columns: seq<string>, m: string)
    requires forall c :: c in columns ==> c in row
    ensures m in DimensionCells(row, columns) ==> m in row
    ensures Figure(DimensionCells(row, columns), m) == if m in columns then Figure(row, m) else 0.0
  {
  }

  /** A group's row after one more detail row, as far as one measure is concerned. */
  ghost predicate Grows(out: Row, row: Row, next: Row, m: string) {
    && Figure(next, m) == Figure(out, m) + Figure(row, m)
    && (m in next <==> m in out || m in row)
    && Reading(row, m).Some? && Reading(next, m).Some?
  }

  function Put(groups: Groups, key: seq<string>, next: Row): Groups {
    Groups(groups.rows[key := next], if key in groups.rows then groups.order else groups.order + [key])
  }

  lemma PutSum(groups: Groups, key: seq<string>, out: Row, next: Row, m: string)
    requires Shaped(groups) && (key in groups.rows ==> groups.rows[key] == out)
    ensures OverGroups(Put(groups, key, next).rows, Put(groups, key, next).order, m) ==
            OverGroups(groups.rows, groups.order, m) +
              Figure(next, m) - (if key in groups.rows then Figure(out, m) else 0.0)
  {
    OverGroupsUpdate(groups.rows, groups.order, key, next, m);
    if key !in groups.rows {
      assert (groups.order + [key])[..|groups.order|] == groups.order;
    }
  }

  lemma PutShaped(groups: Groups, key: seq<string>, next: Row)
    requires Shaped(groups)
    ensures Shaped(Put(groups, key, next)) && Put(groups, key, next).order != []
  {
  }

  lemma ShowsUpdate(groups: map<seq<string>, Row>, key: seq<string>, out: Row, next: Row, m: string, carried: bool)
    requires key in groups ==> groups[key] == out
    requires key !in groups && m in out ==> carried
    requires m in next <==> m in out || carried
    ensures ShowsIn(groups[key := next], m) <==> ShowsIn(groups, m) || carried
  {
    var after := groups[key := next];
    if ShowsIn(groups, m) {
      var k :| k in groups && m in groups[k];
      assert k in after && m in after[k];
    }
    if carried {
      assert key in after && m in after[key];
    }
    if ShowsIn(after, m) && !carried {
      var k :| k in after && m in after[k];
      assert k in groups && m in groups[k];
    }
  }

  lemma ReadableAppend(rows: seq<Row>, row: Row, m: string)
    requires Readable(rows, m) && Reading(row, m).Some?
    ensures Readable(rows + [row], m)
  {
  }

  lemma OpeningsAppend(rows: seq<Row>, row: Row, columns: seq<string>, m: string)
    ensures Openings(rows + [row], columns, m) ==
            Openings(rows, columns, m) + (if Opens(rows, row, columns) && m in columns then Figure(row, m) else 0.0)
  {
    assert (rows + [row])[..|rows|] == rows;
  }

  lemma PutAddsUp(groups: Groups, rows: seq<Row>, row: Row, columns: seq<string>, out: Row, next: Row, m: string)
    requires Shaped(groups) && KeysSeen(groups.rows, rows, columns) && AddsUp(groups, rows, columns, m)
    requires Figure(next, m) == Figure(out, m) + Figure(row, m)
    requires var key := PayrollKey(row, columns);
             if key in groups.rows then groups.rows[key] == out
               else Figure(out, m) == if m in columns then Figure(row, m) else 0.0
    ensures AddsUp(Put(groups, PayrollKey(row, columns), next), rows + [row], columns, m)
  {
    PutSum(groups, PayrollKey(row, columns), out, next, m);
    FigureAppend(rows, row, m);
    OpeningsAppend(rows, row, columns, m);
  }

  lemma PutSeen(groups: Groups, rows: seq<Row>, row: Row, columns: seq<string>, next: Row)
    requires KeysSeen(groups.rows, rows, columns)
    ensures KeysSeen(Put(groups, PayrollKey(row, columns), next).rows, rows + [row], columns)
  {
    var after, all := Put(groups, PayrollKey(row, columns), next).rows, rows + [row];
    forall key
      ensures key in after <==> exists i :: 0 <= i < |all| && PayrollKey(all[i], columns) == key
    {
      if key in groups.rows {
        var i :| 0 <= i < |rows| && PayrollKey(rows[i], columns) == key;
        assert all[i] == rows[i];
      }
      assert all[|rows|] == row;
      if i :| 0 <= i < |all| && PayrollKey(all[i], columns) == key {
        assert i < |rows| ==> all[i] == rows[i];
      }
    }
  }

  lemma PutShows(groups: Groups, rows: seq<Row>, row: Row, key: seq<string>, out: Row, next: Row, m: string)
    requires Present(rows, m) <==> ShowsIn(groups.rows, m)
    requires if key in groups.rows then groups.rows[key] == out else m in out ==> m in row
    requires m in next <==> m in out || m in row
    ensures Present(rows + [row], m) <==> ShowsIn(Put(groups, key, next).rows, m)
  {
    ShowsUpdate(groups.rows, key, out, next, m, m in row);
    PresentAppend(rows, row, m);
  }

  lemma PutConserves(groups: Groups, rows: seq<Row>, row: Row, columns: seq<string>, out: Row, next: Row, m: string)
    requires Conserves(groups, rows, columns, m) && KeysSeen(groups.rows, rows, columns) && Grows(out, row, next, m)
    requires var key := PayrollKey(row, columns);
             if key in groups.rows then groups.rows[key] == out
             else (m in out ==> m in row) && Figure(out, m) == if m in columns then Figure(row, m) else 0.0
    ensures Conserves(Put(groups, PayrollKey(row, columns), next), rows + [row], columns, m)
  {
    var key := PayrollKey(row, columns);
    PutShaped(groups, key, next);
    PutAddsUp(groups, rows, row, columns, out, next, m);
    ReadableAppend(rows, row, m);
    PutReadable(groups, key, next, m);
    PutShows(groups, rows, row, key, out, next, m);
    assert rows + [row] != [];
  }

  lemma PutReadable(groups: Groups, key: seq<string>, next: Row, m: string)
    requires GroupsReadable(groups.rows, m) && Reading(next, m).Some?
    ensures GroupsReadable(Put(groups, key, next).rows, m)
  {
  }

  lemma IncludeConserves(groups: Groups, rows: seq<Row>, row: Row, columns: seq<string>, measures: seq<string>,
                         m: string)
    requires Conserves(groups, rows, columns, m) && KeysSeen(groups.rows, rows, columns) && m in measures &&
             Distinct(measures)
    requires Include(groups, row, columns, measures).Some?
    ensures Conserves(Include(groups, row, columns, measures).value, rows + [row], columns, m)
  {
    var key := PayrollKey(row, columns);
    var out := if key in groups.rows then groups.rows[key] else DimensionCells(row, columns);
    NewGroupStarts(row, columns, m);
    AddedFigure(out, row, measures, m);
    var next := AddMeasures(out, row, measures).value;
    assert m !in row ==> Reading(row, m) == Some(0.0);
    if m !in row {
      assert Reading(out, m).Some?;
    }
    assert Grows(out, row, next, m);
    assert Include(groups, row, columns, measures) == Some(Put(groups, key, next));
    PutConserves(groups, rows, row, columns, out, next, m);
  }

  lemma PresentAppend(rows: seq<Row>, row: Row, m: string)
    ensures Present(rows + [row], m) <==> Present(rows, m) || m in row
  {
    if Present(rows, m) {
      var i :| 0 <= i < |rows| && m in rows[i];
      assert m in (rows + [row])[i];
    }
    if m in row {
      assert m in (rows + [row])[|rows|];
    }
  }

  /**
    The groups add up to the detail, plus the value of the first row of each group where the
    measure is itself a dimension.
  */
  lemma {:induction false} CollectConserves(rows: seq<Row>, columns: seq<string>, measures: seq<string>, m: string)
    requires Collect(rows, columns, measures).Some? && m in measures && Distinct(measures)
    ensures Conserves(Collect(rows, columns, measures).value, rows, columns, m)
  {
    if rows == [] {
      NothingCollected(columns, m);
    } else {
      var n := |rows| - 1;
      CollectConserves(rows[..n], columns, measures, m);
      CollectSeen(rows[..n], columns, measures);
      IncludeConserves(Collect(rows[..n], columns, measures).value, rows[..n], rows[n], columns, measures, m);
      assert rows == rows[..n] + [rows[n]];
    }
  }

  /** The groups are the keys of the rows. */
  lemma {:induction false} CollectSeen(rows: seq<Row>, columns: seq<string>, measures: seq<string>)
    requires Collect(rows, columns, measures).Some?
    ensures KeysSeen(Collect(rows, columns, measures).value.rows, rows, columns)
  {
    if rows != [] {
      var n := |rows| - 1;
      CollectSeen(rows[..n], columns, measures);
      var groups := Collect(rows[..n], columns, measures).value;
      var after := Include(groups, rows[n], columns, measures).value;
      PutSeen(groups, rows[..n], rows[n], columns, after.rows[PayrollKey(rows[n], columns)]);
      assert rows == rows[..n] + [rows[n]];
    }
  }

  lemma NothingCollected(columns: seq<string>, m: string)
    ensures Conserves(Groups(map[], []), [], columns, m)
  {
  }

  // ---------------------------------------------------------------- footers and grouping

  lemma LaidSum(groups: Groups, rows: seq<Row>, columns: seq<string>, keys: seq<seq<string>>, m: string)
    requires Conserves(groups, rows, columns, m)
    requires forall i :: 0 <= i < |keys| ==> keys[i] in groups.rows
    ensures ColumnSum(Laid(groups, keys), m) == Some(Plus(KeyFigures(groups, keys, m)))
  {
    FiguresAdd(Laid(groups, keys), m, KeyFigures(groups, keys, m));
  }

  function KeyFigures(groups: Groups, keys: seq<seq<string>>, m: string): seq<real> {
    seq(|keys|, i requires 0 <= i < |keys| => if keys[i] in groups.rows then Figure(groups.rows[keys[i]], m) else 0.0)
  }

  lemma {:induction false} PlusConcat(a: seq<real>, b: seq<real>)
    ensures Plus(a + b) == Plus(a) + Plus(b)
  {
    if a == [] {
      assert a + b == b;
    } else {
      PlusConcat(a[1..], b);
      assert (a + b)[1..] == a[1..] + b;
    }
  }

  lemma KeyFiguresConcat(a: seq<seq<string>>, b: seq<seq<string>>, groups: Groups, m: string)
    ensures Plus(KeyFigures(groups, a + b, m)) == Plus(KeyFigures(groups, a, m)) + Plus(KeyFigures(groups, b, m))
  {
    assert KeyFigures(groups, a + b, m) == KeyFigures(groups, a, m) + KeyFigures(groups, b, m);
    PlusConcat(KeyFigures(groups, a, m), KeyFigures(groups, b, m));
  }

  lemma {:induction false} PlusPermutes(a: seq<seq<string>>, b: seq<seq<string>>, groups: Groups, m: string)
    requires multiset(a) == multiset(b)
    ensures Plus(KeyFigures(groups, a, m)) == Plus(KeyFigures(groups, b, m))
  {
    if a == [] {
      assert |multiset(b)| == |b| == 0;
    } else {
      var j := FindHead(a, b);
      var before, after, head := b[..j], b[j + 1..], [a[0]];
      assert a == head + a[1..] && b == before + (head + after);
      PlusPermutes(a[1..], before + after, groups, m);
      KeyFiguresConcat(head, a[1..], groups, m);
      KeyFiguresConcat(before, after, groups, m);
      KeyFiguresConcat(head, after, groups, m);
      KeyFiguresConcat(before, head + after, groups, m);
    }
  }

  lemma {:induction false} OverGroupsIsPlus(groups: Groups, keys: seq<seq<string>>, m: string)
    ensures OverGroups(groups.rows, keys, m) == Plus(KeyFigures(groups, keys, m))
  {
    if keys != [] {
      var n := |keys| - 1;
      OverGroupsIsPlus(groups, keys[..n], m);
      var all := KeyFigures(groups, keys, m);
      assert all == KeyFigures(groups, keys[..n], m) + [all[n]];
      PlusConcat(KeyFigures(groups, keys[..n], m), [all[n]]);
      assert [all[n]][1..] == [];
      assert Plus([all[n]]) == all[n] + Plus([]);
    }
  }

  lemma SortedKeysHeld(groups: Groups)
    requires Shaped(groups)
    ensures multiset(Sort(groups.order, TupleLe)) == multiset(groups.order)
    ensures forall i :: 0 <= i < |Sort(groups.order, TupleLe)| ==> Sort(groups.order, TupleLe)[i] in groups.rows
  {
    var keys := Sort(groups.order, TupleLe);
    SortKeeps(groups.order, TupleLe);
    forall i | 0 <= i < |keys|
      ensures keys[i] in groups.rows
    {
      assert keys[i] in multiset(groups.order);
    }
  }

  lemma LaidColumn(groups: Groups, rows: seq<Row>, columns: seq<string>, keys: seq<seq<string>>, m: string)
    requires Conserves(groups, rows, columns, m) && multiset(keys) == multiset(groups.order)
    requires forall i :: 0 <= i < |keys| ==> keys[i] in groups.rows
    ensures ColumnSum(rows, m).Some? &&
            ColumnSum(Laid(groups, keys), m) == Some(ColumnSum(rows, m).value + Openings(rows, columns, m))
  {
    LaidSum(groups, rows, columns, keys, m);
    PlusPermutes(keys, groups.order, groups, m);
    OverGroupsIsPlus(groups, groups.order, m);
  }

  /** One column sums and shows as in the other rows, but for a difference of the sums. */
  ghost predicate ShiftsBy(laid: seq<Row>, rows: seq<Row>, m: string, shift: real) {
    && ColumnSum(rows, m).Some? && ColumnSum(laid, m) == Some(ColumnSum(rows, m).value + shift)
    && (Present(laid, m) <==> Present(rows, m)) && (laid == [] <==> rows == [])
  }

  lemma ShiftedTotal(laid: seq<Row>, rows: seq<Row>, m: string, shift: real)
    requires m != "wcl" && ShiftsBy(laid, rows, m, shift)
    requires rows != [] && !Present(rows, m) ==> shift == 0.0
    ensures TotalFor(laid, m + "_total") == TotalFor(rows, m + "_total") <==> shift == 0.0
  {
    TotalKeyColumn(m);
  }

  lemma LaidShifts(groups: Groups, rows: seq<Row>, columns: seq<string>, m: string)
    requires Conserves(groups, rows, columns, m)
    ensures ShiftsBy(Laid(groups, Sort(groups.order, TupleLe)), rows, m, Openings(rows, columns, m))
  {
    var keys := Sort(groups.order, TupleLe);
    SortedKeysHeld(groups);
    LaidColumn(groups, rows, columns, keys, m);
    LaidPresent(groups, rows, columns, keys, m);
  }

  lemma AbsentOpensNothing(rows: seq<Row>, columns: seq<string>, measures: seq<string>, m: string)
    requires Collect(rows, columns, measures).Some? && rows != [] && !Present(rows, m)
    ensures Openings(rows, columns, m) == 0.0
  {
    if m in columns {
      DimensionsPresent(rows, columns, measures, m);
    } else {
      NoOpenings(rows, columns, m);
    }
  }

  /** Rows that lack a column cannot be grouped by it. */
  lemma {:induction false} DimensionsPresent(rows: seq<Row>, columns: seq<string>, measures: seq<string>, m: string)
    requires Collect(rows, columns, measures).Some? && m in columns && rows != []
    ensures Present(rows, m)
  {
    assert m in rows[|rows| - 1];
  }

  lemma {:induction false} NoOpenings(rows: seq<Row>, columns: seq<string>, m: string)
    requires m !in columns
    ensures Openings(rows, columns, m) == 0.0
  {
    if rows != [] {
      NoOpenings(rows[..|rows| - 1], columns, m);
    }
  }

  lemma CollectedFooter(rows: seq<Row>, columns: seq<string>, measures: seq<string>, m: string)
    requires Collect(rows, columns, measures).Some? && m in measures && Distinct(measures) && m != "wcl"
    ensures var groups := Collect(rows, columns, measures).value;
            TotalFor(Laid(groups, Sort(groups.order, TupleLe)), m + "_total") == TotalFor(rows, m + "_total") <==>
            Openings(rows, columns, m) == 0.0
  {
    CollectConserves(rows, columns, measures, m);
    var groups := Collect(rows, columns, measures).value;
    LaidShifts(groups, rows, columns, m);
    if rows != [] && !Present(rows, m) {
      AbsentOpensNothing(rows, columns, measures, m);
    }
    ShiftedTotal(Laid(groups, Sort(groups.order, TupleLe)), rows, m, Openings(rows, columns, m));
  }

  lemma NoRatioAmongMeasures()
    ensures "wcl" !in PayrollMeasures
  {
  }

  /**
    Grouping keeps a measure's footer if and only if the values it takes in the first rows of the
    groups, when it is itself a dimension, add up to nothing; they do if it is not a dimension.
  */
  lemma PayrollKeepsFooter(rows: seq<Row>, fields: seq<string>, m: string)
    requires m in PayrollMeasures && PayrollGrouped(rows, fields).Some?
    ensures TotalFor(PayrollGrouped(rows, fields).value, m + "_total") == TotalFor(rows, m + "_total") <==>
            Openings(rows, Dedup(fields), m) == 0.0
    ensures m !in Dedup(fields) ==> Openings(rows, Dedup(fields), m) == 0.0
  {
    MeasuresDistinct();
    NoRatioAmongMeasures();
    CollectedFooter(rows, Dedup(fields), PayrollMeasures, m);
    if m !in Dedup(fields) {
      NoOpenings(rows, Dedup(fields), m);
    }
  }

  lemma LaidPresent(groups: Groups, rows: seq<Row>, columns: seq<string>, keys: seq<seq<string>>, m: string)
    requires Conserves(groups, rows, columns, m) && multiset(keys) == multiset(groups.order)
    ensures Present(Laid(groups, keys), m) <==> Present(rows, m)
    ensures Laid(groups, keys) == [] <==> rows == []
  {
    assert |multiset(keys)| == |keys| && |multiset(groups.order)| == |groups.order|;
    if Present(Laid(groups, keys), m) {
      var i :| 0 <= i < |keys| && m in Laid(groups, keys)[i];
      assert keys[i] in groups.rows && m in groups.rows[keys[i]];
    }
    if ShowsIn(groups.rows, m) {
      var key :| key in groups.rows && m in groups.rows[key];
      assert key in multiset(keys);
      var i :| 0 <= i < |keys| && keys[i] == key;
      assert m in Laid(groups, keys)[i];
    }
  }

  function TwoPieces(): Row { map["sl" := Text("2", Some(2.0), None, None)] }

  function FourPieces(): Row { map["sl" := Amount(4.0)] }

  lemma PiecesDouble(row: Row, measures: seq<string>)
    requires row == TwoPieces() && measures == PayrollMeasures
    ensures AddMeasures(row, row, measures) == Some(FourPieces())
  {
    assert measures[..2][..1] == measures[..1] && measures[..1][..0] == [];
    assert measures[0] == "je" && measures[1] == "sl" && "je" !in row;
    assert AddMeasures(row, row, measures[..1]) == Some(row);
    assert Reading(row, "sl") == Some(2.0);
    assert AddMeasures(row, row, measures[..2]) == Some(row["sl" := Amount(2.0 + 2.0)]);
    assert row["sl" := Amount(2.0 + 2.0)] == FourPieces();
    OthersAbsent(row, row, FourPieces(), 2);
    assert measures[..|measures|] == measures;
  }

  lemma OneGroup(row: Row, columns: seq<string>, measures: seq<string>, after: Row)
    requires forall c :: c in columns ==> c in row
    requires AddMeasures(DimensionCells(row, columns), row, measures) == Some(after)
    ensures var key := PayrollKey(row, columns);
            Collect([row], columns, measures) == Some(Groups(map[key := after], [key]))
  {
    var key := PayrollKey(row, columns);
    assert [row][..0] == [];
    assert Include(Groups(map[], []), row, columns, measures) == Some(Groups(map[key := after], [key])) by {
      assert map[][key := after] == map[key := after] && [] + [key] == [key];
    }
  }

  /**
    Grouping by a measure is not guarded against, and counts the dimension value once more: a
    single row of two pieces, grouped by its pieces, reports four.
  */
  lemma MeasureAsDimensionDoubles()
    ensures PayrollGrouped([TwoPieces()], ["sl"]) == Some([FourPieces()])
  {
    var row, columns, measures := TwoPieces(), ["sl"], PayrollMeasures;
    assert columns[..0] == [] && Dedup(columns) == columns;
    assert DimensionCells(row, columns) == row;
    PiecesDouble(row, measures);
    OneGroup(row, columns, measures, FourPieces());
    var key := PayrollKey(row, columns);
    assert Sort([key], TupleLe) == [key] by {
      assert [key][1..] == [];
    }
    assert Laid(Groups(map[key := FourPieces()], [key]), [key]) == [FourPieces()];
  }

  lemma {:induction false} OthersAbsent(start: Row, row: Row, sofar: Row, n: nat)
    requires 2 <= n <= |PayrollMeasures| && row == TwoPieces()
    requires AddMeasures(start, row, PayrollMeasures[..n]) == Some(sofar)
    ensures AddMeasures(start, row, PayrollMeasures[..|PayrollMeasures|]) == Some(sofar)
    decreases |PayrollMeasures| - n
  {
    if n < |PayrollMeasures| {
      assert PayrollMeasures[..n + 1][..n] == PayrollMeasures[..n];
      assert PayrollMeasures[n] !in row;
      OthersAbsent(start, row, sofar, n + 1);
    }
  }
}
