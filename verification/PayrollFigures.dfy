/**
  What a grouping of payroll rows answers, read off the detail: when it is refused, what the row of
  each group holds, and in which order the groups come.
*/
module PayrollFigures {
  import opened Wrappers
  import opened Sorting
  import opened TextOrder
  import opened Table
  import opened RawRows
  import opened Progress
  import opened ProgressGroups
  import opened Footer
  import opened FooterFigures
  import opened PayrollView
  import opened PayrollGroups

  const Measured: set<string> := {"je", "sl", "sssl", "zpsl", "bs", "wgs", "wts", "fhsl"}

  predicate SameDimensions(a: Row, b: Row, fields: seq<string>) {
    forall c :: c in fields ==> Written(a, c) == Written(b, c)
  }

  /** The row has every dimension, and every figure it carries is a number or blank. */
  predicate Complete(row: Row, fields: seq<string>) {
    (forall c :: c in fields ==> c in row) && forall m :: m in Measured ==> Countable(row, m)
  }

  /** The figures of the rows with the same dimensions, added up. */
  function AddedOver(rows: seq<Row>, like: Row, fields: seq<string>, column: string): real {
    if rows == [] then 0.0
    else
      AddedOver(rows[1..], like, fields, column) +
        (if SameDimensions(rows[0], like, fields) then Worth(rows[0], column) else 0.0)
  }

  ghost predicate CarriedAlike(rows: seq<Row>, like: Row, fields: seq<string>, column: string) {
    exists row :: row in rows && SameDimensions(row, like, fields) && column in row
  }

  /** The first of the rows with its dimensions. */
  ghost predicate FirstOfGroup(rows: seq<Row>, i: nat, fields: seq<string>)
    requires i < |rows|
  {
    forall j :: 0 <= j < i ==> !SameDimensions(rows[j], rows[i], fields)
  }

  /**
    The row of a group: the dimensions of its first row, and each measure that a row of the group
    carries, added up over the group; a measure grouped by starts from the first row's own figure.
  */
  ghost predicate GroupRowOf(out: Row, rows: seq<Row>, i: nat, fields: seq<string>)
    requires i < |rows|
  {
    forall c :: GroupCellOf(out, rows, i, fields, c)
  }

  ghost predicate GroupCellOf(out: Row, rows: seq<Row>, i: nat, fields: seq<string>, c: string)
    requires i < |rows|
  {
    if c in Measured && CarriedAlike(rows, rows[i], fields, c) then
      && c in out
      && out[c] == Amount(AddedOver(rows, rows[i], fields, c) + (if c in fields then Worth(rows[i], c) else 0.0))
    else if c in fields then c in out && Written(out, c) == Written(rows[i], c)
    else c !in out
  }

  /** In the first field, as they were asked for, in which the rows differ, the one is before the other. */
  ghost predicate Precedes(a: Row, b: Row, fields: seq<string>) {
    exists n :: 0 <= n < |fields| && DiffersAt(a, b, fields, n)
  }

  ghost predicate DiffersAt(a: Row, b: Row, fields: seq<string>, n: nat)
    requires n < |fields|
  {
    && Before(Written(a, fields[n]), Written(b, fields[n]))
    && forall k :: 0 <= k < n ==> Written(a, fields[k]) == Written(b, fields[k])
  }

  // ---------------------------------------------------------------- the same in the program's terms

  lemma SameDimensionsKey(a: Row, b: Row, columns: seq<string>)
    ensures PayrollKey(a, columns) == PayrollKey(b, columns) <==> SameDimensions(a, b, columns)
  {
    forall c
      ensures Written(a, c) == TextOf(Get(a, c)) && Written(b, c) == TextOf(Get(b, c))
    {
    }
    if PayrollKey(a, columns) == PayrollKey(b, columns) {
      forall c | c in columns
        ensures Written(a, c) == Written(b, c)
      {
        var i :| 0 <= i < |columns| && columns[i] == c;
        assert PayrollKey(a, columns)[i] == PayrollKey(b, columns)[i];
      }
    }
  }

  lemma SameOnce(fields: seq<string>)
    ensures forall c :: c in Dedup(fields) <==> c in fields
    ensures forall a, b :: SameDimensions(a, b, Dedup(fields)) <==> SameDimensions(a, b, fields)
  {
    forall c
      ensures c in Dedup(fields) <==> c in fields
    {
      DedupMembers(fields, c);
    }
  }

  lemma MeasuresMeant(m: string)
    ensures m in PayrollMeasures <==> m in Measured
  {
    assert PayrollMeasures[0] == "je" && PayrollMeasures[1] == "sl" && PayrollMeasures[2] == "sssl";
    assert PayrollMeasures[3] == "zpsl" && PayrollMeasures[4] == "bs" && PayrollMeasures[5] == "wgs";
    assert PayrollMeasures[6] == "wts" && PayrollMeasures[7] == "fhsl";
  }

  lemma GroupableMeant(row: Row, fields: seq<string>)
    ensures Groupable(row, Dedup(fields), PayrollMeasures) <==> Complete(row, fields)
  {
    SameOnce(fields);
    forall m
      ensures m in PayrollMeasures <==> m in Measured
      ensures Countable(row, m) <==> Reading(row, m).Some?
    {
      MeasuresMeant(m);
      SameReading(row, m);
    }
  }

  /** A payroll grouping is answered exactly if every row has the dimensions and readable figures. */
  lemma PayrollAnswered(rows: seq<Row>, fields: seq<string>)
    ensures PayrollGrouped(rows, fields).Some? <==> forall row :: row in rows ==> Complete(row, fields)
  {
    PayrollIsGroupSum(rows, fields);
    if PayrollGrouped(rows, fields).Some? {
      forall row | row in rows
        ensures Complete(row, fields)
      {
        var i :| 0 <= i < |rows| && rows[i] == row;
        assert Groupable(rows[i], Dedup(fields), PayrollMeasures);
        GroupableMeant(row, fields);
      }
    }
    if forall row :: row in rows ==> Complete(row, fields) {
      forall i | 0 <= i < |rows|
        ensures Groupable(rows[i], Dedup(fields), PayrollMeasures)
      {
        GroupableMeant(rows[i], fields);
      }
    }
  }

  lemma {:induction false} KeySumIsAdded(rows: seq<Row>, like: Row, columns: seq<string>, m: string)
    requires forall row :: row in rows ==> Countable(row, m)
    ensures KeySum(rows, columns, PayrollKey(like, columns), m) == AddedOver(rows, like, columns, m)
  {
    if rows != [] {
      KeySumIsAdded(rows[1..], like, columns, m);
      SameDimensionsKey(rows[0], like, columns);
      SameReading(rows[0], m);
      assert rows[0] in rows;
    }
  }

  lemma CarriedMeant(rows: seq<Row>, like: Row, columns: seq<string>, m: string)
    ensures PayrollGroups.Carried(rows, columns, PayrollKey(like, columns), m) <==>
            CarriedAlike(rows, like, columns, m)
  {
    forall row
      ensures PayrollKey(row, columns) == PayrollKey(like, columns) <==> SameDimensions(row, like, columns)
    {
      SameDimensionsKey(row, like, columns);
    }
    if row :| row in rows && SameDimensions(row, like, columns) && m in row {
      var i :| 0 <= i < |rows| && rows[i] == row;
    }
  }

  lemma {:induction false} FirstMeant(rows: seq<Row>, key: seq<string>, columns: seq<string>) returns (i: nat)
    requires Keyed(rows, columns, key)
    ensures i < |rows| && First(rows, columns, key) == rows[i] && PayrollKey(rows[i], columns) == key
    ensures FirstOfGroup(rows, i, columns)
  {
    if PayrollKey(rows[0], columns) == key {
      i := 0;
    } else {
      KeyedHead(rows, columns, key);
      i := FirstMeant(rows[1..], key, columns);
      i := i + 1;
      forall j | 0 <= j < i
        ensures !SameDimensions(rows[j], rows[i], columns)
      {
        if j > 0 {
          assert !SameDimensions(rows[1..][j - 1], rows[1..][i - 1], columns);
        } else {
          SameDimensionsKey(rows[0], rows[i], columns);
        }
      }
    }
  }

  // ---------------------------------------------------------------- one group

  lemma GroupCell(rows: seq<Row>, i: nat, columns: seq<string>, c: string)
    requires i < |rows| && First(rows, columns, PayrollKey(rows[i], columns)) == rows[i]
    requires forall row :: row in rows ==> Countable(row, c)
    requires c in Measured && CarriedAlike(rows, rows[i], columns, c)
    ensures PayrollCell(rows, columns, PayrollMeasures, PayrollKey(rows[i], columns), c) ==
            Amount(AddedOver(rows, rows[i], columns, c) + (if c in columns then Worth(rows[i], c) else 0.0))
  {
    MeasuresMeant(c);
    CarriedMeant(rows, rows[i], columns, c);
    KeySumIsAdded(rows, rows[i], columns, c);
    SameReading(rows[i], c);
    assert rows[i] in rows;
  }

  lemma GroupLabel(rows: seq<Row>, i: nat, columns: seq<string>, c: string)
    requires i < |rows| && First(rows, columns, PayrollKey(rows[i], columns)) == rows[i]
    requires c in columns && !(c in Measured && CarriedAlike(rows, rows[i], columns, c))
    ensures Written(PayrollRow(rows, columns, PayrollMeasures, PayrollKey(rows[i], columns)), c) == Written(rows[i], c)
  {
    MeasuresMeant(c);
    CarriedMeant(rows, rows[i], columns, c);
  }

  lemma GroupColumns(rows: seq<Row>, i: nat, columns: seq<string>, c: string)
    requires i < |rows|
    ensures c in PayrollRow(rows, columns, PayrollMeasures, PayrollKey(rows[i], columns)) <==>
            c in columns || (c in Measured && CarriedAlike(rows, rows[i], columns, c))
  {
    MeasuresMeant(c);
    CarriedMeant(rows, rows[i], columns, c);
  }

  lemma GroupHolds(rows: seq<Row>, i: nat, columns: seq<string>)
    requires i < |rows| && First(rows, columns, PayrollKey(rows[i], columns)) == rows[i]
    requires forall row :: row in rows ==> Complete(row, columns)
    ensures GroupRowOf(PayrollRow(rows, columns, PayrollMeasures, PayrollKey(rows[i], columns)), rows, i, columns)
  {
    forall c
      ensures GroupCellOf(PayrollRow(rows, columns, PayrollMeasures, PayrollKey(rows[i], columns)), rows, i, columns, c)
    {
      GroupCellHolds(rows, i, columns, c);
    }
  }

  lemma GroupCellHolds(rows: seq<Row>, i: nat, columns: seq<string>, c: string)
    requires i < |rows| && First(rows, columns, PayrollKey(rows[i], columns)) == rows[i]
    requires forall row :: row in rows ==> Complete(row, columns)
    ensures GroupCellOf(PayrollRow(rows, columns, PayrollMeasures, PayrollKey(rows[i], columns)), rows, i, columns, c)
  {
    GroupColumns(rows, i, columns, c);
    if c in Measured && CarriedAlike(rows, rows[i], columns, c) {
      GroupCell(rows, i, columns, c);
    } else if c in columns {
      GroupLabel(rows, i, columns, c);
    }
  }

  // ---------------------------------------------------------------- all groups

  ghost predicate SomeGroupRow(out: Row, rows: seq<Row>, fields: seq<string>) {
    exists i :: 0 <= i < |rows| && FirstOfGroup(rows, i, fields) && GroupRowOf(out, rows, i, fields)
  }

  lemma TableAt(rows: seq<Row>, columns: seq<string>, k: nat)
    requires k < |Sort(PayrollKeys(rows, columns), TupleLe)|
    ensures var keys, out := Sort(PayrollKeys(rows, columns), TupleLe), PayrollTable(rows, columns, PayrollMeasures);
            && |out| == |keys| && out[k] == PayrollRow(rows, columns, PayrollMeasures, keys[k])
            && Keyed(rows, columns, keys[k])
  {
    SortMembers(PayrollKeys(rows, columns), k);
    PayrollKeysMembers(rows, columns, Sort(PayrollKeys(rows, columns), TupleLe)[k]);
  }

  lemma EveryGroup(rows: seq<Row>, columns: seq<string>, k: nat)
    requires forall row :: row in rows ==> Complete(row, columns)
    requires k < |PayrollTable(rows, columns, PayrollMeasures)|
    ensures SomeGroupRow(PayrollTable(rows, columns, PayrollMeasures)[k], rows, columns)
  {
    TableAt(rows, columns, k);
    var i := FirstMeant(rows, Sort(PayrollKeys(rows, columns), TupleLe)[k], columns);
    GroupHolds(rows, i, columns);
  }

  /** Every row's group is there, with its dimensions as far as they are no measures. */
  lemma EveryRow(rows: seq<Row>, columns: seq<string>, i: nat)
    requires i < |rows| && forall row :: row in rows ==> Complete(row, columns)
    ensures exists k, j :: 0 <= k < |PayrollTable(rows, columns, PayrollMeasures)| && 0 <= j < |rows| &&
              SameDimensions(rows[j], rows[i], columns) &&
              GroupRowOf(PayrollTable(rows, columns, PayrollMeasures)[k], rows, j, columns)
  {
    var key, keys := PayrollKey(rows[i], columns), Sort(PayrollKeys(rows, columns), TupleLe);
    PayrollKeysMembers(rows, columns, key);
    SortKeeps(PayrollKeys(rows, columns), TupleLe);
    assert key in multiset(keys);
    var k :| 0 <= k < |keys| && keys[k] == key;
    TableAt(rows, columns, k);
    var j := FirstMeant(rows, key, columns);
    GroupHolds(rows, j, columns);
    SameDimensionsKey(rows[j], rows[i], columns);
  }

  lemma KeysPrecede(a: Row, b: Row, columns: seq<string>)
    requires TupleLe(PayrollKey(a, columns), PayrollKey(b, columns)) && PayrollKey(a, columns) != PayrollKey(b, columns)
    ensures Precedes(a, b, columns)
  {
    var x, y := PayrollKey(a, columns), PayrollKey(b, columns);
    TupleLeMeans(x, y);
    var n :| 0 <= n < |x| && TupleDeparts(x, y, n);
    forall k | 0 <= k < n
      ensures Written(a, columns[k]) == Written(b, columns[k])
    {
      assert x[..n][k] == y[..n][k];
      assert Written(a, columns[k]) == TextOf(Get(a, columns[k]));
      assert Written(b, columns[k]) == TextOf(Get(b, columns[k]));
    }
    assert Written(a, columns[n]) == x[n] && Written(b, columns[n]) == y[n];
    assert DiffersAt(a, b, columns, n);
  }

  /** The groups come in the order of their first rows' dimensions, each set of dimensions once. */
  lemma GroupsPrecede(rows: seq<Row>, columns: seq<string>, k: nat, l: nat)
    requires forall row :: row in rows ==> Complete(row, columns)
    requires k < l < |PayrollTable(rows, columns, PayrollMeasures)|
    ensures exists i, j :: 0 <= i < |rows| && 0 <= j < |rows| && Precedes(rows[i], rows[j], columns) &&
              GroupRowOf(PayrollTable(rows, columns, PayrollMeasures)[k], rows, i, columns) &&
              GroupRowOf(PayrollTable(rows, columns, PayrollMeasures)[l], rows, j, columns)
  {
    var keys := Sort(PayrollKeys(rows, columns), TupleLe);
    TableAt(rows, columns, k);
    TableAt(rows, columns, l);
    var i := FirstMeant(rows, keys[k], columns);
    var j := FirstMeant(rows, keys[l], columns);
    GroupHolds(rows, i, columns);
    GroupHolds(rows, j, columns);
    PayrollKeysDistinct(rows, columns);
    DistinctSorted(PayrollKeys(rows, columns), k, l);
    KeysPrecede(rows[i], rows[j], columns);
  }

  // ---------------------------------------------------------------- as it was asked for

  lemma {:induction false} FirstMention(a: Row, b: Row, fields: seq<string>, n: nat) returns (k: nat)
    requires n < |Dedup(fields)| && DiffersAt(a, b, Dedup(fields), n)
    ensures k < |fields| && DiffersAt(a, b, fields, k)
  {
    var last := |fields| - 1;
    var before := Dedup(fields[..last]);
    if n < |before| {
      assert forall i :: 0 <= i <= n ==> Dedup(fields)[i] == before[i];
      assert DiffersAt(a, b, before, n);
      k := FirstMention(a, b, fields[..last], n);
    } else {
      k := last;
      forall i | 0 <= i < last
        ensures Written(a, fields[i]) == Written(b, fields[i])
      {
        DedupMembers(fields[..last], fields[i]);
        assert fields[..last][i] == fields[i];
        var j :| 0 <= j < |before| && before[j] == fields[i];
        assert Dedup(fields)[j] == before[j];
      }
    }
  }

  lemma OnceHolds(out: Row, rows: seq<Row>, i: nat, fields: seq<string>)
    requires i < |rows|
    ensures GroupRowOf(out, rows, i, Dedup(fields)) ==> GroupRowOf(out, rows, i, fields)
    ensures FirstOfGroup(rows, i, Dedup(fields)) ==> FirstOfGroup(rows, i, fields)
  {
    SameOnce(fields);
    forall m
      ensures CarriedAlike(rows, rows[i], Dedup(fields), m) <==> CarriedAlike(rows, rows[i], fields, m)
      ensures AddedOver(rows, rows[i], Dedup(fields), m) == AddedOver(rows, rows[i], fields, m)
    {
      AddedOnce(rows, rows[i], fields, m);
    }
    if GroupRowOf(out, rows, i, Dedup(fields)) {
      forall c
        ensures GroupCellOf(out, rows, i, fields, c)
      {
        assert GroupCellOf(out, rows, i, Dedup(fields), c);
      }
    }
  }

  lemma {:induction false} AddedOnce(rows: seq<Row>, like: Row, fields: seq<string>, m: string)
    ensures AddedOver(rows, like, Dedup(fields), m) == AddedOver(rows, like, fields, m)
  {
    SameOnce(fields);
    if rows != [] {
      AddedOnce(rows[1..], like, fields, m);
    }
  }

  ghost predicate InOrder(x: Row, y: Row, rows: seq<Row>, fields: seq<string>) {
    exists i, j :: 0 <= i < |rows| && 0 <= j < |rows| && Precedes(rows[i], rows[j], fields) &&
      GroupRowOf(x, rows, i, fields) && GroupRowOf(y, rows, j, fields)
  }

  ghost predicate HasGroupOf(out: seq<Row>, rows: seq<Row>, i: nat, fields: seq<string>)
    requires i < |rows|
  {
    exists k, j :: 0 <= k < |out| && 0 <= j < |rows| && SameDimensions(rows[j], rows[i], fields) &&
      GroupRowOf(out[k], rows, j, fields)
  }

  /**
    An answered payroll grouping: each row is that of a group, every row of the detail has its group
    there, and the groups come in the order of their dimensions as asked for, each once.
  */
  lemma PayrollHolds(rows: seq<Row>, fields: seq<string>)
    requires PayrollGrouped(rows, fields).Some?
    ensures var out := PayrollGrouped(rows, fields).value;
            && (forall k :: 0 <= k < |out| ==> SomeGroupRow(out[k], rows, fields))
            && (forall i :: 0 <= i < |rows| ==> HasGroupOf(out, rows, i, fields))
            && (forall k, l :: 0 <= k < l < |out| ==> InOrder(out[k], out[l], rows, fields))
  {
    var columns, out := Dedup(fields), PayrollGrouped(rows, fields).value;
    PayrollAnswered(rows, fields);
    PayrollIsGroupSum(rows, fields);
    SameOnce(fields);
    forall k | 0 <= k < |out|
      ensures SomeGroupRow(out[k], rows, fields)
    {
      EveryGroup(rows, columns, k);
      var i :| 0 <= i < |rows| && FirstOfGroup(rows, i, columns) && GroupRowOf(out[k], rows, i, columns);
      OnceHolds(out[k], rows, i, fields);
    }
    forall i | 0 <= i < |rows|
      ensures HasGroupOf(out, rows, i, fields)
    {
      EveryRow(rows, columns, i);
      var k, j :| 0 <= k < |out| && 0 <= j < |rows| && SameDimensions(rows[j], rows[i], columns) &&
        GroupRowOf(out[k], rows, j, columns);
      OnceHolds(out[k], rows, j, fields);
    }
    forall k, l | 0 <= k < l < |out|
      ensures InOrder(out[k], out[l], rows, fields)
    {
      GroupsInOrder(rows, fields, k, l);
    }
  }

  lemma GroupsInOrder(rows: seq<Row>, fields: seq<string>, k: nat, l: nat)
    requires PayrollGrouped(rows, fields).Some? && k < l < |PayrollGrouped(rows, fields).value|
    ensures InOrder(PayrollGrouped(rows, fields).value[k], PayrollGrouped(rows, fields).value[l], rows, fields)
  {
    var columns, out := Dedup(fields), PayrollGrouped(rows, fields).value;
    PayrollAnswered(rows, fields);
    PayrollIsGroupSum(rows, fields);
    SameOnce(fields);
    GroupsPrecede(rows, columns, k, l);
    var i, j :| 0 <= i < |rows| && 0 <= j < |rows| && Precedes(rows[i], rows[j], columns) &&
      GroupRowOf(out[k], rows, i, columns) && GroupRowOf(out[l], rows, j, columns);
    var n :| 0 <= n < |columns| && DiffersAt(rows[i], rows[j], columns, n);
    var _ := FirstMention(rows[i], rows[j], fields, n);
    OnceHolds(out[k], rows, i, fields);
    OnceHolds(out[l], rows, j, fields);
  }
}
