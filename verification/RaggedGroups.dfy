/**
  What padding does to an answer. Stored detail comes back with blanks where a row had no column at
  all; most of the program reads both alike, and the rest is stated here exactly, for every
  operation, caller and grouping.
*/
module RaggedGroups {
  import opened Wrappers
  import opened Sorting
  import opened TextOrder
  import opened Table
  import opened Progress
  import opened Footer
  import opened PayrollView
  import opened PayrollGroups
  import opened View
  import opened Transparency

  // ---------------------------------------------------------------- rows that read alike

  /** Every column reads the same, present or not. */
  ghost predicate Like(a: Row, b: Row) { forall c :: Get(a, c) == Get(b, c) }

  ghost predicate Alike(xs: seq<Row>, ys: seq<Row>) { |xs| == |ys| && forall i :: 0 <= i < |xs| ==> Like(xs[i], ys[i]) }

  ghost predicate Within(rows: seq<Row>, columns: set<string>) {
    forall i :: 0 <= i < |rows| ==> rows[i].Keys <= columns
  }

  lemma PadAlike(rows: seq<Row>, columns: set<string>)
    requires Within(rows, columns)
    ensures Alike(Pad(rows, columns), rows)
  {
    forall i | 0 <= i < |rows|
      ensures Like(PadRow(rows[i], columns), rows[i])
    {
      assert rows[i].Keys <= columns;
    }
  }

  lemma {:induction false} SumAlike(xs: seq<Row>, ys: seq<Row>, weigh: Row -> real)
    requires Alike(xs, ys) && forall i :: 0 <= i < |xs| ==> weigh(xs[i]) == weigh(ys[i])
    ensures Sum(xs, weigh) == Sum(ys, weigh)
  {
    if xs != [] {
      SumAlike(xs[1..], ys[1..], weigh);
    }
  }

  // ---------------------------------------------------------------- progress

  lemma LikeKey(a: Row, b: Row, grain: Grain)
    requires Like(a, b)
    ensures KeyOf(a, grain) == KeyOf(b, grain)
  {
  }

  lemma LikeContributes(a: Row, b: Row)
    requires Like(a, b)
    ensures forall m :: Contribution(a, m) == Contribution(b, m)
    ensures Contributes(a) <==> Contributes(b)
  {
    forall m: Measure
      ensures Contribution(a, m) == Contribution(b, m)
    {
      assert Get(a, m.Column()) == Get(b, m.Column());
    }
    assert Contributes(a) ==> forall m: Measure :: Contribution(b, m) == Contribution(a, m);
  }

  lemma LikeShare(a: Row, b: Row, grain: Grain, key: seq<string>, m: Measure)
    requires Like(a, b)
    ensures Share(a, grain, key, m) == Share(b, grain, key, m)
  {
    LikeKey(a, b, grain);
    LikeContributes(a, b);
  }

  lemma LikeCompatible(a: Row, b: Row, c: Row, d: Row, grain: Grain)
    requires Like(a, c) && Like(b, d)
    ensures Compatible(a, b, grain) <==> Compatible(c, d, grain)
  {
    LikeKey(a, c, grain);
    LikeKey(b, d, grain);
    assert Get(a, DateColumn) == Get(c, DateColumn) && Get(b, DateColumn) == Get(d, DateColumn);
    assert forall x :: x in grain.names ==> Get(a, x) == Get(c, x) && Get(b, x) == Get(d, x);
    assert NamesAgree(a, b, grain) <==> NamesAgree(c, d, grain);
  }

  lemma {:induction false} KeysAlike(xs: seq<Row>, ys: seq<Row>, grain: Grain)
    requires Alike(xs, ys)
    ensures KeysIn(xs, grain) == KeysIn(ys, grain)
  {
    if xs != [] {
      var n := |xs| - 1;
      KeysAlike(xs[..n], ys[..n], grain);
      LikeKey(xs[n], ys[n], grain);
    }
  }

  lemma {:induction false} LeaderAlike(xs: seq<Row>, ys: seq<Row>, grain: Grain, key: seq<string>)
    requires Alike(xs, ys)
    ensures Like(Leader(xs, grain, key), Leader(ys, grain, key))
  {
    if xs != [] {
      LikeKey(xs[0], ys[0], grain);
      LeaderAlike(xs[1..], ys[1..], grain, key);
    }
  }

  lemma LikeDimensions(a: Row, b: Row, grain: Grain)
    requires Like(a, b)
    ensures Dimensions(a, grain) == Dimensions(b, grain)
  {
  }

  lemma TotalAlike(xs: seq<Row>, ys: seq<Row>, grain: Grain, key: seq<string>, m: Measure)
    requires Alike(xs, ys)
    ensures GroupTotal(xs, grain, key, m) == GroupTotal(ys, grain, key, m)
  {
    var weigh := (row: Row) => Share(row, grain, key, m);
    forall i | 0 <= i < |xs|
      ensures weigh(xs[i]) == weigh(ys[i])
    {
      LikeShare(xs[i], ys[i], grain, key, m);
    }
    SumAlike(xs, ys, weigh);
  }

  lemma GroupRowAlike(xs: seq<Row>, ys: seq<Row>, grain: Grain, key: seq<string>)
    requires Alike(xs, ys)
    ensures GroupRow(xs, grain, key) == GroupRow(ys, grain, key)
  {
    LeaderAlike(xs, ys, grain, key);
    LikeDimensions(Leader(xs, grain, key), Leader(ys, grain, key), grain);
    forall m
      ensures GroupTotal(xs, grain, key, m) == GroupTotal(ys, grain, key, m)
    {
      TotalAlike(xs, ys, grain, key, m);
    }
    assert GroupTotals(xs, grain, key) == GroupTotals(ys, grain, key);
  }

  /** The groups of rows that read alike are the same. */
  lemma GroupedAlike(xs: seq<Row>, ys: seq<Row>, grain: Grain)
    requires Alike(xs, ys)
    ensures Grouped(xs, grain) == Grouped(ys, grain)
  {
    KeysAlike(xs, ys, grain);
    var keys := Sort(KeysIn(xs, grain), TupleLe);
    forall i | 0 <= i < |keys|
      ensures GroupRow(xs, grain, keys[i]) == GroupRow(ys, grain, keys[i])
    {
      GroupRowAlike(xs, ys, grain, keys[i]);
    }
    assert Arrange(xs, grain, keys) == Arrange(ys, grain, keys);
  }

  /** Everything asked of rows that are to be grouped, except that they carry the columns. */
  ghost predicate Coherent(rows: seq<Row>, grain: Grain) {
    && (forall i :: 0 <= i < |rows| ==> Contributes(rows[i]))
    && (forall i, j :: 0 <= i < |rows| && 0 <= j < |rows| ==> Compatible(rows[i], rows[j], grain))
  }

  predicate AllCarry(rows: seq<Row>, names: seq<string>) {
    forall i, c :: 0 <= i < |rows| && c in names ==> c in rows[i]
  }

  lemma AcceptableParts(rows: seq<Row>, grain: Grain)
    ensures Acceptable(rows, grain) <==> Coherent(rows, grain) && AllCarry(rows, grain.columns)
  {
    if Acceptable(rows, grain) {
      assert forall i :: 0 <= i < |rows| ==> Fits(rows[i], grain);
    }
    if Coherent(rows, grain) && AllCarry(rows, grain.columns) {
      forall i | 0 <= i < |rows|
        ensures Fits(rows[i], grain)
      {
        assert Contributes(rows[i]);
      }
    }
  }

  lemma CoherentAlike(xs: seq<Row>, ys: seq<Row>, grain: Grain)
    requires Alike(xs, ys) && Coherent(xs, grain)
    ensures Coherent(ys, grain)
  {
    forall i | 0 <= i < |ys|
      ensures Contributes(ys[i])
    {
      assert Contributes(xs[i]) && Like(xs[i], ys[i]);
      LikeContributes(xs[i], ys[i]);
    }
    forall i, j | 0 <= i < |ys| && 0 <= j < |ys|
      ensures Compatible(ys[i], ys[j], grain)
    {
      assert Compatible(xs[i], xs[j], grain);
      LikeCompatible(xs[i], xs[j], ys[i], ys[j], grain);
    }
  }

  lemma PadCarries(rows: seq<Row>, columns: set<string>, names: seq<string>)
    ensures AllCarry(Pad(rows, columns), names) <==> rows == [] || forall c :: c in names ==> c in columns
  {
    if rows != [] && AllCarry(Pad(rows, columns), names) {
      forall c | c in names
        ensures c in columns
      {
        assert c in Pad(rows, columns)[0];
      }
    }
  }

  lemma CarriedColumns(rows: seq<Row>, columns: set<string>, names: seq<string>)
    requires Within(rows, columns) && AllCarry(rows, names)
    ensures AllCarry(Pad(rows, columns), names)
  {
    if rows != [] {
      assert rows[0].Keys <= columns;
      assert forall c :: c in names ==> c in rows[0];
    }
    PadCarries(rows, columns, names);
  }

  lemma LikeSymmetric(xs: seq<Row>, ys: seq<Row>)
    requires Alike(xs, ys)
    ensures Alike(ys, xs)
  {
  }

  /** A grouping of progress rows that is refused for a missing column alone, and goes through with blanks. */
  ghost predicate Mended(rows: seq<Row>, columns: set<string>, grain: Grain) {
    && Reviewed(grain) && Coherent(rows, grain) && !AllCarry(rows, grain.columns)
    && forall c :: c in grain.columns ==> c in columns
  }

  lemma {:induction false} DedupEmpty(xs: seq<string>)
    requires xs != []
    ensures Dedup(xs) != []
  {
    if |xs| > 1 {
      DedupEmpty(xs[..|xs| - 1]);
    }
  }

  lemma AggregateNormal(rows: seq<Row>, groupby: seq<string>)
    requires groupby != [] && NormalRows(rows)
    ensures var grain := GrainOf(groupby);
            Aggregate(rows, groupby) ==
            if Reviewed(grain) && Coherent(rows, grain) && AllCarry(rows, grain.columns) then Some(Grouped(rows, grain))
            else None
  {
    DedupEmpty(groupby);
    DeriveNormal(rows);
    AcceptableParts(rows, GrainOf(groupby));
  }

  /**
    Padding never changes a progress grouping that is answered. One that is refused it answers if
    and only if it mends it.
  */
  lemma ProgressPads(rows: seq<Row>, columns: set<string>, groupby: seq<string>)
    requires groupby != [] && Within(rows, columns) && NormalRows(rows) && NormalRows(Pad(rows, columns))
    ensures var plain, padded := Aggregate(rows, groupby), Aggregate(Pad(rows, columns), groupby);
            && (plain.Some? ==> padded == plain)
            && (plain.None? ==> (padded.Some? <==> Mended(rows, columns, GrainOf(groupby))))
  {
    var grain, blanks := GrainOf(groupby), Pad(rows, columns);
    PadAlike(rows, columns);
    LikeSymmetric(blanks, rows);
    AggregateNormal(rows, groupby);
    AggregateNormal(blanks, groupby);
    GroupedAlike(blanks, rows, grain);
    if Coherent(rows, grain) {
      CoherentAlike(rows, blanks, grain);
    }
    if Coherent(blanks, grain) {
      CoherentAlike(blanks, rows, grain);
    }
    PadCarries(rows, columns, grain.columns);
    if AllCarry(rows, grain.columns) {
      CarriedColumns(rows, columns, grain.columns);
    }
  }

  // ---------------------------------------------------------------- payroll

  lemma LikePayrollKey(a: Row, b: Row, names: seq<string>)
    requires Like(a, b)
    ensures PayrollKey(a, names) == PayrollKey(b, names)
  {
  }

  lemma {:induction false} PayrollKeysAlike(xs: seq<Row>, ys: seq<Row>, names: seq<string>)
    requires Alike(xs, ys)
    ensures PayrollKeys(xs, names) == PayrollKeys(ys, names)
  {
    if xs != [] {
      var n := |xs| - 1;
      PayrollKeysAlike(xs[..n], ys[..n], names);
      LikePayrollKey(xs[n], ys[n], names);
    }
  }

  lemma {:induction false} FirstAlike(xs: seq<Row>, ys: seq<Row>, names: seq<string>, key: seq<string>)
    requires Alike(xs, ys)
    ensures Like(First(xs, names, key), First(ys, names, key))
  {
    if xs != [] {
      LikePayrollKey(xs[0], ys[0], names);
      FirstAlike(xs[1..], ys[1..], names, key);
    }
  }

  lemma LikeReading(a: Row, b: Row, m: string)
    requires Like(a, b)
    ensures Reading(a, m) == Reading(b, m)
  {
    assert Get(a, m) == Get(b, m);
  }

  lemma KeySumAlike(xs: seq<Row>, ys: seq<Row>, names: seq<string>, key: seq<string>, m: string)
    requires Alike(xs, ys)
    ensures KeySum(xs, names, key, m) == KeySum(ys, names, key, m)
  {
    var weigh := (row: Row) => KeyShare(row, names, key, m);
    forall i | 0 <= i < |xs|
      ensures weigh(xs[i]) == weigh(ys[i])
    {
      LikePayrollKey(xs[i], ys[i], names);
      LikeReading(xs[i], ys[i], m);
    }
    SumAlike(xs, ys, weigh);
  }

  /** In padded detail a group carries every measure that occurs anywhere. */
  lemma CarriedPads(rows: seq<Row>, columns: set<string>, names: seq<string>, key: seq<string>, m: string)
    requires Within(rows, columns)
    ensures Carried(Pad(rows, columns), names, key, m) <==> m in columns && Keyed(rows, names, key)
    ensures Carried(rows, names, key, m) ==> m in columns && Keyed(rows, names, key)
  {
    var blanks := Pad(rows, columns);
    PadAlike(rows, columns);
    forall i | 0 <= i < |rows|
      ensures PayrollKey(blanks[i], names) == PayrollKey(rows[i], names)
    {
      LikePayrollKey(blanks[i], rows[i], names);
    }
    if m in columns && Keyed(rows, names, key) {
      var i :| 0 <= i < |rows| && PayrollKey(rows[i], names) == key;
      assert PayrollKey(blanks[i], names) == key && m in blanks[i];
    }
    if Carried(rows, names, key, m) {
      var i :| 0 <= i < |rows| && PayrollKey(rows[i], names) == key && m in rows[i];
      assert rows[i].Keys <= columns;
    }
  }

  /** What a group shows in one column depends on the blanks only through which measures it carries. */
  lemma CellAlike(xs: seq<Row>, ys: seq<Row>, names: seq<string>, key: seq<string>, c: string)
    requires Alike(xs, ys) && (Carried(xs, names, key, c) <==> Carried(ys, names, key, c))
    ensures PayrollCell(xs, names, PayrollMeasures, key, c) == PayrollCell(ys, names, PayrollMeasures, key, c)
  {
    FirstAlike(xs, ys, names, key);
    KeySumAlike(xs, ys, names, key, c);
    LikeReading(First(xs, names, key), First(ys, names, key), c);
    assert Get(First(xs, names, key), c) == Get(First(ys, names, key), c);
  }

  /** The group carries every measure among the columns. */
  predicate Filled(rows: seq<Row>, columns: set<string>, names: seq<string>, key: seq<string>) {
    forall m :: m in PayrollMeasures && m in columns ==> Carried(rows, names, key, m)
  }

  lemma FilledRow(rows: seq<Row>, columns: set<string>, names: seq<string>, key: seq<string>)
    requires Within(rows, columns) && Filled(rows, columns, names, key)
    ensures PayrollRow(Pad(rows, columns), names, PayrollMeasures, key) == PayrollRow(rows, names, PayrollMeasures, key)
  {
    var blanks := Pad(rows, columns);
    PadAlike(rows, columns);
    forall c | c in PayrollMeasures
      ensures Carried(blanks, names, key, c) <==> Carried(rows, names, key, c)
    {
      CarriedPads(rows, columns, names, key, c);
    }
    forall c | c in names + PayrollMeasures
      ensures PayrollCell(blanks, names, PayrollMeasures, key, c) == PayrollCell(rows, names, PayrollMeasures, key, c)
    {
      if c in PayrollMeasures {
        CellAlike(blanks, rows, names, key, c);
      } else {
        FirstAlike(blanks, rows, names, key);
        assert Get(First(blanks, names, key), c) == Get(First(rows, names, key), c);
      }
    }
  }

  lemma UnfilledRow(rows: seq<Row>, columns: set<string>, names: seq<string>, key: seq<string>)
    requires Within(rows, columns) && AllCarry(rows, names) && Keyed(rows, names, key)
    requires !Filled(rows, columns, names, key)
    ensures PayrollRow(Pad(rows, columns), names, PayrollMeasures, key) != PayrollRow(rows, names, PayrollMeasures, key)
  {
    var m :| m in PayrollMeasures && m in columns && !Carried(rows, names, key, m);
    CarriedPads(rows, columns, names, key, m);
    var i :| 0 <= i < |rows| && PayrollKey(rows[i], names) == key;
    assert m !in names;
    assert m in PayrollRow(Pad(rows, columns), names, PayrollMeasures, key);
    assert m !in PayrollRow(rows, names, PayrollMeasures, key);
  }

  ghost predicate AllFilled(rows: seq<Row>, columns: set<string>, names: seq<string>) {
    forall i :: 0 <= i < |rows| ==> Filled(rows, columns, names, PayrollKey(rows[i], names))
  }

  lemma TableKeys(rows: seq<Row>, names: seq<string>, key: seq<string>)
    ensures key in Sort(PayrollKeys(rows, names), TupleLe) <==> Keyed(rows, names, key)
  {
    var keys := PayrollKeys(rows, names);
    SortKeeps(keys, TupleLe);
    assert key in Sort(keys, TupleLe) <==> key in multiset(keys);
    PayrollKeysMembers(rows, names, key);
  }

  ghost predicate KeysFilled(rows: seq<Row>, columns: set<string>, names: seq<string>, keys: seq<seq<string>>) {
    forall i :: 0 <= i < |keys| ==> Filled(rows, columns, names, keys[i])
  }

  /** One group has the same row in both tables. */
  ghost predicate SameRow(xs: seq<Row>, ys: seq<Row>, names: seq<string>, key: seq<string>) {
    PayrollRow(xs, names, PayrollMeasures, key) == PayrollRow(ys, names, PayrollMeasures, key)
  }

  lemma RowPads(rows: seq<Row>, columns: set<string>, names: seq<string>, key: seq<string>)
    requires Within(rows, columns) && AllCarry(rows, names)
    requires key in Sort(PayrollKeys(rows, names), TupleLe)
    ensures SameRow(Pad(rows, columns), rows, names, key) <==> Filled(rows, columns, names, key)
  {
    TableKeys(rows, names, key);
    if Filled(rows, columns, names, key) {
      FilledRow(rows, columns, names, key);
    } else {
      UnfilledRow(rows, columns, names, key);
    }
  }

  lemma TableRow(rows: seq<Row>, names: seq<string>, i: nat)
    requires i < |Sort(PayrollKeys(rows, names), TupleLe)|
    ensures |PayrollTable(rows, names, PayrollMeasures)| == |Sort(PayrollKeys(rows, names), TupleLe)|
    ensures PayrollTable(rows, names, PayrollMeasures)[i] ==
            PayrollRow(rows, names, PayrollMeasures, Sort(PayrollKeys(rows, names), TupleLe)[i])
  {
  }

  /** The payroll groups stay the same exactly if each of them carries every measure among the columns. */
  lemma TablePads(rows: seq<Row>, columns: set<string>, names: seq<string>)
    requires Within(rows, columns) && AllCarry(rows, names)
    ensures PayrollTable(Pad(rows, columns), names, PayrollMeasures) == PayrollTable(rows, names, PayrollMeasures) <==>
            AllFilled(rows, columns, names)
  {
    PadAlike(rows, columns);
    PayrollKeysAlike(Pad(rows, columns), rows, names);
    FilledKeys(rows, columns, names);
    KeysFilledAll(rows, columns, names);
    if AllFilled(rows, columns, names) {
      FilledTables(rows, columns, names);
    }
    if PayrollTable(Pad(rows, columns), names, PayrollMeasures) == PayrollTable(rows, names, PayrollMeasures) {
      TablesFilled(rows, columns, names);
    }
  }

  lemma FilledTables(rows: seq<Row>, columns: set<string>, names: seq<string>)
    requires Within(rows, columns) && AllCarry(rows, names)
    requires PayrollKeys(Pad(rows, columns), names) == PayrollKeys(rows, names)
    requires KeysFilled(rows, columns, names, Sort(PayrollKeys(rows, names), TupleLe))
    ensures PayrollTable(Pad(rows, columns), names, PayrollMeasures) == PayrollTable(rows, names, PayrollMeasures)
  {
    var keys := Sort(PayrollKeys(rows, names), TupleLe);
    forall i | 0 <= i < |keys|
      ensures PayrollRow(Pad(rows, columns), names, PayrollMeasures, keys[i]) ==
              PayrollRow(rows, names, PayrollMeasures, keys[i])
    {
      RowPads(rows, columns, names, keys[i]);
    }
  }

  lemma TablesFilled(rows: seq<Row>, columns: set<string>, names: seq<string>)
    requires Within(rows, columns) && AllCarry(rows, names)
    requires PayrollKeys(Pad(rows, columns), names) == PayrollKeys(rows, names)
    requires PayrollTable(Pad(rows, columns), names, PayrollMeasures) == PayrollTable(rows, names, PayrollMeasures)
    ensures KeysFilled(rows, columns, names, Sort(PayrollKeys(rows, names), TupleLe))
  {
    var keys := Sort(PayrollKeys(rows, names), TupleLe);
    forall i | 0 <= i < |keys|
      ensures Filled(rows, columns, names, keys[i])
    {
      TableRow(rows, names, i);
      TableRow(Pad(rows, columns), names, i);
      assert SameRow(Pad(rows, columns), rows, names, keys[i]);
      RowPads(rows, columns, names, keys[i]);
    }
  }

  lemma FilledKeys(rows: seq<Row>, columns: set<string>, names: seq<string>)
    ensures AllFilled(rows, columns, names) ==>
            KeysFilled(rows, columns, names, Sort(PayrollKeys(rows, names), TupleLe))
  {
    var keys := Sort(PayrollKeys(rows, names), TupleLe);
    if AllFilled(rows, columns, names) {
      forall i | 0 <= i < |keys|
        ensures Filled(rows, columns, names, keys[i])
      {
        assert keys[i] in keys;
        TableKeys(rows, names, keys[i]);
        var k :| 0 <= k < |rows| && PayrollKey(rows[k], names) == keys[i];
      }
    }
  }

  lemma KeysFilledAll(rows: seq<Row>, columns: set<string>, names: seq<string>)
    ensures KeysFilled(rows, columns, names, Sort(PayrollKeys(rows, names), TupleLe)) ==>
            AllFilled(rows, columns, names)
  {
    var keys := Sort(PayrollKeys(rows, names), TupleLe);
    if KeysFilled(rows, columns, names, keys) {
      forall i | 0 <= i < |rows|
        ensures Filled(rows, columns, names, PayrollKey(rows[i], names))
      {
        TableKeys(rows, names, PayrollKey(rows[i], names));
        var k :| 0 <= k < |keys| && keys[k] == PayrollKey(rows[i], names);
      }
    }
  }

  /** Every figure that a row carries can be read. */
  ghost predicate AllRead(rows: seq<Row>) {
    forall i, m :: 0 <= i < |rows| && m in PayrollMeasures ==> Reading(rows[i], m).Some?
  }

  lemma GroupableParts(rows: seq<Row>, names: seq<string>)
    ensures AllGroupable(rows, names, PayrollMeasures) <==> AllCarry(rows, names) && AllRead(rows)
  {
    if AllGroupable(rows, names, PayrollMeasures) {
      forall i, m | 0 <= i < |rows| && m in PayrollMeasures
        ensures Reading(rows[i], m).Some?
      {
        assert Groupable(rows[i], names, PayrollMeasures);
      }
      forall i, c | 0 <= i < |rows| && c in names
        ensures c in rows[i]
      {
        assert Groupable(rows[i], names, PayrollMeasures);
      }
    }
    if AllCarry(rows, names) && AllRead(rows) {
      forall i | 0 <= i < |rows|
        ensures Groupable(rows[i], names, PayrollMeasures)
      {
      }
    }
  }

  lemma ReadAlikeRows(xs: seq<Row>, ys: seq<Row>)
    requires Alike(xs, ys)
    ensures AllRead(xs) <==> AllRead(ys)
  {
    forall i, m | 0 <= i < |xs| && m in PayrollMeasures
      ensures Reading(xs[i], m) == Reading(ys[i], m)
    {
      LikeReading(xs[i], ys[i], m);
    }
  }

  /**
    Padding leaves a payroll grouping that is answered as it is exactly if every group carries every
    measure among the columns. One that is refused it answers if and only if the figures can be
    read and the missing dimensions are among the columns.
  */
  lemma PayrollPads(rows: seq<Row>, columns: set<string>, fields: seq<string>)
    requires Within(rows, columns)
    ensures var plain, padded := PayrollGrouped(rows, fields), PayrollGrouped(Pad(rows, columns), fields);
            && (plain.Some? ==> padded.Some? && (padded == plain <==> AllFilled(rows, columns, Dedup(fields))))
            && (plain.None? ==> (padded.Some? <==> AllRead(rows) && forall c :: c in Dedup(fields) ==> c in columns))
  {
    var names, blanks := Dedup(fields), Pad(rows, columns);
    PayrollIsGroupSum(rows, fields);
    PayrollIsGroupSum(blanks, fields);
    GroupableParts(rows, names);
    GroupableParts(blanks, names);
    PadAlike(rows, columns);
    ReadAlikeRows(blanks, rows);
    PadCarries(rows, columns, names);
    if AllCarry(rows, names) {
      CarriedColumns(rows, columns, names);
      TablePads(rows, columns, names);
    }
  }

  // ---------------------------------------------------------------- answers

  /**
    When padding is invisible in the answer to rows in a caller's view. Without grouping: every row
    has every column. Grouped progress: unless it mends the grouping. Grouped payroll: every group
    carries every measure, or the grouping is refused for something that blanks do not supply.
  */
  ghost predicate PadsUnseen(view: seq<Row>, columns: set<string>, op: Operation, groupby: seq<string>) {
    if groupby == [] then Rectangular(view, columns)
    else if op.ProgressOp? then !Mended(view, columns, GrainOf(groupby))
    else
      AllRead(view) ==>
        if AllCarry(view, Dedup(groupby)) then AllFilled(view, columns, Dedup(groupby))
        else exists c :: c in Dedup(groupby) && c !in columns
  }

  lemma RegroupPads(view: seq<Row>, columns: set<string>, op: Operation, groupby: seq<string>)
    requires Within(view, columns)
    requires op.ProgressOp? ==> NormalRows(view) && NormalRows(Pad(view, columns))
    ensures Regroup(Pad(view, columns), op, groupby) == Regroup(view, op, groupby) <==>
            PadsUnseen(view, columns, op, groupby)
  {
    if groupby == [] {
      UngroupedServes(view, op);
      UngroupedServes(Pad(view, columns), op);
      PadIsIdentity(view, columns);
    } else if op.ProgressOp? {
      ProgressPads(view, columns, groupby);
      AggregateNormal(view, groupby);
    } else {
      PayrollPads(view, columns, groupby);
      PayrollIsGroupSum(view, groupby);
      GroupableParts(view, Dedup(groupby));
    }
  }

  /** Padding the detail pads the caller's rows, and supplies a missing bed if any row has one. */
  lemma LocalViewPads(rows: seq<Row>, columns: set<string>, op: Operation, caller: Caller, window: Window)
    requires Holds(columns, rows, op)
    ensures var plain, padded := LocalView(rows, op, caller, window), LocalView(Pad(rows, columns), op, caller, window);
            && (plain.Ok? ==> padded == Ok(Pad(plain.value, columns)) && forall row :: row in plain.value ==>
                row in rows)
            && (plain.Err? ==> plain == Err(NoBedDimension) && (padded.Err? <==> "chuanghao" !in columns))
  {
    PaddedSlice(rows, columns, op, caller, window);
    var sliced := Sliced(Scoped(rows, caller), op, caller.params, window);
    PaddedMatches(sliced, columns, op, caller);
    if LacksBeds(sliced, caller) {
      assert sliced != [];
    } else if sliced != [] && caller.filters.bedCodes.Some? {
      assert "chuanghao" in sliced[0] && sliced[0].Keys <= columns;
    }
  }

  lemma ChosenWithin(view: seq<Row>, rows: seq<Row>, columns: set<string>)
    requires Within(rows, columns) && forall row :: row in view ==> row in rows
    ensures Within(view, columns)
  {
    forall i | 0 <= i < |view|
      ensures view[i].Keys <= columns
    {
      assert view[i] in rows;
      var j :| 0 <= j < |rows| && rows[j] == view[i];
    }
  }

  lemma PadsDetail(rows: seq<Row>, columns: set<string>, op: Operation, caller: Caller, window: Window)
    requires Holds(columns, rows, op) && Ready(rows, op, caller.params)
    ensures var view := LocalView(rows, op, caller, window);
            Project(Pad(rows, columns), op, caller, window) == Project(rows, op, caller, window) <==>
            if view.Ok? then PadsUnseen(view.value, columns, op, caller.params.groupby) else "chuanghao" !in columns
  {
    PaddedIsReady(rows, columns, op, caller.params);
    ReadyProjects(rows, op, caller, window);
    ReadyProjects(Pad(rows, columns), op, caller, window);
    LocalViewPads(rows, columns, op, caller, window);
    var view := LocalView(rows, op, caller, window);
    if view.Ok? {
      ChosenWithin(view.value, rows, columns);
      ViewIsNormal(rows, view.value, columns, op, caller.params);
      RegroupPads(view.value, columns, op, caller.params.groupby);
    }
  }

  /**
    Ragged detail, for every operation, caller and grouping: the snapshot answers as a direct fetch
    does if and only if padding is invisible in the caller's rows; or, where they lack the bed
    column that the caller filters by, no row of the snapshot has one.
  */
  lemma RaggedAnswersDiffer(universe: seq<Row>, op: Operation, caller: Caller, outer: Window, inner: Window,
                            columns: set<string>)
    requires Covers(outer, inner) && Holds(columns, Stored(universe, op, caller.params, outer), op)
    ensures var view := LocalView(Stored(universe, op, caller.params, inner), op, caller, inner);
            Project(Pad(Stored(universe, op, caller.params, outer), columns), op, caller, inner) ==
            Project(DetailOf(universe, op, caller.params, inner), op, caller, inner) <==>
            if view.Ok? then PadsUnseen(view.value, columns, op, caller.params.groupby) else "chuanghao" !in columns
  {
    var narrow := Stored(universe, op, caller.params, inner);
    PaddedTransparency(universe, op, caller, outer, inner, columns);
    NarrowColumns(universe, op, caller.params, outer, inner, columns);
    StoredIsReady(universe, op, caller.params, inner);
    DirectProjects(universe, op, caller, inner);
    PadsDetail(narrow, columns, op, caller, inner);
  }

  /** A group of the ragged kind: the row lacks a dimension, so a direct fetch refuses; with a blank it is answered. */
  lemma BlankKeyAnswers(row: Row, columns: set<string>, field: string)
    requires field !in row && field in columns && row.Keys <= columns && AllRead([row])
    ensures PayrollGrouped([row], [field]).None? && PayrollGrouped(Pad([row], columns), [field]).Some?
  {
    assert Dedup([field]) == [field] by {
      assert [field][..0] == [];
    }
    PayrollPads([row], columns, [field]);
    PayrollIsGroupSum([row], [field]);
    GroupableParts([row], [field]);
    assert [row][0] == row && [field][0] == field;
  }
}
