/**
  What a grouping of progress rows answers, read off the rows that were listed: which groupings are
  answered at all, what each group's row holds, and in which order the groups come.
*/
module ProgressGroups {
  import opened Wrappers
  import opened Sorting
  import opened TextOrder
  import opened Table
  import opened RawRows
  import opened Progress

  // ---------------------------------------------------------------- the documented grains

  const SheetGrain: set<string> := {"dh", "jhdh", "chuanghao", "huohao", "bbreed", "dept", "deptname"}

  const PackageGrain: set<string> := {"dh", "baohao", "userid", "color", "chima"}

  const EmployeeGrain: set<string> := {"userid", "uid", "uname", "dept", "deptname", "worktype", "wtname", "wsort"}

  /** The name that goes with a code which is grouped by as well. */
  predicate NameColumn(c: string, groupby: seq<string>) {
    || (c == "bbreed" && "huohao" in groupby) || (c == "wtname" && "worktype" in groupby)
    || (c == "uname" && "uid" in groupby) || (c == "deptname" && "dept" in groupby)
  }

  predicate CodeColumn(c: string, groupby: seq<string>) { c in groupby && !NameColumn(c, groupby) }

  predicate SameCodes(a: Row, b: Row, groupby: seq<string>) {
    forall c :: c in groupby && !NameColumn(c, groupby) ==> Written(a, c) == Written(b, c)
  }

  // ---------------------------------------------------------------- the rows that were listed

  /** The business date of a row, if it has one. */
  function DayOf(row: Row): Option<int> {
    if "rq" !in row then None
    else
      match row["rq"]
      case Text(_, _, stamp, _) => stamp
      case Day(d) => Some(d)
      case Amount(_) => None
  }

  /** The cell holds a number, and not a negative one. */
  predicate Given(row: Row, column: string) {
    && column in row
    && match row[column]
       case Text(s, Some(v), _, _) => s != "" && v >= 0.0
       case Amount(v) => v >= 0.0
       case _ => false
  }

  const Figures: set<string> := {"bs", "fhsl", "sssl", "zpsl", "wgs", "wts"}

  /** The row has a date, every requested column, and all six figures. */
  predicate Reviewable(row: Row, groupby: seq<string>) {
    && DayOf(row).Some? && (forall c :: c in groupby ==> c in row) && (forall m :: m in Figures ==> Given(row, m))
  }

  /** Rows of one group have one name for each code, and one date where sheets are grouped by. */
  predicate Consistent(a: Row, b: Row, groupby: seq<string>) {
    && (forall c :: c in groupby && NameColumn(c, groupby) && c in a && c in b ==> a[c] == b[c])
    && ("dh" in groupby ==> DayOf(a) == DayOf(b))
  }

  /** The figures of the rows with the same codes, added up. */
  function AddedAlike(rows: seq<Row>, like: Row, groupby: seq<string>, column: string): real {
    if rows == [] then 0.0
    else
      AddedAlike(rows[1..], like, groupby, column) +
        (if SameCodes(rows[0], like, groupby) then Worth(rows[0], column) else 0.0)
  }

  /** A hundred times received over issued; nothing where nothing was issued. */
  function Completion(received: real, issued: real): real {
    if issued == 0.0 then 0.0 else 100.0 * received / issued
  }

  /** The columns of a group's row: those asked for, with the date where sheets are, the figures and the percentage. */
  ghost predicate Labelled(out: Row, row: Row, groupby: seq<string>) {
    && out.Keys == (set c | c in groupby) + (if "dh" in groupby then {"rq"} else {}) + Figures + {"wcl"}
    && (forall c :: c in groupby ==> c in row && out[c] == row[c])
    && ("dh" in groupby ==> DayOf(row).Some? && out["rq"] == Day(DayOf(row).value))
  }

  /** The sums over all rows with the codes of the given one, and the rounded percentage of two of them. */
  ghost predicate Summed(out: Row, row: Row, rows: seq<Row>, groupby: seq<string>) {
    && (forall m :: m in Figures ==> Get(out, m) == Amount(AddedAlike(rows, row, groupby, m)))
    && Get(out, "wcl") == Amount(HalfUp(Completion(AddedAlike(rows, row, groupby, "sssl"),
                                                   AddedAlike(rows, row, groupby, "fhsl"))))
  }

  ghost predicate GroupOf(out: Row, row: Row, rows: seq<Row>, groupby: seq<string>) {
    Labelled(out, row, groupby) && Summed(out, row, rows, groupby)
  }

  ghost predicate SomeGroup(out: Row, rows: seq<Row>, groupby: seq<string>) {
    exists row :: row in rows && GroupOf(out, row, rows, groupby)
  }

  /** In the first code column, by name, in which the rows differ, the one is before the other. */
  ghost predicate Ascends(a: Row, b: Row, groupby: seq<string>) {
    exists c :: CodeColumn(c, groupby) && FirstDifference(a, b, groupby, c)
  }

  ghost predicate FirstDifference(a: Row, b: Row, groupby: seq<string>, c: string) {
    && Before(Written(a, c), Written(b, c))
    && forall d :: CodeColumn(d, groupby) && Before(d, c) ==> Written(a, d) == Written(b, d)
  }

  // ---------------------------------------------------------------- codes are keys

  lemma WrittenIsText(row: Row, c: string)
    ensures Written(row, c) == TextOf(Get(row, c))
  {
  }

  lemma {:induction false} DedupMembers(xs: seq<string>, x: string)
    ensures x in Dedup(xs) <==> x in xs
  {
    if xs != [] {
      DedupMembers(xs[..|xs| - 1], x);
      assert xs == xs[..|xs| - 1] + [xs[|xs| - 1]];
    }
  }

  lemma GrainColumns(groupby: seq<string>, c: string)
    ensures c in GrainOf(groupby).columns <==> c in groupby
    ensures c in GrainOf(groupby).names <==> c in groupby && NameColumn(c, groupby)
    ensures c in GrainOf(groupby).keys <==> CodeColumn(c, groupby)
  {
    var columns := Dedup(groupby);
    DedupMembers(groupby, c);
    DedupMembers(groupby, "huohao");
    DedupMembers(groupby, "worktype");
    DedupMembers(groupby, "uid");
    DedupMembers(groupby, "dept");
    NamesMeant(columns, c);
    KeysOfGrain(columns, NameFields(columns), c);
  }

  lemma NamesMeant(columns: seq<string>, c: string)
    ensures c in NameFields(columns) <==> c in columns && NameColumn(c, columns)
  {
    assert DimensionNames["huohao"] == "bbreed" && DimensionNames["worktype"] == "wtname";
    assert DimensionNames["uid"] == "uname" && DimensionNames["dept"] == "deptname";
  }

  lemma SameKey(a: Row, b: Row, groupby: seq<string>)
    ensures KeyOf(a, GrainOf(groupby)) == KeyOf(b, GrainOf(groupby)) <==> SameCodes(a, b, groupby)
  {
    var keys := GrainOf(groupby).keys;
    forall c
      ensures c in keys <==> c in groupby && !NameColumn(c, groupby)
      ensures Written(a, c) == TextOf(Get(a, c)) && Written(b, c) == TextOf(Get(b, c))
    {
      GrainColumns(groupby, c);
    }
    if KeyOf(a, GrainOf(groupby)) == KeyOf(b, GrainOf(groupby)) {
      forall c | c in groupby && !NameColumn(c, groupby)
        ensures Written(a, c) == Written(b, c)
      {
        var i :| 0 <= i < |keys| && keys[i] == c;
        assert KeyOf(a, GrainOf(groupby))[i] == KeyOf(b, GrainOf(groupby))[i];
      }
    }
  }

  // ---------------------------------------------------------------- derived rows

  /** A derived row differs from the listed one in its date columns only. */
  lemma DerivedCells(row: Row, derived: Row, c: string)
    requires DeriveRow(row) == Some(derived) && c != "rq" && c != "dh_date"
    ensures (c in derived <==> c in row) && Get(derived, c) == Get(row, c)
    ensures Written(derived, c) == Written(row, c) && Worth(derived, c) == Worth(row, c)
    ensures c in row ==> derived[c] == row[c]
  {
  }

  lemma DerivedDay(row: Row)
    ensures DeriveRow(row).Some? <==> DayOf(row).Some?
    ensures DeriveRow(row).Some? ==> Get(DeriveRow(row).value, "rq") == Day(DayOf(row).value)
  {
  }

  /** No documented grain names a date column. */
  ghost predicate Undated(groupby: seq<string>) { "rq" !in groupby && "dh_date" !in groupby }

  lemma DerivedCodes(a: Row, b: Row, x: Row, y: Row, groupby: seq<string>)
    requires Undated(groupby) && DeriveRow(a) == Some(x) && DeriveRow(b) == Some(y)
    ensures SameCodes(x, y, groupby) <==> SameCodes(a, b, groupby)
  {
    forall c | c in groupby
      ensures Written(x, c) == Written(a, c) && Written(y, c) == Written(b, c)
    {
      DerivedCells(a, x, c);
      DerivedCells(b, y, c);
    }
  }

  // ---------------------------------------------------------------- when a grouping is answered

  lemma ReviewedMeant(groupby: seq<string>)
    ensures Reviewed(GrainOf(groupby)) <==> (set c | c in groupby) in {SheetGrain, PackageGrain, EmployeeGrain}
  {
    var columns := GrainOf(groupby).columns;
    forall c
      ensures c in columns <==> c in groupby
    {
      GrainColumns(groupby, c);
    }
    assert (set c | c in columns) == (set c | c in groupby);
  }

  lemma ReviewedUndated(groupby: seq<string>)
    requires Reviewed(GrainOf(groupby))
    ensures Undated(groupby)
  {
    ReviewedMeant(groupby);
    var all := set c | c in groupby;
    assert "rq" !in all && "dh_date" !in all;
  }

  lemma GivenIsContribution(row: Row, m: Measure)
    ensures Contribution(row, m).Some? <==> Given(row, m.Column())
    ensures Contribution(row, m).Some? ==> Contribution(row, m).value == Worth(row, m.Column())
  {
  }

  lemma ContributesMeant(row: Row)
    ensures Contributes(row) <==> forall m :: m in Figures ==> Given(row, m)
  {
    forall m: Measure
      ensures Contribution(row, m).Some? <==> Given(row, m.Column())
    {
      GivenIsContribution(row, m);
    }
    assert Bs.Column() == "bs" && Fhsl.Column() == "fhsl" && Sssl.Column() == "sssl";
    assert Zpsl.Column() == "zpsl" && Wgs.Column() == "wgs" && Wts.Column() == "wts";
    assert forall m: Measure :: m.Column() in Figures;
  }

  lemma GivenDerived(row: Row, derived: Row, m: string)
    requires DeriveRow(row) == Some(derived) && m in Figures
    ensures Given(derived, m) <==> Given(row, m)
  {
    DerivedCells(row, derived, m);
  }

  lemma FitsMeant(row: Row, derived: Row, groupby: seq<string>)
    requires Undated(groupby) && DeriveRow(row) == Some(derived)
    ensures Fits(derived, GrainOf(groupby)) <==> Reviewable(row, groupby)
  {
    DerivedDay(row);
    ContributesMeant(derived);
    forall m | m in Figures
      ensures Given(derived, m) <==> Given(row, m)
    {
      GivenDerived(row, derived, m);
    }
    forall c
      ensures c in GrainOf(groupby).columns <==> c in groupby
      ensures c in groupby ==> (c in derived <==> c in row)
    {
      GrainColumns(groupby, c);
      if c in groupby {
        DerivedCells(row, derived, c);
      }
    }
  }

  lemma CompatibleMeant(a: Row, b: Row, x: Row, y: Row, groupby: seq<string>)
    requires Undated(groupby) && DeriveRow(a) == Some(x) && DeriveRow(b) == Some(y)
    requires forall c :: c in groupby ==> c in a && c in b
    ensures Compatible(x, y, GrainOf(groupby)) <==> (SameCodes(a, b, groupby) ==> Consistent(a, b, groupby))
  {
    SameKey(x, y, groupby);
    DerivedCodes(a, b, x, y, groupby);
    DerivedDay(a);
    DerivedDay(b);
    GrainColumns(groupby, "dh");
    forall c
      ensures c in GrainOf(groupby).names <==> c in groupby && NameColumn(c, groupby)
      ensures c in groupby ==> Get(x, c) == a[c] && Get(y, c) == b[c]
    {
      GrainColumns(groupby, c);
      if c in groupby {
        DerivedCells(a, x, c);
        DerivedCells(b, y, c);
      }
    }
  }

  /** Every row can be used, and no two rows with the same codes contradict each other. */
  ghost predicate AllReviewable(rows: seq<Row>, groupby: seq<string>) {
    && (forall row :: row in rows ==> Reviewable(row, groupby))
    && (forall a, b :: a in rows && b in rows && SameCodes(a, b, groupby) ==> Consistent(a, b, groupby))
  }

  lemma AcceptableMeant(rows: seq<Row>, groupby: seq<string>)
    requires Undated(groupby) && Derive(rows).Some?
    ensures Acceptable(Derive(rows).value, GrainOf(groupby)) <==> AllReviewable(rows, groupby)
  {
    var detail, grain := Derive(rows).value, GrainOf(groupby);
    DeriveRowwise(rows);
    forall i | 0 <= i < |rows|
      ensures Fits(detail[i], grain) <==> Reviewable(rows[i], groupby)
    {
      FitsMeant(rows[i], detail[i], groupby);
    }
    if Acceptable(detail, grain) || AllReviewable(rows, groupby) {
      forall i, j | 0 <= i < |rows| && 0 <= j < |rows|
        ensures Compatible(detail[i], detail[j], grain) <==>
                (SameCodes(rows[i], rows[j], groupby) ==> Consistent(rows[i], rows[j], groupby))
      {
        assert Reviewable(rows[i], groupby) && Reviewable(rows[j], groupby);
        CompatibleMeant(rows[i], rows[j], detail[i], detail[j], groupby);
      }
    }
    if Acceptable(detail, grain) {
      AcceptedRows(rows, detail, groupby);
    }
  }

  lemma AcceptedRows(rows: seq<Row>, detail: seq<Row>, groupby: seq<string>)
    requires |detail| == |rows|
    requires forall i :: 0 <= i < |rows| ==> Reviewable(rows[i], groupby)
    requires forall i, j :: 0 <= i < |rows| && 0 <= j < |rows| && SameCodes(rows[i], rows[j], groupby) ==>
               Consistent(rows[i], rows[j], groupby)
    ensures AllReviewable(rows, groupby)
  {
  }

  /**
    A grouping is answered if and only if its columns, in any listing, are one of the documented
    grains, every row has a date, those columns and its six figures, and rows with the same codes
    have the same names and, where sheets are grouped by, the same date.
  */
  lemma GroupingAnswered(rows: seq<Row>, groupby: seq<string>)
    requires groupby != []
    ensures Aggregate(rows, groupby).Some? <==>
            (set c | c in groupby) in {SheetGrain, PackageGrain, EmployeeGrain} && AllReviewable(rows, groupby)
  {
    var grain := GrainOf(groupby);
    GrainColumns(groupby, groupby[0]);
    ReviewedMeant(groupby);
    if Reviewed(grain) {
      ReviewedUndated(groupby);
      DeriveRowwise(rows);
      forall row | row in rows
        ensures DeriveRow(row).Some? <==> DayOf(row).Some?
      {
        DerivedDay(row);
      }
      if AllReviewable(rows, groupby) {
        forall i | 0 <= i < |rows|
          ensures DeriveRow(rows[i]).Some?
        {
          assert Reviewable(rows[i], groupby);
        }
      }
      if Derive(rows).Some? {
        AcceptableMeant(rows, groupby);
      }
    }
  }

  // ---------------------------------------------------------------- what an answered grouping holds

  lemma {:induction false} AlikeAdds(rows: seq<Row>, detail: seq<Row>, row: Row, derived: Row, groupby: seq<string>,
                                     m: Measure)
    requires Undated(groupby) && |detail| == |rows| && DeriveRow(row) == Some(derived)
    requires forall i :: 0 <= i < |rows| ==> DeriveRow(rows[i]) == Some(detail[i]) && Contributes(detail[i])
    ensures GroupTotal(detail, GrainOf(groupby), KeyOf(derived, GrainOf(groupby)), m) ==
            AddedAlike(rows, row, groupby, m.Column())
  {
    if rows != [] {
      AlikeAdds(rows[1..], detail[1..], row, derived, groupby, m);
      SameKey(detail[0], derived, groupby);
      DerivedCodes(rows[0], row, detail[0], derived, groupby);
      DerivedCells(rows[0], detail[0], m.Column());
      GivenIsContribution(detail[0], m);
    }
  }

  lemma GroupSums(rows: seq<Row>, detail: seq<Row>, groupby: seq<string>, i: nat, m: Measure)
    requires i < |rows| && AllReviewable(rows, groupby) && Undated(groupby) && Derive(rows) == Some(detail)
    ensures i < |detail|
    ensures GroupTotals(detail, GrainOf(groupby), KeyOf(detail[i], GrainOf(groupby))).Of(m) ==
            AddedAlike(rows, rows[i], groupby, m.Column())
  {
    DeriveRowwise(rows);
    AllContribute(rows, detail, groupby);
    AlikeAdds(rows, detail, rows[i], detail[i], groupby, m);
    TallyOf(k => GroupTotal(detail, GrainOf(groupby), KeyOf(detail[i], GrainOf(groupby)), k), m);
  }

  lemma TallyOf(f: Measure -> real, m: Measure)
    ensures Tally(f).Of(m) == f(m)
  {
  }

  /** The row of one group, in terms of the first listed row of the group. */
  lemma GroupRowHolds(rows: seq<Row>, detail: seq<Row>, groupby: seq<string>, i: nat)
    requires i < |rows| && AllReviewable(rows, groupby) && Reviewed(GrainOf(groupby)) && Derive(rows) == Some(detail)
    requires i < |detail| && Leader(detail, GrainOf(groupby), KeyOf(detail[i], GrainOf(groupby))) == detail[i]
    ensures GroupOf(GroupRow(detail, GrainOf(groupby), KeyOf(detail[i], GrainOf(groupby))), rows[i], rows, groupby)
  {
    var totals := GroupTotals(detail, GrainOf(groupby), KeyOf(detail[i], GrainOf(groupby)));
    ReviewedUndated(groupby);
    ReviewedIsWellFormed(groupby);
    DeriveRowwise(rows);
    forall m: Measure
      ensures totals.Of(m) == AddedAlike(rows, rows[i], groupby, m.Column())
    {
      GroupSums(rows, detail, groupby, i, m);
    }
    assert Reviewable(rows[i], groupby);
    LabelsHold(detail[i], totals, rows[i], groupby);
    SumsHold(totals, Dimensions(detail[i], GrainOf(groupby)), rows[i], rows, groupby);
  }

  lemma AllContribute(rows: seq<Row>, detail: seq<Row>, groupby: seq<string>)
    requires Undated(groupby) && AllReviewable(rows, groupby) && Derive(rows) == Some(detail)
    ensures |detail| == |rows| && forall i :: 0 <= i < |rows| ==> Contributes(detail[i])
  {
    DeriveRowwise(rows);
    forall i | 0 <= i < |rows|
      ensures Contributes(detail[i])
    {
      assert Reviewable(rows[i], groupby);
      FitsMeant(rows[i], detail[i], groupby);
    }
  }

  lemma OutputCells(dimensions: Row, totals: Totals)
    ensures var out := OutputRow(dimensions, totals);
            && Get(out, "bs") == Amount(totals.bs) && Get(out, "fhsl") == Amount(totals.fhsl)
            && Get(out, "sssl") == Amount(totals.sssl) && Get(out, "zpsl") == Amount(totals.zpsl)
            && Get(out, "wgs") == Amount(totals.wgs) && Get(out, "wts") == Amount(totals.wts)
            && Get(out, "wcl") == Amount(HalfUp(Completion(totals.sssl, totals.fhsl)))
  {
    CompletionIsPercentage(totals.sssl, totals.fhsl);
  }

  lemma SumsHold(totals: Totals, dimensions: Row, row: Row, rows: seq<Row>, groupby: seq<string>)
    requires forall m: Measure :: totals.Of(m) == AddedAlike(rows, row, groupby, m.Column())
    ensures Summed(OutputRow(dimensions, totals), row, rows, groupby)
  {
    OutputCells(dimensions, totals);
    var added := (c: string) => AddedAlike(rows, row, groupby, c);
    assert totals.bs == totals.Of(Bs) == added(Bs.Column());
    assert totals.fhsl == totals.Of(Fhsl) == added(Fhsl.Column());
    assert totals.sssl == totals.Of(Sssl) == added(Sssl.Column());
    assert totals.zpsl == totals.Of(Zpsl) == added(Zpsl.Column());
    assert totals.wgs == totals.Of(Wgs) == added(Wgs.Column());
    assert totals.wts == totals.Of(Wts) == added(Wts.Column());
  }

  lemma CompletionIsPercentage(received: real, issued: real)
    ensures Completion(received, issued) == Percentage(received, issued)
  {
    if issued != 0.0 {
      assert 100.0 * received / issued == received / issued * 100.0;
    }
  }

  lemma DimensionsHold(derived: Row, row: Row, groupby: seq<string>)
    requires Undated(groupby) && DeriveRow(row) == Some(derived)
    requires forall c :: c in groupby ==> c in row
    ensures var dimensions := Dimensions(derived, GrainOf(groupby));
            && dimensions.Keys == (set c | c in groupby) + (if "dh" in groupby then {"rq"} else {})
            && (forall c :: c in groupby ==> c in dimensions && dimensions[c] == row[c])
            && ("dh" in groupby ==> dimensions["rq"] == Day(DayOf(row).value))
  {
    var grain := GrainOf(groupby);
    DerivedDay(row);
    forall c
      ensures c in grain.columns <==> c in groupby
      ensures c in groupby ==> Get(derived, c) == row[c]
    {
      GrainColumns(groupby, c);
      if c in groupby {
        DerivedCells(row, derived, c);
      }
    }
  }

  lemma LabelsHold(derived: Row, totals: Totals, row: Row, groupby: seq<string>)
    requires Undated(groupby) && GrainOf(groupby).WellFormed() && DeriveRow(row) == Some(derived)
    requires forall c :: c in groupby ==> c in row
    ensures Labelled(OutputRow(Dimensions(derived, GrainOf(groupby)), totals), row, groupby)
  {
    DimensionsHold(derived, row, groupby);
    DerivedDay(row);
    forall c | c in groupby
      ensures c !in Figures && c != "wcl"
    {
      GrainColumns(groupby, c);
    }
    Overlaid(Dimensions(derived, GrainOf(groupby)), totals);
  }

  lemma Overlaid(dimensions: Row, totals: Totals)
    ensures var out := OutputRow(dimensions, totals);
            && out.Keys == dimensions.Keys + Figures + {"wcl"}
            && forall c :: c in dimensions && c !in Figures && c != "wcl" ==> out[c] == dimensions[c]
  {
  }

  /** Every group is the group of some listed row. */
  lemma EveryGroupHolds(rows: seq<Row>, groupby: seq<string>, k: nat)
    requires groupby != [] && Aggregate(rows, groupby).Some? && k < |Aggregate(rows, groupby).value|
    ensures SomeGroup(Aggregate(rows, groupby).value[k], rows, groupby)
  {
    var grain, detail := GrainOf(groupby), Derive(rows).value;
    GroupingAnswered(rows, groupby);
    GrainColumns(groupby, groupby[0]);
    DeriveRowwise(rows);
    var keys := Sort(KeysIn(detail, grain), TupleLe);
    SortMembers(KeysIn(detail, grain), k);
    KeysInMembers(detail, grain, keys[k]);
    LeaderIsMember(detail, grain, keys[k]);
    var i :| 0 <= i < |detail| && detail[i] == Leader(detail, grain, keys[k]);
    GroupRowHolds(rows, detail, groupby, i);
    assert rows[i] in rows;
  }

  /** Every listed row has a group with its codes. */
  lemma EveryRowGrouped(rows: seq<Row>, groupby: seq<string>, i: nat)
    requires groupby != [] && Aggregate(rows, groupby).Some? && i < |rows|
    ensures exists k :: 0 <= k < |Aggregate(rows, groupby).value| &&
                SameCodes(Aggregate(rows, groupby).value[k], rows[i], groupby)
  {
    var grain, detail, out := GrainOf(groupby), Derive(rows).value, Aggregate(rows, groupby).value;
    GrainColumns(groupby, groupby[0]);
    ReviewedUndated(groupby);
    ReviewedIsWellFormed(groupby);
    DeriveRowwise(rows);
    var keys := Sort(KeysIn(detail, grain), TupleLe);
    KeysInMembers(detail, grain, KeyOf(detail[i], grain));
    SortKeeps(KeysIn(detail, grain), TupleLe);
    assert KeyOf(detail[i], grain) in multiset(keys);
    var k :| 0 <= k < |keys| && keys[k] == KeyOf(detail[i], grain);
    GroupHasKey(detail, groupby, keys[k]);
    SameKey(out[k], detail[i], groupby);
    DerivedCodes(rows[i], rows[i], detail[i], detail[i], groupby);
    forall c | c in groupby
      ensures Written(detail[i], c) == Written(rows[i], c)
    {
      DerivedCells(rows[i], detail[i], c);
    }
  }

  lemma GroupHasKey(detail: seq<Row>, groupby: seq<string>, key: seq<string>)
    requires GrainOf(groupby).WellFormed() && key in KeysIn(detail, GrainOf(groupby))
    ensures KeyOf(GroupRow(detail, GrainOf(groupby), key), GrainOf(groupby)) == key
  {
    var grain := GrainOf(groupby);
    KeysInMembers(detail, grain, key);
    LeaderIsMember(detail, grain, key);
    OutputKeepsKey(Leader(detail, grain, key), GroupTotals(detail, grain, key), grain);
  }

  lemma OutputKeepsKey(row: Row, totals: Totals, grain: Grain)
    requires grain.WellFormed()
    ensures KeyOf(OutputRow(Dimensions(row, grain), totals), grain) == KeyOf(row, grain)
  {
    var dimensions := Dimensions(row, grain);
    Overlaid(dimensions, totals);
    forall i | 0 <= i < |grain.keys|
      ensures Get(OutputRow(dimensions, totals), grain.keys[i]) == Get(row, grain.keys[i])
    {
      var c := grain.keys[i];
      assert c in grain.columns && c !in Figures && c != "wcl" && c in dimensions;
    }
  }

  // ---------------------------------------------------------------- the order of the groups

  lemma KeyColumnsAscend(groupby: seq<string>, i: nat, j: nat)
    requires i < |GrainOf(groupby).keys| && j < |GrainOf(groupby).keys|
    requires Before(GrainOf(groupby).keys[i], GrainOf(groupby).keys[j])
    ensures i < j
  {
    var columns := Dedup(groupby);
    var plain, keys := Without(columns, NameFields(columns)), GrainOf(groupby).keys;
    TextOrdered();
    SortSorts(plain, TextLe);
    NotBeforeItself(keys[i]);
    if j < i {
      assert TextLe(keys[j], keys[i]);
      TextLeMeans(keys[i], keys[j]);
      TextAntisymmetric(keys[i], keys[j]);
    }
  }

  lemma TextOrdered()
    ensures TotalPreorder(TextLe)
  {
    forall a: string, b: string
      ensures TextLe(a, b) || TextLe(b, a)
    {
      TextTotal(a, b);
    }
    forall a: string, b: string, c: string | TextLe(a, b) && TextLe(b, c)
      ensures TextLe(a, c)
    {
      TextTransitive(a, b, c);
    }
  }

  lemma SortedOnce(keys: seq<seq<string>>, sorted: seq<seq<string>>, i: nat, j: nat)
    requires forall p, q :: 0 <= p < q < |keys| ==> keys[p] != keys[q]
    requires multiset(sorted) == multiset(keys) && i < j < |sorted|
    ensures sorted[i] != sorted[j]
  {
    CountOnce(keys, sorted[i]);
    assert sorted == sorted[..j] + [sorted[j]] + sorted[j + 1..];
    assert sorted[i] == sorted[..j][i];
    assert sorted[i] in multiset(sorted[..j]);
  }

  lemma DistinctSorted(keys: seq<seq<string>>, i: nat, j: nat)
    requires forall p, q :: 0 <= p < q < |keys| ==> keys[p] != keys[q]
    requires i < j < |Sort(keys, TupleLe)|
    ensures TupleLe(Sort(keys, TupleLe)[i], Sort(keys, TupleLe)[j])
    ensures Sort(keys, TupleLe)[i] != Sort(keys, TupleLe)[j]
  {
    TupleOrder();
    SortSorts(keys, TupleLe);
    SortKeeps(keys, TupleLe);
    SortedOnce(keys, Sort(keys, TupleLe), i, j);
  }

  lemma KeysAscend(a: Row, b: Row, groupby: seq<string>)
    requires TupleLe(KeyOf(a, GrainOf(groupby)), KeyOf(b, GrainOf(groupby)))
    requires KeyOf(a, GrainOf(groupby)) != KeyOf(b, GrainOf(groupby))
    ensures Ascends(a, b, groupby)
  {
    var keys := GrainOf(groupby).keys;
    var x, y := KeyOf(a, GrainOf(groupby)), KeyOf(b, GrainOf(groupby));
    TupleLeMeans(x, y);
    var n :| 0 <= n < |x| && TupleDeparts(x, y, n);
    GrainColumns(groupby, keys[n]);
    WrittenIsText(a, keys[n]);
    WrittenIsText(b, keys[n]);
    forall d | CodeColumn(d, groupby) && Before(d, keys[n])
      ensures Written(a, d) == Written(b, d)
    {
      GrainColumns(groupby, d);
      var i :| 0 <= i < |keys| && keys[i] == d;
      KeyColumnsAscend(groupby, i, n);
      assert x[..n][i] == y[..n][i];
      WrittenIsText(a, d);
      WrittenIsText(b, d);
    }
    assert FirstDifference(a, b, groupby, keys[n]);
  }

  /** The groups ascend, so that no two have the same codes. */
  lemma GroupsAscend(rows: seq<Row>, groupby: seq<string>, i: nat, j: nat)
    requires groupby != [] && Aggregate(rows, groupby).Some? && i < j < |Aggregate(rows, groupby).value|
    ensures Ascends(Aggregate(rows, groupby).value[i], Aggregate(rows, groupby).value[j], groupby)
  {
    var grain, detail, out := GrainOf(groupby), Derive(rows).value, Aggregate(rows, groupby).value;
    GrainColumns(groupby, groupby[0]);
    ReviewedIsWellFormed(groupby);
    KeysInDistinct(detail, grain);
    DistinctSorted(KeysIn(detail, grain), i, j);
    SortMembers(KeysIn(detail, grain), i);
    SortMembers(KeysIn(detail, grain), j);
    GroupHasKey(detail, groupby, Sort(KeysIn(detail, grain), TupleLe)[i]);
    GroupHasKey(detail, groupby, Sort(KeysIn(detail, grain), TupleLe)[j]);
    KeysAscend(out[i], out[j], groupby);
  }

  /**
    An answered grouping: each group is that of a listed row, with its columns, its date where sheets
    are grouped by, the sums over all rows with its codes and their percentage; every listed row has
    its group; and the groups ascend.
  */
  lemma GroupingHolds(rows: seq<Row>, groupby: seq<string>)
    requires groupby != [] && Aggregate(rows, groupby).Some?
    ensures var out := Aggregate(rows, groupby).value;
            && (forall k :: 0 <= k < |out| ==> SomeGroup(out[k], rows, groupby))
            && (forall row :: row in rows ==> exists k :: 0 <= k < |out| && SameCodes(out[k], row, groupby))
            && (forall i, j :: 0 <= i < j < |out| ==> Ascends(out[i], out[j], groupby))
  {
    var out := Aggregate(rows, groupby).value;
    forall k | 0 <= k < |out|
      ensures SomeGroup(out[k], rows, groupby)
    {
      EveryGroupHolds(rows, groupby, k);
    }
    forall row | row in rows
      ensures exists k :: 0 <= k < |out| && SameCodes(out[k], row, groupby)
    {
      var i :| 0 <= i < |rows| && rows[i] == row;
      EveryRowGrouped(rows, groupby, i);
    }
    forall i, j | 0 <= i < j < |out|
      ensures Ascends(out[i], out[j], groupby)
    {
      GroupsAscend(rows, groupby, i, j);
    }
  }

  /** The date of a group is the date of every listed row with its codes. */
  lemma OneDateForAll(rows: seq<Row>, groupby: seq<string>, k: nat, row: Row)
    requires groupby != [] && Aggregate(rows, groupby).Some? && k < |Aggregate(rows, groupby).value|
    requires "dh" in groupby && row in rows && SameCodes(Aggregate(rows, groupby).value[k], row, groupby)
    ensures DayOf(row).Some? && Get(Aggregate(rows, groupby).value[k], "rq") == Day(DayOf(row).value)
  {
    var out := Aggregate(rows, groupby).value[k];
    EveryGroupHolds(rows, groupby, k);
    GroupingAnswered(rows, groupby);
    var leader :| leader in rows && GroupOf(out, leader, rows, groupby);
    LeaderDate(out, leader, row, rows, groupby);
  }

  lemma LeaderDate(out: Row, leader: Row, row: Row, rows: seq<Row>, groupby: seq<string>)
    requires AllReviewable(rows, groupby) && leader in rows && row in rows && Labelled(out, leader, groupby)
    requires "dh" in groupby && SameCodes(out, row, groupby)
    ensures DayOf(row).Some? && Get(out, "rq") == Day(DayOf(row).value)
  {
    assert SameCodes(leader, row, groupby);
    assert Consistent(leader, row, groupby);
  }
}
