/**
  Progress detail: normalising the business date of every row, and projecting detail onto a
  reviewed grain by adding contributions and recomputing the completion percentage.
*/
module Progress {
  import opened Wrappers
  import opened Sorting
  import opened TextOrder
  import opened Table

  datatype ProgressError =
    | InvalidProgressDate
    | UnsupportedGrain
    | MissingDimension
    | InconsistentName
    | InconsistentDate
    | BadContribution

  const DateColumn := "rq"

  /** The six documented additive columns. */
  datatype Measure = Bs | Fhsl | Sssl | Zpsl | Wgs | Wts {
    function Column(): string {
      match this
      case Bs => "bs"
      case Fhsl => "fhsl"
      case Sssl => "sssl"
      case Zpsl => "zpsl"
      case Wgs => "wgs"
      case Wts => "wts"
    }
  }

  datatype Totals = Totals(bs: real, fhsl: real, sssl: real, zpsl: real, wgs: real, wts: real) {
    function Of(m: Measure): real {
      match m
      case Bs => bs
      case Fhsl => fhsl
      case Sssl => sssl
      case Zpsl => zpsl
      case Wgs => wgs
      case Wts => wts
    }

    function Plus(other: Totals): Totals {
      Totals(bs + other.bs, fhsl + other.fhsl, sssl + other.sssl, zpsl + other.zpsl, wgs + other.wgs, wts + other.wts)
    }
  }

  const Additive: set<string> := {"bs", "fhsl", "sssl", "zpsl", "wgs", "wts"}

  const NoTotals := Totals(0.0, 0.0, 0.0, 0.0, 0.0, 0.0)

  const ReviewedGrains: set<set<string>> := {
    {"dh", "jhdh", "chuanghao", "huohao", "bbreed", "dept", "deptname"},
    {"dh", "baohao", "userid", "color", "chima"},
    {"userid", "uid", "uname", "dept", "deptname", "worktype", "wtname", "wsort"}
  }

  const DimensionNames: map<string, string> :=
    map["huohao" := "bbreed", "worktype" := "wtname", "uid" := "uname", "dept" := "deptname"]

  /** Cells of detail are texts; only the business date may already be normalised. */
  predicate DetailRow(row: Row) { forall c :: c in row && c != DateColumn ==> row[c].Text? }

  predicate DetailRows(rows: seq<Row>) { forall i :: 0 <= i < |rows| ==> DetailRow(rows[i]) }

  // ---------------------------------------------------------------- the business date

  function DeriveRow(row: Row): Option<Row> {
    match BusinessDay(Get(row, DateColumn))
    case None => None
    case Some(d) => Some(row[DateColumn := Day(d)] - {"dh_date"})
  }

  /** All rows or none: a row without a valid date rejects the whole set. */
  function Derive(rows: seq<Row>): Option<seq<Row>> {
    if rows == [] then Some([])
    else
      var n := |rows| - 1;
      match (Derive(rows[..n]), DeriveRow(rows[n]))
      case (Some(done), Some(last)) => Some(done + [last])
      case _ => None
  }

  method DeriveProgressRows(rows: seq<Row>) returns (r: Result<seq<Row>, ProgressError>)
    ensures r == match Derive(rows) case None => Err(InvalidProgressDate) case Some(derived) => Ok(derived)
  {
    var enriched: seq<Row> := [];
    for i := 0 to |rows|
      invariant Derive(rows[..i]) == Some(enriched)
    {
      assert rows[..i + 1][..i] == rows[..i];
      var day := BusinessDay(Get(rows[i], DateColumn));
      if day.None? {
        DeriveNeedsAll(rows, i);
        return Err(InvalidProgressDate);
      }
      enriched := enriched + [rows[i][DateColumn := Day(day.value)] - {"dh_date"}];
    }
    assert rows[..|rows|] == rows;
    return Ok(enriched);
  }

  lemma {:induction false} DeriveNeedsAll(rows: seq<Row>, i: nat)
    requires i < |rows| && DeriveRow(rows[i]).None?
    ensures Derive(rows) == None
  {
    if i < |rows| - 1 {
      DeriveNeedsAll(rows[..|rows| - 1], i);
    }
  }

  /** Derivation is row by row. */
  lemma {:induction false} DeriveRowwise(rows: seq<Row>)
    ensures Derive(rows).Some? <==> forall i :: 0 <= i < |rows| ==> DeriveRow(rows[i]).Some?
    ensures Derive(rows).Some? ==> |Derive(rows).value| == |rows|
    ensures Derive(rows).Some? ==> forall i :: 0 <= i < |rows| ==> DeriveRow(rows[i]) == Some(Derive(rows).value[i])
  {
    if rows != [] {
      var n := |rows| - 1;
      DeriveRowwise(rows[..n]);
      if Derive(rows[..n]).Some? && DeriveRow(rows[n]).Some? {
        forall i | 0 <= i < |rows|
          ensures DeriveRow(rows[i]) == Some(Derive(rows).value[i])
        {
          if i < n {
            assert DeriveRow(rows[..n][i]) == Some(Derive(rows[..n]).value[i]);
          }
        }
      } else if Derive(rows[..n]).None? {
        var i :| 0 <= i < n && DeriveRow(rows[..n][i]).None?;
        assert DeriveRow(rows[i]).None?;
      }
    }
  }

  /** Rows whose date is normalised and that carry no derived date column are left alone. */
  predicate Normal(row: Row) { DateColumn in row && row[DateColumn].Day? && "dh_date" !in row }

  predicate NormalRows(rows: seq<Row>) { forall i :: 0 <= i < |rows| ==> Normal(rows[i]) }

  lemma DeriveRowNormal(row: Row)
    ensures DeriveRow(row).Some? ==> Normal(DeriveRow(row).value)
    ensures Normal(row) ==> DeriveRow(row) == Some(row)
    ensures DetailRow(row) && DeriveRow(row).Some? ==> DetailRow(DeriveRow(row).value)
  {
    if Normal(row) {
      assert row[DateColumn := row[DateColumn]] - {"dh_date"} == row;
    }
  }

  /** Derived rows are normal, and deriving normal rows changes nothing. */
  lemma DeriveNormal(rows: seq<Row>)
    ensures Derive(rows).Some? ==> NormalRows(Derive(rows).value)
    ensures NormalRows(rows) ==> Derive(rows) == Some(rows)
    ensures Derive(rows).Some? && DetailRows(rows) ==> DetailRows(Derive(rows).value)
  {
    DeriveRowwise(rows);
    forall i | 0 <= i < |rows|
      ensures DeriveRow(rows[i]).Some? ==> Normal(DeriveRow(rows[i]).value)
      ensures Normal(rows[i]) ==> DeriveRow(rows[i]) == Some(rows[i])
      ensures DetailRow(rows[i]) && DeriveRow(rows[i]).Some? ==> DetailRow(DeriveRow(rows[i]).value)
    {
      DeriveRowNormal(rows[i]);
    }
    if NormalRows(rows) {
      assert Derive(rows).value == rows;
    }
  }

  // ---------------------------------------------------------------- grains

  /** The distinct requested columns, the name columns among them, and the columns of the key. */
  datatype Grain = Grain(columns: seq<string>, names: set<string>, keys: seq<string>) {
    predicate Dated() { "dh" in columns }

    ghost predicate WellFormed() {
      && (forall c :: c in columns ==> c in keys || c in names)
      && (forall c :: c in keys || c in names ==> c in columns)
      && DateColumn !in columns
      && (forall c :: c in columns ==> c !in Additive && c != "wcl")
    }
  }

  function Dedup(xs: seq<string>): seq<string> {
    if xs == [] then []
    else
      var rest := Dedup(xs[..|xs| - 1]);
      if xs[|xs| - 1] in rest then rest else rest + [xs[|xs| - 1]]
  }

  function NameFields(columns: seq<string>): set<string> {
    set code | code in DimensionNames && code in columns && DimensionNames[code] in columns :: DimensionNames[code]
  }

  function Without(xs: seq<string>, drop: set<string>): seq<string> {
    if xs == [] then [] else if xs[0] in drop then Without(xs[1..], drop) else [xs[0]] + Without(xs[1..], drop)
  }

  function GrainOf(groupby: seq<string>): Grain {
    var columns := Dedup(groupby);
    Grain(columns, NameFields(columns), Sort(Without(columns, NameFields(columns)), TextLe))
  }

  predicate Reviewed(grain: Grain) { (set c | c in grain.columns) in ReviewedGrains }

  lemma {:induction false} WithoutMembers(xs: seq<string>, drop: set<string>, x: string)
    ensures x in Without(xs, drop) <==> x in xs && x !in drop
  {
    if xs != [] {
      WithoutMembers(xs[1..], drop, x);
      assert xs == [xs[0]] + xs[1..];
    }
  }

  /** No reviewed grain names a measure, the percentage or the date itself. */
  lemma ReviewedColumns(all: set<string>, c: string)
    requires all in ReviewedGrains && c in all
    ensures c != DateColumn && c != "wcl" && c !in Additive
  {
    assert |c| == 2 ==> c[0] == 'd';
    assert |c| == 3 ==> c[0] == 'u';
    assert |c| == 4 ==> c[0] == 'j' || c == "dept";
  }

  lemma KeysOfGrain(columns: seq<string>, names: set<string>, c: string)
    ensures c in Sort(Without(columns, names), TextLe) <==> c in columns && c !in names
  {
    var plain := Without(columns, names);
    SortKeeps(plain, TextLe);
    WithoutMembers(columns, names, c);
    assert c in Sort(plain, TextLe) <==> c in multiset(plain);
  }

  lemma ReviewedIsWellFormed(groupby: seq<string>)
    requires Reviewed(GrainOf(groupby))
    ensures GrainOf(groupby).WellFormed()
  {
    var grain := GrainOf(groupby);
    var all := set c | c in grain.columns;
    forall c
      ensures c in grain.keys <==> c in grain.columns && c !in grain.names
    {
      KeysOfGrain(grain.columns, grain.names, c);
    }
    forall c | c in grain.columns
      ensures c != DateColumn && c != "wcl" && c !in Additive
    {
      assert c in all;
      ReviewedColumns(all, c);
    }
  }

  // ---------------------------------------------------------------- the declarative group-sum

  function KeyOf(row: Row, grain: Grain): seq<string> {
    seq(|grain.keys|, i requires 0 <= i < |grain.keys| => TextOf(Get(row, grain.keys[i])))
  }

  /** A contribution is a finite decimal, and not negative. */
  function Contribution(row: Row, m: Measure): Option<real> {
    if IsBlank(Get(row, m.Column())) then None
    else
      match NumberOf(Get(row, m.Column()))
      case None => None
      case Some(v) => if v < 0.0 then None else Some(v)
  }

  predicate HasColumns(row: Row, grain: Grain) { forall c :: c in grain.columns ==> c in row }

  predicate Contributes(row: Row) { forall m: Measure :: Contribution(row, m).Some? }

  predicate Fits(row: Row, grain: Grain) { HasColumns(row, grain) && Contributes(row) }

  predicate NamesAgree(a: Row, b: Row, grain: Grain) { forall c :: c in grain.names ==> Get(a, c) == Get(b, c) }

  predicate DatesAgree(a: Row, b: Row, grain: Grain) { grain.Dated() ==> Get(a, DateColumn) == Get(b, DateColumn) }

  ghost predicate Compatible(a: Row, b: Row, grain: Grain) {
    KeyOf(a, grain) == KeyOf(b, grain) ==> NamesAgree(a, b, grain) && DatesAgree(a, b, grain)
  }

  /** Every row fits, and the rows of one group have one name for each code and one date. */
  ghost predicate Acceptable(rows: seq<Row>, grain: Grain) {
    && (forall i :: 0 <= i < |rows| ==> Fits(rows[i], grain))
    && (forall i, j :: 0 <= i < |rows| && 0 <= j < |rows| ==> Compatible(rows[i], rows[j], grain))
  }

  function Share(row: Row, grain: Grain, key: seq<string>, m: Measure): real {
    if KeyOf(row, grain) == key && Contribution(row, m).Some? then Contribution(row, m).value else 0.0
  }

  /** The contributions of one group to one column, added up. */
  function GroupTotal(rows: seq<Row>, grain: Grain, key: seq<string>, m: Measure): real {
    Sum(rows, row => Share(row, grain, key, m))
  }

  function Dimensions(row: Row, grain: Grain): Row {
    var dimensions := map c | c in grain.columns :: Get(row, c);
    if grain.Dated() then dimensions[DateColumn := Get(row, DateColumn)] else dimensions
  }

  /** The first row of a group. */
  function Leader(rows: seq<Row>, grain: Grain, key: seq<string>): Row {
    if rows == [] then map[]
    else if KeyOf(rows[0], grain) == key then rows[0]
    else Leader(rows[1..], grain, key)
  }

  function OutputRow(dimensions: Row, totals: Totals): Row {
    dimensions + map[
      "bs" := Amount(totals.bs), "fhsl" := Amount(totals.fhsl), "sssl" := Amount(totals.sssl),
      "zpsl" := Amount(totals.zpsl), "wgs" := Amount(totals.wgs), "wts" := Amount(totals.wts),
      "wcl" := Amount(HalfUp(Percentage(totals.sssl, totals.fhsl)))]
  }

  function Tally(f: Measure -> real): Totals { Totals(f(Bs), f(Fhsl), f(Sssl), f(Zpsl), f(Wgs), f(Wts)) }

  function GroupTotals(rows: seq<Row>, grain: Grain, key: seq<string>): Totals {
    Tally(m => GroupTotal(rows, grain, key, m))
  }

  function RowTotals(row: Row): Totals
    requires Contributes(row)
  {
    Totals(Contribution(row, Bs).value, Contribution(row, Fhsl).value, Contribution(row, Sssl).value,
           Contribution(row, Zpsl).value, Contribution(row, Wgs).value, Contribution(row, Wts).value)
  }

  function GroupRow(rows: seq<Row>, grain: Grain, key: seq<string>): Row {
    OutputRow(Dimensions(Leader(rows, grain, key), grain), GroupTotals(rows, grain, key))
  }

  /** The keys of the groups in order of first appearance. */
  function KeysIn(rows: seq<Row>, grain: Grain): seq<seq<string>> {
    if rows == [] then []
    else
      var n := |rows| - 1;
      var rest := KeysIn(rows[..n], grain);
      if KeyOf(rows[n], grain) in rest then rest else rest + [KeyOf(rows[n], grain)]
  }

  function Arrange(rows: seq<Row>, grain: Grain, keys: seq<seq<string>>): seq<Row> {
    seq(|keys|, i requires 0 <= i < |keys| => GroupRow(rows, grain, keys[i]))
  }

  /** One output row per group, in order of the keys. */
  function Grouped(rows: seq<Row>, grain: Grain): seq<Row> {
    Arrange(rows, grain, Sort(KeysIn(rows, grain), TupleLe))
  }

  /** What aggregation yields, or nothing when it is refused. */
  ghost function Aggregate(rows: seq<Row>, groupby: seq<string>): Option<seq<Row>> {
    var grain := GrainOf(groupby);
    if grain.columns == [] then Derive(rows)
    else if !Reviewed(grain) then None
    else
      match Derive(rows)
      case None => None
      case Some(detail) => if Acceptable(detail, grain) then Some(Grouped(detail, grain)) else None
  }

  // ---------------------------------------------------------------- the accumulation loop

  lemma {:induction false} KeysInMembers(rows: seq<Row>, grain: Grain, key: seq<string>)
    ensures key in KeysIn(rows, grain) <==> exists i :: 0 <= i < |rows| && KeyOf(rows[i], grain) == key
  {
    if rows != [] {
      var n := |rows| - 1;
      KeysInMembers(rows[..n], grain, key);
      if key in KeysIn(rows[..n], grain) {
        var i :| 0 <= i < n && KeyOf(rows[..n][i], grain) == key;
        assert KeyOf(rows[i], grain) == key;
      }
      if exists i :: 0 <= i < |rows| && KeyOf(rows[i], grain) == key {
        var i :| 0 <= i < |rows| && KeyOf(rows[i], grain) == key;
        assert i < n ==> KeyOf(rows[..n][i], grain) == key;
      }
    }
  }

  lemma {:induction false} LeaderAppend(rows: seq<Row>, row: Row, grain: Grain, key: seq<string>)
    ensures Leader(rows + [row], grain, key) ==
            if exists i :: 0 <= i < |rows| && KeyOf(rows[i], grain) == key then Leader(rows, grain, key)
            else if KeyOf(row, grain) == key then row else map[]
  {
    if rows == [] {
      assert rows + [row] == [row] && [row][1..] == [];
    } else if KeyOf(rows[0], grain) == key {
    } else {
      LeaderAppend(rows[1..], row, grain, key);
      assert (rows + [row])[1..] == rows[1..] + [row];
      if exists i :: 0 <= i < |rows| && KeyOf(rows[i], grain) == key {
        var i :| 0 <= i < |rows| && KeyOf(rows[i], grain) == key;
        assert KeyOf(rows[1..][i - 1], grain) == key;
      }
    }
  }

  lemma {:induction false} LeaderIsMember(rows: seq<Row>, grain: Grain, key: seq<string>)
    requires exists i :: 0 <= i < |rows| && KeyOf(rows[i], grain) == key
    ensures Leader(rows, grain, key) in rows && KeyOf(Leader(rows, grain, key), grain) == key
  {
    if KeyOf(rows[0], grain) != key {
      var i :| 0 <= i < |rows| && KeyOf(rows[i], grain) == key;
      assert KeyOf(rows[1..][i - 1], grain) == key;
      LeaderIsMember(rows[1..], grain, key);
    }
  }

  lemma TotalAppend(rows: seq<Row>, row: Row, grain: Grain, key: seq<string>, m: Measure)
    ensures GroupTotal(rows + [row], grain, key, m) == GroupTotal(rows, grain, key, m) + Share(row, grain, key, m)
  {
    var weigh := (r: Row) => Share(r, grain, key, m);
    SumConcat(rows, [row], weigh);
    assert [row][1..] == [];
    assert Sum([row], weigh) == weigh(row) + Sum([], weigh);
  }

  lemma TotalsAppend(rows: seq<Row>, row: Row, grain: Grain, key: seq<string>)
    requires Contributes(row)
    ensures GroupTotals(rows + [row], grain, key) ==
            if KeyOf(row, grain) == key then GroupTotals(rows, grain, key).Plus(RowTotals(row))
            else GroupTotals(rows, grain, key)
  {
    TotalAppend(rows, row, grain, key, Bs);
    TotalAppend(rows, row, grain, key, Fhsl);
    TotalAppend(rows, row, grain, key, Sssl);
    TotalAppend(rows, row, grain, key, Zpsl);
    TotalAppend(rows, row, grain, key, Wgs);
    TotalAppend(rows, row, grain, key, Wts);
  }

  lemma {:induction false} NothingYet(rows: seq<Row>, grain: Grain, key: seq<string>, m: Measure)
    requires forall i :: 0 <= i < |rows| ==> KeyOf(rows[i], grain) != key
    ensures GroupTotal(rows, grain, key, m) == 0.0
  {
    if rows != [] {
      NothingYet(rows[1..], grain, key, m);
    }
  }

  lemma NoTotalsYet(rows: seq<Row>, grain: Grain, key: seq<string>)
    requires key !in KeysIn(rows, grain)
    ensures GroupTotals(rows, grain, key) == NoTotals
  {
    KeysInMembers(rows, grain, key);
    NothingYet(rows, grain, key, Bs);
    NothingYet(rows, grain, key, Fhsl);
    NothingYet(rows, grain, key, Sssl);
    NothingYet(rows, grain, key, Zpsl);
    NothingYet(rows, grain, key, Wgs);
    NothingYet(rows, grain, key, Wts);
  }

  /** The accumulator of one group. */
  datatype Group = Group(dimensions: Row, totals: Totals)

  ghost function GroupAfter(rows: seq<Row>, grain: Grain, key: seq<string>): Group {
    Group(Dimensions(Leader(rows, grain, key), grain), GroupTotals(rows, grain, key))
  }

  ghost predicate Tracks(groups: map<seq<string>, Group>, order: seq<seq<string>>, rows: seq<Row>, grain: Grain) {
    && order == KeysIn(rows, grain)
    && (forall key :: key in groups <==> key in order)
    && (forall key :: key in groups ==> groups[key] == GroupAfter(rows, grain, key))
  }

  lemma LeadAppend(rows: seq<Row>, row: Row, grain: Grain, key: seq<string>)
    requires key in KeysIn(rows, grain) || key == KeyOf(row, grain)
    ensures Leader(rows + [row], grain, key) == if key in KeysIn(rows, grain) then Leader(rows, grain, key) else row
  {
    KeysInMembers(rows, grain, key);
    LeaderAppend(rows, row, grain, key);
  }

  lemma OtherGroup(rows: seq<Row>, row: Row, grain: Grain, key: seq<string>)
    requires Contributes(row) && key in KeysIn(rows, grain) && key != KeyOf(row, grain)
    ensures GroupAfter(rows + [row], grain, key) == GroupAfter(rows, grain, key)
  {
    LeadAppend(rows, row, grain, key);
    TotalsAppend(rows, row, grain, key);
  }

  lemma OldGroup(rows: seq<Row>, row: Row, grain: Grain)
    requires Contributes(row) && KeyOf(row, grain) in KeysIn(rows, grain)
    ensures var before := GroupAfter(rows, grain, KeyOf(row, grain));
            GroupAfter(rows + [row], grain, KeyOf(row, grain)) ==
            Group(before.dimensions, before.totals.Plus(RowTotals(row)))
  {
    LeadAppend(rows, row, grain, KeyOf(row, grain));
    TotalsAppend(rows, row, grain, KeyOf(row, grain));
  }

  lemma NewGroup(rows: seq<Row>, row: Row, grain: Grain)
    requires Contributes(row) && KeyOf(row, grain) !in KeysIn(rows, grain)
    ensures GroupAfter(rows + [row], grain, KeyOf(row, grain)) ==
            Group(Dimensions(row, grain), NoTotals.Plus(RowTotals(row)))
  {
    LeadAppend(rows, row, grain, KeyOf(row, grain));
    TotalsAppend(rows, row, grain, KeyOf(row, grain));
    NoTotalsYet(rows, grain, KeyOf(row, grain));
  }

  lemma TracksAppend(groups: map<seq<string>, Group>, order: seq<seq<string>>, rows: seq<Row>, row: Row, grain: Grain)
    requires Tracks(groups, order, rows, grain) && Contributes(row)
    ensures var key := KeyOf(row, grain);
            var group := if key in groups then groups[key] else Group(Dimensions(row, grain), NoTotals);
            Tracks(groups[key := group.(totals := group.totals.Plus(RowTotals(row)))],
                   if key in groups then order else order + [key], rows + [row], grain)
  {
    var key := KeyOf(row, grain);
    assert (rows + [row])[..|rows|] == rows;
    forall k | k in order || k == key
      ensures GroupAfter(rows + [row], grain, k) ==
              if k != key then GroupAfter(rows, grain, k)
              else if k in order
              then Group(GroupAfter(rows, grain, k).dimensions, GroupAfter(rows, grain, k).totals.Plus(RowTotals(row)))
              else Group(Dimensions(row, grain), NoTotals.Plus(RowTotals(row)))
    {
      if k != key {
        OtherGroup(rows, row, grain, k);
      } else if key in order {
        OldGroup(rows, row, grain);
      } else {
        NewGroup(rows, row, grain);
      }
    }
  }

  /** Comparing every new row with the first of its group compares all rows of the group. */
  lemma AcceptableAppend(rows: seq<Row>, row: Row, grain: Grain)
    requires Acceptable(rows, grain) && Fits(row, grain)
    requires var key := KeyOf(row, grain);
             key in KeysIn(rows, grain) ==>
               NamesAgree(row, Leader(rows, grain, key), grain) && DatesAgree(row, Leader(rows, grain, key), grain)
    ensures Acceptable(rows + [row], grain)
  {
    var key := KeyOf(row, grain);
    KeysInMembers(rows, grain, key);
    forall i | 0 <= i < |rows|
      ensures Compatible(rows[i], row, grain) && Compatible(row, rows[i], grain)
    {
      if KeyOf(rows[i], grain) == key {
        LeaderIsMember(rows, grain, key);
        var j :| 0 <= j < |rows| && rows[j] == Leader(rows, grain, key);
        assert Compatible(rows[i], rows[j], grain);
      }
    }
  }

  lemma Unacceptable(rows: seq<Row>, i: nat, grain: Grain)
    requires i < |rows| && Fits(rows[i], grain)
    requires KeyOf(rows[i], grain) in KeysIn(rows[..i], grain)
    requires var leader := Leader(rows[..i], grain, KeyOf(rows[i], grain));
             !NamesAgree(rows[i], leader, grain) || !DatesAgree(rows[i], leader, grain)
    ensures !Acceptable(rows, grain)
  {
    var key := KeyOf(rows[i], grain);
    KeysInMembers(rows[..i], grain, key);
    LeaderIsMember(rows[..i], grain, key);
    var j :| 0 <= j < i && rows[..i][j] == Leader(rows[..i], grain, key);
    assert !Compatible(rows[i], rows[j], grain);
  }

  lemma DimensionsKeep(leader: Row, row: Row, grain: Grain)
    requires grain.WellFormed()
    ensures NamesAgree(row, Dimensions(leader, grain), grain) <==> NamesAgree(row, leader, grain)
    ensures DatesAgree(row, Dimensions(leader, grain), grain) <==> DatesAgree(row, leader, grain)
  {
    var dimensions := Dimensions(leader, grain);
    forall c | c in grain.names
      ensures Get(dimensions, c) == Get(leader, c)
    {
      assert c in grain.columns;
    }
  }

  /** The loop over detail, with the dictionary of groups it fills. */
  method Accumulate(rows: seq<Row>, grain: Grain)
    returns (r: Result<(map<seq<string>, Group>, seq<seq<string>>), ProgressError>)
    requires grain.WellFormed()
    ensures r.Ok? <==> Acceptable(rows, grain)
    ensures r.Ok? ==> Tracks(r.value.0, r.value.1, rows, grain)
  {
    var groups: map<seq<string>, Group> := map[];
    var order: seq<seq<string>> := [];
    for i := 0 to |rows|
      invariant Acceptable(rows[..i], grain)
      invariant Tracks(groups, order, rows[..i], grain)
    {
      var row := rows[i];
      assert rows[..i + 1] == rows[..i] + [row];
      if !HasColumns(row, grain) {
        assert !Fits(rows[i], grain);
        return Err(MissingDimension);
      }
      var key := KeyOf(row, grain);
      var group := if key in groups then groups[key] else Group(Dimensions(row, grain), NoTotals);
      if key in groups {
        DimensionsKeep(Leader(rows[..i], grain, key), row, grain);
        if !NamesAgree(row, group.dimensions, grain) {
          Mismatch(rows, i, grain);
          return Err(InconsistentName);
        }
        if !DatesAgree(row, group.dimensions, grain) {
          Mismatch(rows, i, grain);
          return Err(InconsistentDate);
        }
      }
      if !Contributes(row) {
        assert !Fits(rows[i], grain);
        return Err(BadContribution);
      }
      AcceptableAppend(rows[..i], row, grain);
      TracksAppend(groups, order, rows[..i], row, grain);
      if key !in groups {
        order := order + [key];
      }
      groups := groups[key := group.(totals := group.totals.Plus(RowTotals(row)))];
    }
    assert rows[..|rows|] == rows;
    return Ok((groups, order));
  }

  lemma Mismatch(rows: seq<Row>, i: nat, grain: Grain)
    requires i < |rows|
    requires KeyOf(rows[i], grain) in KeysIn(rows[..i], grain)
    requires var leader := Leader(rows[..i], grain, KeyOf(rows[i], grain));
             !NamesAgree(rows[i], leader, grain) || !DatesAgree(rows[i], leader, grain)
    ensures !Acceptable(rows, grain)
  {
    if Fits(rows[i], grain) {
      Unacceptable(rows, i, grain);
    }
  }

  lemma GroupEmits(groups: map<seq<string>, Group>, order: seq<seq<string>>, rows: seq<Row>, grain: Grain,
                   key: seq<string>)
    requires Tracks(groups, order, rows, grain) && key in order
    ensures key in groups && OutputRow(groups[key].dimensions, groups[key].totals) == GroupRow(rows, grain, key)
  {
    assert groups[key] == GroupAfter(rows, grain, key);
  }

  lemma SortMembers(order: seq<seq<string>>, i: nat)
    requires i < |Sort(order, TupleLe)|
    ensures Sort(order, TupleLe)[i] in order
  {
    SortKeeps(order, TupleLe);
    assert Sort(order, TupleLe)[i] in multiset(order);
  }

  /** The output so far is the rows of the first keys. */
  ghost predicate Emitted(output: seq<Row>, rows: seq<Row>, grain: Grain, keys: seq<seq<string>>) {
    |output| <= |keys| && forall j :: 0 <= j < |output| ==> output[j] == GroupRow(rows, grain, keys[j])
  }

  lemma EmittedAll(output: seq<Row>, rows: seq<Row>, grain: Grain, keys: seq<seq<string>>)
    requires Emitted(output, rows, grain, keys) && |output| == |keys|
    ensures output == Arrange(rows, grain, keys)
  {
  }

  lemma EmitNext(groups: map<seq<string>, Group>, order: seq<seq<string>>, output: seq<Row>, rows: seq<Row>,
                 grain: Grain)
    requires Tracks(groups, order, rows, grain) && Emitted(output, rows, grain, Sort(order, TupleLe))
    requires |output| < |Sort(order, TupleLe)|
    ensures var key := Sort(order, TupleLe)[|output|];
            && key in groups
            && Emitted(output + [OutputRow(groups[key].dimensions, groups[key].totals)], rows, grain,
                       Sort(order, TupleLe))
  {
    SortMembers(order, |output|);
    GroupEmits(groups, order, rows, grain, Sort(order, TupleLe)[|output|]);
  }

  method Emit(groups: map<seq<string>, Group>, order: seq<seq<string>>, ghost rows: seq<Row>, ghost grain: Grain)
    returns (output: seq<Row>)
    requires Tracks(groups, order, rows, grain)
    ensures output == Grouped(rows, grain)
  {
    var keys := Sort(order, TupleLe);
    output := [];
    for i := 0 to |keys|
      invariant |output| == i && Emitted(output, rows, grain, keys)
    {
      EmitNext(groups, order, output, rows, grain);
      var Group(dimensions, totals) := groups[keys[i]];
      output := output + [OutputRow(dimensions, totals)];
    }
    EmittedAll(output, rows, grain, keys);
  }

  /** Aggregation computes the declarative group-sum, and is refused exactly when that is undefined. */
  method AggregateProgressRows(rows: seq<Row>, groupby: seq<string>) returns (r: Result<seq<Row>, ProgressError>)
    ensures r.Ok? <==> Aggregate(rows, groupby).Some?
    ensures r.Ok? ==> r.value == Aggregate(rows, groupby).value
  {
    var grain := GrainOf(groupby);
    if grain.columns == [] {
      r := DeriveProgressRows(rows);
      return;
    }
    if !Reviewed(grain) {
      return Err(UnsupportedGrain);
    }
    ReviewedIsWellFormed(groupby);
    var derived := DeriveProgressRows(rows);
    if derived.Err? {
      return derived;
    }
    var accumulated := Accumulate(derived.value, grain);
    if accumulated.Err? {
      return Err(accumulated.error);
    }
    var output := Emit(accumulated.value.0, accumulated.value.1, derived.value, grain);
    return Ok(output);
  }

  // ---------------------------------------------------------------- order of rows does not matter

  lemma {:induction false} KeysInDistinct(rows: seq<Row>, grain: Grain)
    ensures forall i, j :: 0 <= i < j < |KeysIn(rows, grain)| ==> KeysIn(rows, grain)[i] != KeysIn(rows, grain)[j]
  {
    if rows != [] {
      KeysInDistinct(rows[..|rows| - 1], grain);
    }
  }

  lemma SameMembers(xs: seq<Row>, ys: seq<Row>, i: nat) returns (j: nat)
    requires multiset(xs) == multiset(ys) && i < |xs|
    ensures j < |ys| && ys[j] == xs[i]
  {
    assert xs[i] in multiset(ys);
    j :| 0 <= j < |ys| && ys[j] == xs[i];
  }

  lemma KeysPermute(xs: seq<Row>, ys: seq<Row>, grain: Grain, key: seq<string>)
    requires multiset(xs) == multiset(ys) && key in KeysIn(xs, grain)
    ensures key in KeysIn(ys, grain)
  {
    KeysInMembers(xs, grain, key);
    var i :| 0 <= i < |xs| && KeyOf(xs[i], grain) == key;
    var j := SameMembers(xs, ys, i);
    KeysInMembers(ys, grain, key);
  }

  /** Duplicate-free lists with the same members are permutations of each other. */
  lemma DistinctPermute(xs: seq<seq<string>>, ys: seq<seq<string>>)
    requires forall i, j :: 0 <= i < j < |xs| ==> xs[i] != xs[j]
    requires forall i, j :: 0 <= i < j < |ys| ==> ys[i] != ys[j]
    requires forall x :: x in xs <==> x in ys
    ensures multiset(xs) == multiset(ys)
  {
    forall x
      ensures multiset(xs)[x] == multiset(ys)[x]
    {
      CountOnce(xs, x);
      CountOnce(ys, x);
    }
  }

  lemma {:induction false} CountOnce(xs: seq<seq<string>>, x: seq<string>)
    requires forall i, j :: 0 <= i < j < |xs| ==> xs[i] != xs[j]
    ensures multiset(xs)[x] == if x in xs then 1 else 0
  {
    if xs != [] {
      CountOnce(xs[1..], x);
      assert xs == [xs[0]] + xs[1..];
      assert xs[0] !in xs[1..];
    }
  }

  lemma TupleOrder()
    ensures TotalPreorder(TupleLe) && Antisymmetric(TupleLe)
  {
    forall a: seq<string>, b: seq<string>
      ensures TupleLe(a, b) || TupleLe(b, a)
      ensures TupleLe(a, b) && TupleLe(b, a) ==> a == b
    {
      TupleTotal(a, b);
      if TupleLe(a, b) && TupleLe(b, a) {
        TupleAntisymmetric(a, b);
      }
    }
    forall a: seq<string>, b: seq<string>, c: seq<string> | TupleLe(a, b) && TupleLe(b, c)
      ensures TupleLe(a, c)
    {
      TupleTransitive(a, b, c);
    }
  }

  lemma SortedKeysPermute(xs: seq<Row>, ys: seq<Row>, grain: Grain)
    requires multiset(xs) == multiset(ys)
    ensures Sort(KeysIn(xs, grain), TupleLe) == Sort(KeysIn(ys, grain), TupleLe)
  {
    var a, b := KeysIn(xs, grain), KeysIn(ys, grain);
    forall key
      ensures key in a <==> key in b
    {
      if key in a {
        KeysPermute(xs, ys, grain, key);
      }
      if key in b {
        KeysPermute(ys, xs, grain, key);
      }
    }
    KeysInDistinct(xs, grain);
    KeysInDistinct(ys, grain);
    DistinctPermute(a, b);
    SortKeeps(a, TupleLe);
    SortKeeps(b, TupleLe);
    TupleOrder();
    SortSorts(a, TupleLe);
    SortSorts(b, TupleLe);
    SortedIsUnique(Sort(a, TupleLe), Sort(b, TupleLe), TupleLe);
  }

  /** In an acceptable set, any two rows of a group have the same dimensions. */
  lemma DimensionsAgree(a: Row, b: Row, grain: Grain)
    requires grain.WellFormed() && DetailRow(a) && DetailRow(b) && HasColumns(a, grain) && HasColumns(b, grain)
    requires ReadAlike(a, b)
    requires KeyOf(a, grain) == KeyOf(b, grain) && Compatible(a, b, grain)
    ensures Dimensions(a, grain) == Dimensions(b, grain)
  {
    forall c | c in grain.columns
      ensures Get(a, c) == Get(b, c)
    {
      if c in grain.keys {
        var i :| 0 <= i < |grain.keys| && grain.keys[i] == c;
        assert KeyOf(a, grain)[i] == KeyOf(b, grain)[i];
        assert a[c].Text? && b[c].Text?;
      }
    }
  }

  lemma GroupRowPermutes(xs: seq<Row>, ys: seq<Row>, grain: Grain, key: seq<string>)
    requires grain.WellFormed() && multiset(xs) == multiset(ys)
    requires DetailRows(xs) && Legible(xs) && Acceptable(xs, grain) && key in KeysIn(xs, grain)
    ensures GroupRow(xs, grain, key) == GroupRow(ys, grain, key)
  {
    KeysInMembers(xs, grain, key);
    KeysPermute(xs, ys, grain, key);
    KeysInMembers(ys, grain, key);
    LeaderIsMember(xs, grain, key);
    LeaderIsMember(ys, grain, key);
    var a, b := Leader(xs, grain, key), Leader(ys, grain, key);
    assert b in multiset(xs);
    var i :| 0 <= i < |xs| && xs[i] == a;
    var j :| 0 <= j < |xs| && xs[j] == b;
    assert Compatible(xs[i], xs[j], grain) && ReadAlike(xs[i], xs[j]);
    DimensionsAgree(a, b, grain);
    TotalsPermute(xs, ys, grain, key);
  }

  lemma TotalsPermute(xs: seq<Row>, ys: seq<Row>, grain: Grain, key: seq<string>)
    requires multiset(xs) == multiset(ys)
    ensures GroupTotals(xs, grain, key) == GroupTotals(ys, grain, key)
  {
    forall m: Measure
      ensures GroupTotal(xs, grain, key, m) == GroupTotal(ys, grain, key, m)
    {
      SumPermutes(xs, ys, row => Share(row, grain, key, m));
    }
  }

  lemma AcceptablePermutes(xs: seq<Row>, ys: seq<Row>, grain: Grain)
    requires multiset(xs) == multiset(ys) && Acceptable(xs, grain)
    ensures Acceptable(ys, grain)
  {
    forall i | 0 <= i < |ys|
      ensures Fits(ys[i], grain)
    {
      var k := SameMembers(ys, xs, i);
    }
    forall i, j | 0 <= i < |ys| && 0 <= j < |ys|
      ensures Compatible(ys[i], ys[j], grain)
    {
      var k := SameMembers(ys, xs, i);
      var l := SameMembers(ys, xs, j);
      assert Compatible(xs[k], xs[l], grain);
    }
  }

  lemma ArrangePermutes(xs: seq<Row>, ys: seq<Row>, grain: Grain, keys: seq<seq<string>>)
    requires forall key :: key in keys ==> GroupRow(xs, grain, key) == GroupRow(ys, grain, key)
    ensures Arrange(xs, grain, keys) == Arrange(ys, grain, keys)
  {
  }

  lemma GroupedPermutes(xs: seq<Row>, ys: seq<Row>, grain: Grain)
    requires multiset(xs) == multiset(ys) && DetailRows(xs) && Legible(xs) && grain.WellFormed() &&
             Acceptable(xs, grain)
    ensures Grouped(xs, grain) == Grouped(ys, grain)
  {
    var keys := Sort(KeysIn(xs, grain), TupleLe);
    forall key | key in keys
      ensures GroupRow(xs, grain, key) == GroupRow(ys, grain, key)
    {
      var i :| 0 <= i < |keys| && keys[i] == key;
      SortMembers(KeysIn(xs, grain), i);
      GroupRowPermutes(xs, ys, grain, key);
    }
    ArrangePermutes(xs, ys, grain, keys);
    SortedKeysPermute(xs, ys, grain);
  }

  /** Whether detail aggregates, and what it aggregates to, depend on the rows and not on their order. */
  lemma GroupingIgnoresOrder(xs: seq<Row>, ys: seq<Row>, grain: Grain)
    requires multiset(xs) == multiset(ys) && DetailRows(xs) && Legible(xs) && grain.WellFormed()
    ensures Acceptable(xs, grain) <==> Acceptable(ys, grain)
    ensures Acceptable(xs, grain) ==> Grouped(xs, grain) == Grouped(ys, grain)
  {
    if Acceptable(xs, grain) {
      AcceptablePermutes(xs, ys, grain);
      GroupedPermutes(xs, ys, grain);
    }
    if Acceptable(ys, grain) {
      AcceptablePermutes(ys, xs, grain);
    }
  }

  lemma {:induction false} DeriveConcat(a: seq<Row>, b: seq<Row>)
    ensures Derive(a + b) ==
            if Derive(a).Some? && Derive(b).Some? then Some(Derive(a).value + Derive(b).value) else None
  {
    if b == [] {
      assert a + b == a;
      assert Derive(a).Some? ==> Derive(a).value + [] == Derive(a).value;
    } else {
      var n := |b| - 1;
      assert (a + b)[..|a| + n] == a + b[..n] && (a + b)[|a| + n] == b[n];
      DeriveConcat(a, b[..n]);
      if Derive(a).Some? && Derive(b).Some? {
        var last := [DeriveRow(b[n]).value];
        assert Derive(a).value + (Derive(b[..n]).value + last) == (Derive(a).value + Derive(b[..n]).value) + last;
      }
    }
  }

  /** Derivation permutes with the rows. */
  lemma {:induction false} DerivePermutes(xs: seq<Row>, ys: seq<Row>)
    requires multiset(xs) == multiset(ys) && Derive(xs).Some?
    ensures Derive(ys).Some? && multiset(Derive(ys).value) == multiset(Derive(xs).value)
  {
    if xs == [] {
      assert |multiset(ys)| == |ys| == 0;
    } else {
      var j := FindHead(xs, ys);
      var before, after, head := ys[..j], ys[j + 1..], [xs[0]];
      assert xs == head + xs[1..] && ys == before + (head + after);
      DeriveConcat(head, xs[1..]);
      DerivePermutes(xs[1..], before + after);
      DeriveConcat(before, after);
      DeriveConcat(head, after);
      DeriveConcat(before, head + after);
    }
  }

  lemma DerivedIsLegible(rows: seq<Row>)
    requires Legible(rows) && Derive(rows).Some?
    ensures Legible(Derive(rows).value)
  {
    var derived := Derive(rows).value;
    DeriveRowwise(rows);
    forall i, j | 0 <= i < |derived| && 0 <= j < |derived|
      ensures ReadAlike(derived[i], derived[j])
    {
      assert ReadAlike(rows[i], rows[j]);
      assert DeriveRow(rows[i]) == Some(derived[i]) && DeriveRow(rows[j]) == Some(derived[j]);
    }
  }

  /**
    Aggregation of raw rows: whether it succeeds depends on the multiset of rows only. With a
    grouping so does the output itself, without one so does the multiset of its rows.
  */
  lemma AggregateIgnoresOrder(xs: seq<Row>, ys: seq<Row>, groupby: seq<string>)
    requires multiset(xs) == multiset(ys) && DetailRows(xs) && Legible(xs)
    ensures GrainOf(groupby).columns != [] ==> Aggregate(xs, groupby) == Aggregate(ys, groupby)
    ensures Aggregate(xs, groupby).Some? <==> Aggregate(ys, groupby).Some?
    ensures Aggregate(xs, groupby).Some? ==>
            multiset(Aggregate(xs, groupby).value) == multiset(Aggregate(ys, groupby).value)
  {
    if Derive(xs).Some? {
      DerivePermutes(xs, ys);
      DeriveNormal(xs);
      DerivedIsLegible(xs);
      if Reviewed(GrainOf(groupby)) {
        ReviewedIsWellFormed(groupby);
        GroupingIgnoresOrder(Derive(xs).value, Derive(ys).value, GrainOf(groupby));
      }
    } else if Derive(ys).Some? {
      DerivePermutes(ys, xs);
    }
  }

  // ---------------------------------------------------------------- conservation

  /** All contributions to one column, whatever the group. */
  function ColumnTotal(rows: seq<Row>, m: Measure): real {
    Sum(rows, row => if Contribution(row, m).Some? then Contribution(row, m).value else 0.0)
  }

  /** The totals of the given groups, added up. */
  function AcrossGroups(rows: seq<Row>, grain: Grain, keys: seq<seq<string>>, m: Measure): real {
    if keys == [] then 0.0 else GroupTotal(rows, grain, keys[0], m) + AcrossGroups(rows, grain, keys[1..], m)
  }

  lemma {:induction false} AcrossAppend(rows: seq<Row>, row: Row, grain: Grain, keys: seq<seq<string>>, m: Measure)
    requires forall i, j :: 0 <= i < j < |keys| ==> keys[i] != keys[j]
    ensures AcrossGroups(rows + [row], grain, keys, m) ==
            AcrossGroups(rows, grain, keys, m) +
              (if KeyOf(row, grain) in keys then Share(row, grain, KeyOf(row, grain), m) else 0.0)
  {
    if keys != [] {
      AcrossAppend(rows, row, grain, keys[1..], m);
      TotalAppend(rows, row, grain, keys[0], m);
      assert keys == [keys[0]] + keys[1..] && keys[0] !in keys[1..];
    }
  }

  /** Grouping neither loses nor invents a contribution: the groups add up to the detail. */
  lemma {:induction false} GroupsAddUp(rows: seq<Row>, grain: Grain, keys: seq<seq<string>>, m: Measure)
    requires forall i, j :: 0 <= i < j < |keys| ==> keys[i] != keys[j]
    requires forall i :: 0 <= i < |rows| ==> KeyOf(rows[i], grain) in keys
    ensures AcrossGroups(rows, grain, keys, m) == ColumnTotal(rows, m)
  {
    if rows == [] {
      NoGroups(grain, keys, m);
    } else {
      var n := |rows| - 1;
      GroupsAddUp(rows[..n], grain, keys, m);
      AcrossAppend(rows[..n], rows[n], grain, keys, m);
      ColumnAppend(rows[..n], rows[n], m);
      assert rows == rows[..n] + [rows[n]];
    }
  }

  lemma ColumnAppend(rows: seq<Row>, row: Row, m: Measure)
    ensures ColumnTotal(rows + [row], m) ==
            ColumnTotal(rows, m) + (if Contribution(row, m).Some? then Contribution(row, m).value else 0.0)
  {
    var weigh := (row: Row) => if Contribution(row, m).Some? then Contribution(row, m).value else 0.0;
    SumConcat(rows, [row], weigh);
    assert [row][1..] == [];
    assert Sum([row], weigh) == weigh(row) + Sum([], weigh);
  }

  lemma {:induction false} NoGroups(grain: Grain, keys: seq<seq<string>>, m: Measure)
    ensures AcrossGroups([], grain, keys, m) == 0.0
  {
    if keys != [] {
      NoGroups(grain, keys[1..], m);
    }
  }

  // ---------------------------------------------------------------- the completion percentage

  /** Every row of the group received between `lo` and `hi` times what it was issued. */
  ghost predicate RatiosWithin(rows: seq<Row>, grain: Grain, key: seq<string>, lo: real -> real, hi: real -> real) {
    forall i :: 0 <= i < |rows| ==>
      lo(Share(rows[i], grain, key, Fhsl)) <= Share(rows[i], grain, key, Sssl) <= hi(Share(rows[i], grain, key, Fhsl))
  }

  lemma TotalsWithin(rows: seq<Row>, grain: Grain, key: seq<string>, lo: real -> real, hi: real -> real)
    requires RatiosWithin(rows, grain, key, lo, hi) && Linear(lo) && Linear(hi)
    ensures lo(GroupTotal(rows, grain, key, Fhsl)) <= GroupTotal(rows, grain, key, Sssl) <=
            hi(GroupTotal(rows, grain, key, Fhsl))
  {
    SumsWithin(rows, row => Share(row, grain, key, Fhsl), row => Share(row, grain, key, Sssl), lo, hi);
  }

  lemma QuotientBounds(s: real, f: real, a: real)
    requires f > 0.0
    ensures a * f <= s ==> a <= s / f
    ensures s <= a * f ==> s / f <= a
  {
    var q := s / f;
    assert q * f == s;
    assert (q - a) * f == s - a * f;
  }

  lemma RatioBounds(s: real, f: real, lo: real, hi: real)
    requires f > 0.0 && Times(lo)(f) <= s <= Times(hi)(f)
    ensures lo * 100.0 <= Percentage(s, f) <= hi * 100.0
  {
    QuotientBounds(s, f, lo);
    QuotientBounds(s, f, hi);
  }

  lemma GroupAverage(rows: seq<Row>, grain: Grain, key: seq<string>, lo: real, hi: real)
    requires RatiosWithin(rows, grain, key, Times(lo), Times(hi)) && GroupTotal(rows, grain, key, Fhsl) > 0.0
    ensures lo * 100.0 <= Percentage(GroupTotal(rows, grain, key, Sssl), GroupTotal(rows, grain, key, Fhsl)) <=
            hi * 100.0
  {
    var lower, upper := Times(lo), Times(hi);
    ScalingIsLinear(lo);
    ScalingIsLinear(hi);
    TotalsWithin(rows, grain, key, lower, upper);
    RatioBounds(GroupTotal(rows, grain, key, Sssl), GroupTotal(rows, grain, key, Fhsl), lo, hi);
  }

  /**
    A group's completion is an average of its rows': when something was issued it lies between the
    least and the greatest row ratio, and the printed figure is within half a hundredth of it.
  */
  lemma CompletionIsAverage(rows: seq<Row>, grain: Grain, key: seq<string>, lo: real, hi: real)
    requires RatiosWithin(rows, grain, key, Times(lo), Times(hi)) && GroupTotal(rows, grain, key, Fhsl) > 0.0
    ensures var exact := Percentage(GroupTotal(rows, grain, key, Sssl), GroupTotal(rows, grain, key, Fhsl));
            && lo * 100.0 <= exact <= hi * 100.0
            && exact - 0.005 <= HalfUp(exact) <= exact + 0.005
            && GroupRow(rows, grain, key)["wcl"] == Amount(HalfUp(exact))
  {
    GroupAverage(rows, grain, key, lo, hi);
    HalfUpRounds(Percentage(GroupTotal(rows, grain, key, Sssl), GroupTotal(rows, grain, key, Fhsl)));
  }
}
