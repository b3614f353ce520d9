/**
  Footers: `<column>_total` figures beside a row set. A footer from the customer system is checked
  against its rows before they enter the cache; a served footer is recomputed from the served rows.
  An empty map stands for a missing footer.
*/
module Footer {
  import opened Wrappers
  import opened Sorting
  import opened TextOrder
  import opened Table
  import opened Progress

  type FooterMap = map<string, Cell>

  function ColumnOfKey(key: string): Option<string> {
    if |key| >= 6 && key[|key| - 6..] == "_total" then Some(key[..|key| - 6]) else None
  }

  predicate Present(rows: seq<Row>, column: string) { exists i :: 0 <= i < |rows| && column in rows[i] }

  /** A blank adds nothing; any other cell must be a number. */
  function Reading(row: Row, column: string): Option<real> {
    if IsBlank(Get(row, column)) then Some(0.0) else NumberOf(Get(row, column))
  }

  function Figure(row: Row, column: string): real {
    if Reading(row, column).Some? then Reading(row, column).value else 0.0
  }

  predicate Readable(rows: seq<Row>, column: string) {
    forall i :: 0 <= i < |rows| ==> Reading(rows[i], column).Some?
  }

  function ColumnSum(rows: seq<Row>, column: string): Option<real> {
    if Readable(rows, column) then Some(Sum(rows, row => Figure(row, column))) else None
  }

  /** The percentage footer is a ratio of two sums, not a sum of ratios. */
  function RatioFor(rows: seq<Row>): Option<real> {
    if !Present(rows, "sssl") || !Present(rows, "fhsl") then None
    else
      match (ColumnSum(rows, "sssl"), ColumnSum(rows, "fhsl"))
      case (Some(received), Some(issued)) => Some(HalfUp(Percentage(received, issued)))
      case _ => None
  }

  function TotalFor(rows: seq<Row>, key: string): Option<real> {
    match ColumnOfKey(key)
    case None => None
    case Some(column) =>
      if column == "wcl" then RatioFor(rows)
      else if rows != [] && !Present(rows, column) then None
      else ColumnSum(rows, column)
  }

  function Recomputed(rows: seq<Row>, footer: FooterMap): FooterMap {
    map key | key in footer && TotalFor(rows, key).Some? :: Amount(TotalFor(rows, key).value)
  }

  function Abs(x: real): real { if x < 0.0 then -x else x }

  function Greater(x: real, y: real): real { if x < y then y else x }

  /** Whole totals must match exactly, others and the wage column within a relative tolerance. */
  predicate Close(column: string, total: real, expected: real, tolerance: real) {
    if column != "je" && expected == expected.Floor as real then total == expected
    else Abs(total - expected) <= Allowance(expected, tolerance)
  }

  function Allowance(expected: real, tolerance: real): real { tolerance * Greater(Abs(expected), 1.0) }

  /** The columns a footer speaks of. */
  function Wanted(footer: FooterMap): set<string> {
    set key | key in footer && ColumnOfKey(key).Some? :: ColumnOfKey(key).value
  }

  /** The columns met, row by row, until all the wanted ones have been. */
  function Seen(rows: seq<Row>, wanted: set<string>, present: set<string>): set<string> {
    if rows == [] then present
    else if wanted <= present + rows[0].Keys then present + rows[0].Keys
    else Seen(rows[1..], wanted, present + rows[0].Keys)
  }

  /** The ratio footer is checked only if both its columns were met before the search ended. */
  predicate ChecksRatio(rows: seq<Row>, footer: FooterMap) {
    {"sssl", "fhsl"} <= Seen(rows, Wanted(footer), {})
  }

  predicate KeyReconciles(rows: seq<Row>, checksRatio: bool, key: string, expected: Cell, tolerance: real) {
    match ColumnOfKey(key)
    case None => true
    case Some(column) =>
      if rows == [] then NumberOf(expected) == Some(0.0)
      else if column == "wcl" then
        checksRatio ==>
          && RatioFor(rows).Some? && NumberOf(expected).Some?
          && RatioFor(rows).value == HalfUp(NumberOf(expected).value)
      else
        Present(rows, column) ==>
          && ColumnSum(rows, column).Some? && NumberOf(expected).Some?
          && Close(column, ColumnSum(rows, column).value, NumberOf(expected).value, tolerance)
  }

  /** Every total a footer announces for a column of the rows is the total of that column. */
  predicate Reconciles(rows: seq<Row>, footer: FooterMap, tolerance: real) {
    forall key :: key in footer ==> KeyReconciles(rows, ChecksRatio(rows, footer), key, footer[key], tolerance)
  }

  // ---------------------------------------------------------------- the loops

  lemma FigureAppend(rows: seq<Row>, row: Row, column: string)
    ensures Sum(rows + [row], r => Figure(r, column)) == Sum(rows, r => Figure(r, column)) + Figure(row, column)
  {
    var weigh := (r: Row) => Figure(r, column);
    SumConcat(rows, [row], weigh);
    assert [row][1..] == [];
    assert Sum([row], weigh) == weigh(row) + Sum([], weigh);
  }

  method SumColumn(rows: seq<Row>, column: string) returns (total: Option<real>)
    ensures total == ColumnSum(rows, column)
  {
    var sum := 0.0;
    for i := 0 to |rows|
      invariant Readable(rows[..i], column)
      invariant sum == Sum(rows[..i], row => Figure(row, column))
    {
      var value := Get(rows[i], column);
      FigureAppend(rows[..i], rows[i], column);
      assert rows[..i + 1] == rows[..i] + [rows[i]];
      if !IsBlank(value) {
        if NumberOf(value).None? {
          assert Reading(rows[i], column).None?;
          return None;
        }
        sum := sum + NumberOf(value).value;
      }
    }
    assert rows[..|rows|] == rows;
    return Some(sum);
  }

  method TotalOf(rows: seq<Row>, key: string) returns (total: Option<real>)
    ensures total == TotalFor(rows, key)
  {
    var column := ColumnOfKey(key);
    if column.None? {
      return None;
    }
    if column.value == "wcl" {
      if !Present(rows, "sssl") || !Present(rows, "fhsl") {
        return None;
      }
      var received := SumColumn(rows, "sssl");
      var issued := SumColumn(rows, "fhsl");
      if received.None? || issued.None? {
        return None;
      }
      return Some(HalfUp(Percentage(received.value, issued.value)));
    }
    if rows != [] && !Present(rows, column.value) {
      return None;
    }
    total := SumColumn(rows, column.value);
  }

  method RecomputedFooter(rows: seq<Row>, footer: FooterMap) returns (out: FooterMap)
    ensures out == Recomputed(rows, footer)
  {
    out := map[];
    var todo := footer.Keys;
    while todo != {}
      invariant todo <= footer.Keys
      invariant out == map key | key in footer && key !in todo &&
                TotalFor(rows, key).Some? :: Amount(TotalFor(rows, key).value)
      decreases |todo|
    {
      var key :| key in todo;
      todo := todo - {key};
      var total := TotalOf(rows, key);
      if total.Some? {
        out := out[key := Amount(total.value)];
      }
    }
  }

  method Observe(rows: seq<Row>, wanted: set<string>) returns (present: set<string>)
    ensures present == Seen(rows, wanted, {})
  {
    present := {};
    for i := 0 to |rows|
      invariant Seen(rows, wanted, {}) == Seen(rows[i..], wanted, present)
    {
      assert rows[i..][1..] == rows[i + 1..];
      present := present + rows[i].Keys;
      if wanted <= present {
        return;
      }
    }
  }

  /** Stopping early misses none of the columns that were looked for. */
  lemma {:induction false} SeenWanted(rows: seq<Row>, wanted: set<string>, present: set<string>, column: string)
    requires column in wanted
    ensures column in Seen(rows, wanted, present) <==> column in present || Present(rows, column)
  {
    if rows != [] {
      var now := present + rows[0].Keys;
      PresentHead(rows, column);
      if !(wanted <= now) {
        SeenWanted(rows[1..], wanted, now, column);
      }
    }
  }

  lemma PresentHead(rows: seq<Row>, column: string)
    requires rows != []
    ensures Present(rows, column) <==> column in rows[0] || Present(rows[1..], column)
  {
    if Present(rows[1..], column) {
      var i :| 0 <= i < |rows[1..]| && column in rows[1..][i];
      assert column in rows[i + 1];
    }
    if i :| 0 < i < |rows| && column in rows[i] {
      assert column in rows[1..][i - 1];
    }
  }

  method TotalAgrees(rows: seq<Row>, column: string, wanted: Option<real>, tolerance: real) returns (ok: bool)
    ensures ok <==>
            && ColumnSum(rows, column).Some? && wanted.Some?
            && Close(column, ColumnSum(rows, column).value, wanted.value, tolerance)
  {
    var total := SumColumn(rows, column);
    if total.None? || wanted.None? {
      return false;
    }
    if column != "je" && wanted.value == wanted.value.Floor as real {
      return total.value == wanted.value;
    }
    return Abs(total.value - wanted.value) <= Allowance(wanted.value, tolerance);
  }

  method RatioAgrees(rows: seq<Row>, wanted: Option<real>) returns (ok: bool)
    requires Present(rows, "sssl") && Present(rows, "fhsl")
    ensures ok <==> RatioFor(rows).Some? && wanted.Some? && RatioFor(rows).value == HalfUp(wanted.value)
  {
    var received := SumColumn(rows, "sssl");
    var issued := SumColumn(rows, "fhsl");
    if received.None? || issued.None? || wanted.None? {
      return false;
    }
    return HalfUp(Percentage(received.value, issued.value)) == HalfUp(wanted.value);
  }

  /** One key of the check, computed from the rows. */
  method KeyAgrees(rows: seq<Row>, present: set<string>, key: string, expected: Cell, tolerance: real)
    returns (ok: bool)
    requires ColumnOfKey(key).Some? ==> (ColumnOfKey(key).value in present <==> Present(rows, ColumnOfKey(key).value))
    requires {"sssl", "fhsl"} <= present ==> Present(rows, "sssl") && Present(rows, "fhsl")
    ensures ok == KeyReconciles(rows, {"sssl", "fhsl"} <= present, key, expected, tolerance)
  {
    var column, wanted := ColumnOfKey(key), NumberOf(expected);
    if column.None? {
      return true;
    }
    if rows == [] {
      return wanted == Some(0.0);
    }
    if column.value == "wcl" {
      if !({"sssl", "fhsl"} <= present) {
        return true;
      }
      ok := RatioAgrees(rows, wanted);
      return;
    }
    if column.value !in present {
      return true;
    }
    ok := TotalAgrees(rows, column.value, wanted, tolerance);
  }

  method FooterReconciles(rows: seq<Row>, footer: FooterMap, tolerance: real) returns (ok: bool)
    ensures ok == Reconciles(rows, footer, tolerance)
  {
    var present := Observe(rows, Wanted(footer));
    SeenIsPresent(rows, Wanted(footer), {}, "sssl");
    SeenIsPresent(rows, Wanted(footer), {}, "fhsl");
    var todo := footer.Keys;
    while todo != {}
      invariant todo <= footer.Keys
      invariant forall key :: key in footer && key !in todo ==>
                  KeyReconciles(rows, ChecksRatio(rows, footer), key, footer[key], tolerance)
      decreases |todo|
    {
      var key :| key in todo;
      todo := todo - {key};
      if ColumnOfKey(key).Some? {
        SeenWanted(rows, Wanted(footer), {}, ColumnOfKey(key).value);
      }
      var agrees := KeyAgrees(rows, present, key, footer[key], tolerance);
      if !agrees {
        return false;
      }
    }
    return true;
  }

  lemma {:induction false} SeenIsPresent(rows: seq<Row>, wanted: set<string>, present: set<string>, column: string)
    ensures column in Seen(rows, wanted, present) ==> column in present || Present(rows, column)
  {
    if rows != [] {
      PresentHead(rows, column);
      SeenIsPresent(rows[1..], wanted, present + rows[0].Keys, column);
    }
  }

  // ---------------------------------------------------------------- laws of footers

  /** Only the keys of a footer matter to its recomputation. */
  lemma RecomputedFromKeys(rows: seq<Row>, a: FooterMap, b: FooterMap)
    requires a.Keys == b.Keys
    ensures Recomputed(rows, a) == Recomputed(rows, b)
  {
    assert forall key :: key in a <==> key in b;
  }

  /**
    A footer recomputed over the whole detail and then over a view of it is the one recomputed over
    the view directly, if and only if every total the view has, the whole detail has too.
  */
  lemma RecomputedTwice(view: seq<Row>, whole: seq<Row>, footer: FooterMap)
    ensures Recomputed(view, Recomputed(whole, footer)) == Recomputed(view, footer) <==>
            forall key :: key in footer && TotalFor(view, key).Some? ==> TotalFor(whole, key).Some?
  {
    var twice, once := Recomputed(view, Recomputed(whole, footer)), Recomputed(view, footer);
    assert forall key :: key in twice <==> key in footer && TotalFor(whole, key).Some? && TotalFor(view, key).Some?;
    assert forall key :: key in once <==> key in footer && TotalFor(view, key).Some?;
    if twice == once {
      forall key | key in footer && TotalFor(view, key).Some?
        ensures TotalFor(whole, key).Some?
      {
        assert key in once;
        assert key in twice;
      }
    }
  }

  /** A column without a total over the whole detail has one over no rows at all. */
  lemma EmptyViewHasTotals(whole: seq<Row>, footer: FooterMap, key: string)
    requires key in footer && ColumnOfKey(key).Some? && ColumnOfKey(key).value != "wcl"
    requires whole != [] && !Present(whole, ColumnOfKey(key).value)
    ensures key in Recomputed([], footer) && key !in Recomputed([], Recomputed(whole, footer))
  {
  }

  lemma PresentInWhole(view: seq<Row>, whole: seq<Row>, column: string)
    requires forall row :: row in view ==> row in whole
    ensures Present(view, column) ==> Present(whole, column)
    ensures Readable(whole, column) ==> Readable(view, column)
    ensures whole == [] ==> view == []
  {
    if view != [] {
      assert view[0] in whole;
    }
    if i :| 0 <= i < |view| && column in view[i] {
      assert view[i] in whole;
    }
    if Readable(whole, column) {
      forall i | 0 <= i < |view|
        ensures Reading(view[i], column).Some?
      {
        assert view[i] in whole;
        var j :| 0 <= j < |whole| && whole[j] == view[i];
      }
    }
  }

  /**
    For a view that is a choice of the rows: an additive total that the view has is lost over the
    whole detail if and only if the view is empty and the detail lacks the column, or the detail has
    an unreadable figure in the column outside the view.
  */
  lemma TotalLostOverWhole(view: seq<Row>, whole: seq<Row>, column: string)
    requires column != "wcl" && forall row :: row in view ==> row in whole
    ensures TotalFor(view, column + "_total").Some? && TotalFor(whole, column + "_total").None? <==>
            || (view == [] && whole != [] && !Present(whole, column))
            || ((view == [] || Present(view, column)) && Readable(view, column) && !Readable(whole, column))
  {
    TotalKeyColumn(column);
    PresentInWhole(view, whole, column);
  }

  /** A recomputed footer always passes the check it would meet on the same rows. */
  lemma RecomputedReconciles(rows: seq<Row>, footer: FooterMap, tolerance: real)
    requires tolerance >= 0.0
    ensures Reconciles(rows, Recomputed(rows, footer), tolerance)
  {
    var out := Recomputed(rows, footer);
    forall key | key in out
      ensures KeyReconciles(rows, ChecksRatio(rows, out), key, out[key], tolerance)
    {
      var total := TotalFor(rows, key).value;
      var column := ColumnOfKey(key).value;
      if rows != [] {
        if column == "wcl" {
          var received, issued := ColumnSum(rows, "sssl").value, ColumnSum(rows, "fhsl").value;
          HalfUpRounds(Percentage(received, issued));
        } else {
          ScaleNotNegative(tolerance, Greater(Abs(total), 1.0));
        }
      }
    }
  }

  /** A footer that also announces both columns of the ratio has its ratio checked whenever the rows allow it. */
  lemma AnnouncedRatioIsChecked(rows: seq<Row>, footer: FooterMap)
    requires "sssl" in Wanted(footer) && "fhsl" in Wanted(footer)
    ensures ChecksRatio(rows, footer) <==> Present(rows, "sssl") && Present(rows, "fhsl")
  {
    SeenWanted(rows, Wanted(footer), {}, "sssl");
    SeenWanted(rows, Wanted(footer), {}, "fhsl");
  }

  /** On rows that all carry the same columns the early stop changes nothing. */
  lemma UniformRowsAreSeen(rows: seq<Row>, wanted: set<string>, columns: set<string>)
    requires rows != [] && forall i :: 0 <= i < |rows| ==> rows[i].Keys == columns
    ensures Seen(rows, wanted, {}) == columns
  {
    SeenUniform(rows, wanted, {}, columns);
  }

  lemma {:induction false} SeenUniform(rows: seq<Row>, wanted: set<string>, present: set<string>, columns: set<string>)
    requires present <= columns && forall i :: 0 <= i < |rows| ==> rows[i].Keys == columns
    ensures Seen(rows, wanted, present) == if rows == [] then present else columns
  {
    if rows != [] {
      assert present + rows[0].Keys == columns;
      SeenUniform(rows[1..], wanted, columns, columns);
    }
  }

  /**
    On ragged rows the search may end before the columns of the ratio are met; then any percentage
    passes, though the rows would have allowed the check.
  */
  lemma EarlyStopSkipsRatio(first: Row, second: Row, claimed: Cell, tolerance: real)
    requires first.Keys == {"wcl"} && second.Keys == {"sssl", "fhsl"}
    ensures Reconciles([first, second], map["wcl_total" := claimed], tolerance)
    ensures Present([first, second], "sssl") && Present([first, second], "fhsl")
  {
    var rows, footer: FooterMap := [first, second], map["wcl_total" := claimed];
    assert "sssl" in rows[1] && "fhsl" in rows[1];
    TotalKeyColumn("wcl");
    assert "wcl" + "_total" == "wcl_total";
    assert Wanted(footer) == {"wcl"} by {
      assert forall key :: key in footer ==> ColumnOfKey(key) == Some("wcl");
      assert "wcl_total" in footer;
    }
    assert {} + first.Keys == {"wcl"} && rows[0] == first;
    assert Seen(rows, {"wcl"}, {}) == {"wcl"};
    assert |"sssl"| == 4 && |"wcl"| == 3;
  }

  /** The columns met so far, and what another row adds. */
  lemma ColumnsOfHead(rows: seq<Row>, i: nat)
    requires 0 < i <= |rows|
    ensures ColumnsOf(rows[..i]) == rows[0].Keys + ColumnsOf(rows[1..][..i - 1])
  {
    var front, rest := rows[..i], rows[1..][..i - 1];
    forall c
      ensures c in ColumnsOf(front) <==> c in rows[0].Keys || c in ColumnsOf(rest)
    {
      if c in ColumnsOf(rest) {
        var k :| 0 <= k < |rest| && c in rest[k];
        assert front[k + 1] == rest[k];
      }
      if k :| 0 < k < |front| && c in front[k] {
        assert rest[k - 1] == front[k];
      }
      if c in rows[0].Keys {
        assert c in front[0];
      }
    }
  }

  /** Row `i` is looked at: it is the first one, or some wanted column was still unmet before it. */
  predicate LookedAt(rows: seq<Row>, wanted: set<string>, present: set<string>, i: nat)
    requires i < |rows|
  {
    i == 0 || !(wanted <= present + ColumnsOf(rows[..i]))
  }

  lemma LookedAtNext(rows: seq<Row>, wanted: set<string>, present: set<string>, i: nat)
    requires i + 1 < |rows| && !(wanted <= present + rows[0].Keys)
    ensures LookedAt(rows, wanted, present, i + 1) <==> LookedAt(rows[1..], wanted, present + rows[0].Keys, i)
  {
    ColumnsOfHead(rows, i + 1);
    if i == 0 {
      assert ColumnsOf(rows[1..][..0]) == {};
    }
    assert present + (rows[0].Keys + ColumnsOf(rows[1..][..i])) == present + rows[0].Keys + ColumnsOf(rows[1..][..i]);
  }

  lemma StoppedThere(rows: seq<Row>, wanted: set<string>, present: set<string>, i: nat)
    requires 0 < i < |rows| && wanted <= present + rows[0].Keys
    ensures !LookedAt(rows, wanted, present, i)
  {
    ColumnsOfHead(rows, i);
  }

  /** Some row from the given one onward is looked at and carries the column. */
  ghost predicate Meets(rows: seq<Row>, wanted: set<string>, present: set<string>, column: string, first: nat) {
    exists i :: first <= i < |rows| && column in rows[i] && LookedAt(rows, wanted, present, i)
  }

  lemma StoppedMeets(rows: seq<Row>, wanted: set<string>, present: set<string>, column: string)
    requires rows != [] && wanted <= present + rows[0].Keys
    ensures !Meets(rows, wanted, present, column, 1)
  {
    forall i | 0 < i < |rows|
      ensures !LookedAt(rows, wanted, present, i)
    {
      StoppedThere(rows, wanted, present, i);
    }
  }

  /** A column is met exactly if some row that is looked at carries it. */
  lemma {:induction false} SeenMeans(rows: seq<Row>, wanted: set<string>, present: set<string>, column: string)
    ensures column in Seen(rows, wanted, present) <==>
            column in present || Meets(rows, wanted, present, column, 0)
  {
    if rows != [] {
      var now := present + rows[0].Keys;
      assert LookedAt(rows, wanted, present, 0);
      assert Meets(rows, wanted, present, column, 0) <==>
             column in rows[0] || Meets(rows, wanted, present, column, 1);
      if wanted <= now {
        StoppedMeets(rows, wanted, present, column);
      } else {
        SeenMeans(rows[1..], wanted, now, column);
        if Meets(rows[1..], wanted, now, column, 0) {
          MeetsLater(rows, wanted, present, column);
        }
        if Meets(rows, wanted, present, column, 1) {
          MeetsEarlier(rows, wanted, present, column);
        }
      }
    }
  }

  lemma MeetsLater(rows: seq<Row>, wanted: set<string>, present: set<string>, column: string)
    requires rows != [] && !(wanted <= present + rows[0].Keys)
    requires Meets(rows[1..], wanted, present + rows[0].Keys, column, 0)
    ensures Meets(rows, wanted, present, column, 1)
  {
    var rest, now := rows[1..], present + rows[0].Keys;
    var i :| 0 <= i < |rest| && column in rest[i] && LookedAt(rest, wanted, now, i);
    LookedAtNext(rows, wanted, present, i);
    assert rows[i + 1] == rest[i];
  }

  lemma MeetsEarlier(rows: seq<Row>, wanted: set<string>, present: set<string>, column: string)
    requires rows != [] && !(wanted <= present + rows[0].Keys)
    requires Meets(rows, wanted, present, column, 1)
    ensures Meets(rows[1..], wanted, present + rows[0].Keys, column, 0)
  {
    var i :| 1 <= i < |rows| && column in rows[i] && LookedAt(rows, wanted, present, i);
    MeetsThere(rows, wanted, present, column, i);
  }

  lemma MeetsThere(rows: seq<Row>, wanted: set<string>, present: set<string>, column: string, i: nat)
    requires 0 < i < |rows| && !(wanted <= present + rows[0].Keys)
    requires column in rows[i] && LookedAt(rows, wanted, present, i)
    ensures Meets(rows[1..], wanted, present + rows[0].Keys, column, 0)
  {
    LookedAtNext(rows, wanted, present, i - 1);
    var rest := rows[1..];
    assert rest[i - 1] == rows[i];
    assert column in rest[i - 1] && LookedAt(rest, wanted, present + rows[0].Keys, i - 1);
  }

  ghost predicate IsRatio(rows: seq<Row>, claimed: Cell) {
    && RatioFor(rows).Some? && NumberOf(claimed).Some? && RatioFor(rows).value == HalfUp(NumberOf(claimed).value)
  }

  const RatioKey := "wcl_total"

  lemma RatioKeyColumn(key: string)
    ensures ColumnOfKey(key) == Some("wcl") <==> key == RatioKey
  {
    TotalKeyColumn("wcl");
    assert "wcl" + "_total" == RatioKey;
    if ColumnOfKey(key) == Some("wcl") {
      assert key == key[..|key| - 6] + key[|key| - 6..];
    }
  }

  /** Claiming another percentage leaves the rest of the check as it was. */
  lemma Reclaimed(rows: seq<Row>, footer: FooterMap, claimed: Cell, tolerance: real)
    requires rows != [] && RatioKey in footer
    requires forall key :: key in footer && key != RatioKey ==>
               KeyReconciles(rows, ChecksRatio(rows, footer), key, footer[key], tolerance)
    ensures Reconciles(rows, footer[RatioKey := claimed], tolerance) <==>
            (ChecksRatio(rows, footer) ==> IsRatio(rows, claimed))
  {
    var other := footer[RatioKey := claimed];
    assert other.Keys == footer.Keys;
    assert Wanted(other) == Wanted(footer) by {
      assert forall key :: key in other <==> key in footer;
    }
    RatioKeyColumn(RatioKey);
    assert KeyReconciles(rows, ChecksRatio(rows, footer), RatioKey, claimed, tolerance) <==>
           (ChecksRatio(rows, footer) ==> IsRatio(rows, claimed));
    assert RatioKey in other && other[RatioKey] == claimed;
    assert forall key :: key in footer && key != RatioKey ==> other[key] == footer[key];
  }

  /**
    The check vouches for the percentage exactly when it looks at it: with the other keys in order,
    every percentage it accepts is the ratio of the rows if and only if both columns of the ratio
    were met before the search ended.
  */
  lemma RatioVouchedFor(rows: seq<Row>, footer: FooterMap, tolerance: real)
    requires rows != [] && RatioKey in footer
    requires forall key :: key in footer && key != RatioKey ==>
               KeyReconciles(rows, ChecksRatio(rows, footer), key, footer[key], tolerance)
    ensures (forall claimed :: Reconciles(rows, footer[RatioKey := claimed], tolerance) ==> IsRatio(rows, claimed)) <==>
            ChecksRatio(rows, footer)
  {
    forall claimed
      ensures Reconciles(rows, footer[RatioKey := claimed], tolerance) <==>
              (ChecksRatio(rows, footer) ==> IsRatio(rows, claimed))
    {
      Reclaimed(rows, footer, claimed, tolerance);
    }
    assert !IsRatio(rows, Blank);
  }

  lemma ScaleNotNegative(a: real, b: real)
    requires a >= 0.0 && b >= 0.0
    ensures a * b >= 0.0
  {
  }

  // ---------------------------------------------------------------- footers and grouping

  function TotalKey(m: Measure): string { m.Column() + "_total" }

  lemma TotalKeyColumn(column: string)
    ensures ColumnOfKey(column + "_total") == Some(column)
  {
    var key := column + "_total";
    assert key[|key| - 6..] == "_total" && key[..|key| - 6] == column;
  }

  /** On rows that all contribute, a measure's column sum is the total of its contributions. */
  lemma ContributionsAreFigures(rows: seq<Row>, m: Measure)
    requires forall i :: 0 <= i < |rows| ==> Contributes(rows[i])
    ensures ColumnSum(rows, m.Column()) == Some(ColumnTotal(rows, m))
  {
    forall i | 0 <= i < |rows|
      ensures Contribution(rows[i], m).Some? && Reading(rows[i], m.Column()) == Contribution(rows[i], m)
    {
    }
    forall r | r in rows
      ensures Figure(r, m.Column()) == if Contribution(r, m).Some? then Contribution(r, m).value else 0.0
    {
      var i :| 0 <= i < |rows| && rows[i] == r;
      assert Reading(rows[i], m.Column()) == Contribution(rows[i], m);
    }
    SumAgrees(rows, row => Figure(row, m.Column()),
              row => if Contribution(row, m).Some? then Contribution(row, m).value else 0.0);
  }

  lemma GroupRowFigure(rows: seq<Row>, grain: Grain, key: seq<string>, m: Measure)
    ensures m.Column() in GroupRow(rows, grain, key)
    ensures Reading(GroupRow(rows, grain, key), m.Column()) == Some(GroupTotal(rows, grain, key, m))
  {
    var dimensions := Dimensions(Leader(rows, grain, key), grain);
    OutputFigure(dimensions, GroupTotals(rows, grain, key), m);
  }

  lemma OutputFigure(dimensions: Row, totals: Totals, m: Measure)
    ensures m.Column() in OutputRow(dimensions, totals)
    ensures OutputRow(dimensions, totals)[m.Column()] == Amount(totals.Of(m))
  {
  }

  lemma ColumnSumHead(row: Row, rest: seq<Row>, column: string)
    requires Reading(row, column).Some? && ColumnSum(rest, column).Some?
    ensures ColumnSum([row] + rest, column) == Some(Reading(row, column).value + ColumnSum(rest, column).value)
  {
    var all := [row] + rest;
    assert all[1..] == rest;
    forall i | 0 <= i < |all|
      ensures Reading(all[i], column).Some?
    {
      assert i > 0 ==> all[i] == rest[i - 1];
    }
  }

  function Plus(figures: seq<real>): real { if figures == [] then 0.0 else figures[0] + Plus(figures[1..]) }

  lemma {:induction false} FiguresAdd(rows: seq<Row>, column: string, figures: seq<real>)
    requires |rows| == |figures|
    requires forall i :: 0 <= i < |rows| ==> Reading(rows[i], column) == Some(figures[i])
    ensures ColumnSum(rows, column) == Some(Plus(figures))
  {
    if rows != [] {
      FiguresAdd(rows[1..], column, figures[1..]);
      ColumnSumHead(rows[0], rows[1..], column);
      assert rows == [rows[0]] + rows[1..];
    }
  }

  function GroupFigures(rows: seq<Row>, grain: Grain, keys: seq<seq<string>>, m: Measure): seq<real> {
    seq(|keys|, i requires 0 <= i < |keys| => GroupTotal(rows, grain, keys[i], m))
  }

  lemma {:induction false} AcrossIsPlus(rows: seq<Row>, grain: Grain, keys: seq<seq<string>>, m: Measure)
    ensures Plus(GroupFigures(rows, grain, keys, m)) == AcrossGroups(rows, grain, keys, m)
  {
    if keys != [] {
      AcrossIsPlus(rows, grain, keys[1..], m);
      assert GroupFigures(rows, grain, keys, m)[1..] == GroupFigures(rows, grain, keys[1..], m);
    }
  }

  lemma ArrangedSum(rows: seq<Row>, grain: Grain, keys: seq<seq<string>>, m: Measure)
    ensures ColumnSum(Arrange(rows, grain, keys), m.Column()) == Some(AcrossGroups(rows, grain, keys, m))
  {
    var out, figures := Arrange(rows, grain, keys), GroupFigures(rows, grain, keys, m);
    forall i | 0 <= i < |out|
      ensures Reading(out[i], m.Column()) == Some(figures[i])
    {
      GroupRowFigure(rows, grain, keys[i], m);
    }
    FiguresAdd(out, m.Column(), figures);
    AcrossIsPlus(rows, grain, keys, m);
  }

  /** The sorted keys of the groups are distinct and are the keys of the rows. */
  lemma SortedKeys(rows: seq<Row>, grain: Grain)
    ensures var keys := Sort(KeysIn(rows, grain), TupleLe);
            && (forall i, j :: 0 <= i < j < |keys| ==> keys[i] != keys[j])
            && (forall i :: 0 <= i < |rows| ==> KeyOf(rows[i], grain) in keys)
            && (keys == [] <==> rows == [])
  {
    var found := KeysIn(rows, grain);
    var keys := Sort(found, TupleLe);
    SortKeeps(found, TupleLe);
    KeysInDistinct(rows, grain);
    forall i | 0 <= i < |rows|
      ensures KeyOf(rows[i], grain) in keys
    {
      KeysInMembers(rows, grain, KeyOf(rows[i], grain));
      assert KeyOf(rows[i], grain) in multiset(found);
    }
    StaysDistinct(found, keys);
    assert |multiset(keys)| == |multiset(found)|;
    if rows != [] {
      assert KeyOf(rows[0], grain) in keys;
    }
  }

  lemma StaysDistinct(xs: seq<seq<string>>, ys: seq<seq<string>>)
    requires multiset(xs) == multiset(ys)
    requires forall i, j :: 0 <= i < j < |xs| ==> xs[i] != xs[j]
    ensures forall i, j :: 0 <= i < j < |ys| ==> ys[i] != ys[j]
  {
    forall i, j | 0 <= i < j < |ys|
      ensures ys[i] != ys[j]
    {
      CountOnce(xs, ys[i]);
      assert ys == ys[..i] + [ys[i]] + ys[i + 1..];
      assert ys[i + 1..][j - i - 1] == ys[j];
      assert multiset(ys)[ys[i]] == 1;
    }
  }

  lemma GroupedSum(rows: seq<Row>, grain: Grain, m: Measure)
    requires Acceptable(rows, grain)
    ensures ColumnSum(Grouped(rows, grain), m.Column()) == ColumnSum(rows, m.Column())
  {
    SortedKeys(rows, grain);
    ArrangedSum(rows, grain, Sort(KeysIn(rows, grain), TupleLe), m);
    GroupsAddUp(rows, grain, Sort(KeysIn(rows, grain), TupleLe), m);
    ContributionsAreFigures(rows, m);
  }

  lemma GroupedPresent(rows: seq<Row>, grain: Grain, m: Measure)
    requires Acceptable(rows, grain)
    ensures (rows == [] <==> Grouped(rows, grain) == [])
    ensures Present(rows, m.Column()) <==> rows != []
    ensures Present(Grouped(rows, grain), m.Column()) <==> rows != []
  {
    SortedKeys(rows, grain);
    var keys := Sort(KeysIn(rows, grain), TupleLe);
    assert |Grouped(rows, grain)| == |keys|;
    if rows != [] {
      assert Contribution(rows[0], m).Some?;
      assert m.Column() in rows[0];
      GroupRowFigure(rows, grain, keys[0], m);
      assert m.Column() in Grouped(rows, grain)[0];
    }
  }

  /** Grouping changes none of the six additive footers and not the percentage footer. */
  lemma GroupingKeepsFooter(rows: seq<Row>, grain: Grain, m: Measure)
    requires Acceptable(rows, grain)
    ensures TotalFor(Grouped(rows, grain), TotalKey(m)) == TotalFor(rows, TotalKey(m))
    ensures TotalFor(Grouped(rows, grain), "wcl_total") == TotalFor(rows, "wcl_total")
  {
    TotalKeyColumn(m.Column());
    assert m.Column() != "wcl";
    GroupedSum(rows, grain, m);
    GroupedPresent(rows, grain, m);
    PercentageFooter(rows, grain);
  }

  lemma PercentageFooter(rows: seq<Row>, grain: Grain)
    requires Acceptable(rows, grain)
    ensures TotalFor(Grouped(rows, grain), "wcl_total") == TotalFor(rows, "wcl_total")
  {
    TotalKeyColumn("wcl");
    assert "wcl" + "_total" == "wcl_total";
    assert Sssl.Column() == "sssl" && Fhsl.Column() == "fhsl";
    GroupedSum(rows, grain, Sssl);
    GroupedSum(rows, grain, Fhsl);
    GroupedPresent(rows, grain, Sssl);
    GroupedPresent(rows, grain, Fhsl);
  }
}
