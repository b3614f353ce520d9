/**
  Why a snapshot of a wider window may answer: what a caller is served from the detail of any
  window that contains the question is what a direct fetch of the question window would serve.
*/
module Transparency {
  import opened Wrappers
  import opened Table
  import opened Progress
  import opened Footer
  import opened View

  // ---------------------------------------------------------------- the customer system

  /** The day under which the customer system files a row. */
  function FiledDay(row: Row, op: Operation, params: Params): Option<int> {
    if op.ProgressOp? then BusinessDay(Get(row, DateColumn)) else AnchorDay(Get(row, AnchorColumn(op, params)))
  }

  predicate Filed(row: Row, op: Operation, params: Params, window: Window) {
    var day := FiledDay(row, op, params);
    day.Some? && window.from <= day.value <= window.to
  }

  /** The complete detail of a window, as the customer system lists it. */
  function DetailOf(universe: seq<Row>, op: Operation, params: Params, window: Window): seq<Row> {
    Select(universe, row => Filed(row, op, params, window))
  }

  predicate Covers(outer: Window, inner: Window) { outer.from <= inner.from && inner.to <= outer.to }

  // ---------------------------------------------------------------- padding

  function PadRow(row: Row, columns: set<string>): Row { map c | c in columns :: Get(row, c) }

  function Pad(rows: seq<Row>, columns: set<string>): seq<Row> {
    seq(|rows|, i requires 0 <= i < |rows| => PadRow(rows[i], columns))
  }

  lemma PadGet(row: Row, columns: set<string>, c: string)
    requires row.Keys <= columns
    ensures Get(PadRow(row, columns), c) == Get(row, c)
  {
  }

  lemma {:induction false} PadSelect(rows: seq<Row>, columns: set<string>, keep: Row -> bool)
    requires forall i :: 0 <= i < |rows| ==> keep(PadRow(rows[i], columns)) == keep(rows[i])
    ensures Select(Pad(rows, columns), keep) == Pad(Select(rows, keep), columns)
  {
    if rows != [] {
      PadSelect(rows[1..], columns, keep);
      assert Pad(rows, columns)[1..] == Pad(rows[1..], columns);
      if keep(rows[0]) {
        assert Select(rows, keep)[1..] == Select(rows[1..], keep);
      }
    } else {
      assert Pad(rows, columns) == [];
    }
  }

  // ---------------------------------------------------------------- slices of detail

  /** Deriving rows one by one commutes with choosing them by a test that derivation respects. */
  lemma {:induction false} DeriveSelect(rows: seq<Row>, raw: Row -> bool, normal: Row -> bool)
    requires Derive(rows).Some?
    requires forall i :: 0 <= i < |rows| && DeriveRow(rows[i]).Some? ==>
             raw(rows[i]) == normal(DeriveRow(rows[i]).value)
    ensures Derive(Select(rows, raw)) == Some(Select(Derive(rows).value, normal))
  {
    if rows != [] {
      var rest := rows[1..];
      DeriveCons(rows[0], rest);
      assert rows == [rows[0]] + rest;
      DeriveSelect(rest, raw, normal);
      var derived := Derive(rows).value;
      assert derived[1..] == Derive(rest).value;
      if raw(rows[0]) {
        DeriveCons(rows[0], Select(rest, raw));
      }
    }
  }

  lemma DeriveCons(row: Row, rest: seq<Row>)
    ensures Derive([row] + rest) ==
            if DeriveRow(row).Some? && Derive(rest).Some? then Some([DeriveRow(row).value] + Derive(rest).value)
            else None
  {
    var all := [row] + rest;
    DeriveRowwise(all);
    DeriveRowwise(rest);
    if DeriveRow(row).Some? && Derive(rest).Some? {
      forall i | 0 <= i < |all|
        ensures DeriveRow(all[i]).Some?
      {
        assert i > 0 ==> all[i] == rest[i - 1];
      }
      var out := [DeriveRow(row).value] + Derive(rest).value;
      forall i | 0 <= i < |all|
        ensures Derive(all).value[i] == out[i]
      {
        assert DeriveRow(all[i]) == Some(Derive(all).value[i]);
        assert i > 0 ==> all[i] == rest[i - 1] && DeriveRow(rest[i - 1]) == Some(Derive(rest).value[i - 1]);
      }
      assert Derive(all).value == out;
    } else if DeriveRow(row).None? {
      assert DeriveRow(all[0]).None?;
    } else {
      var i :| 0 <= i < |rest| && DeriveRow(rest[i]).None?;
      assert DeriveRow(all[i + 1]).None?;
    }
  }

  /** A row's filing day survives normalisation as the day the slice reads. */
  lemma FiledIsSliced(row: Row, op: Operation, params: Params, window: Window)
    requires op.ProgressOp? ==> DeriveRow(row).Some?
    ensures var detail := if op.ProgressOp? then DeriveRow(row).value else row;
            Filed(row, op, params, window) <==> InWindow(detail, AnchorColumn(op, params), window)
  {
  }

  /** The detail of a window inside another is a choice of the other's rows. */
  lemma DetailNests(universe: seq<Row>, op: Operation, params: Params, outer: Window, inner: Window)
    requires Covers(outer, inner)
    ensures DetailOf(universe, op, params, inner) ==
            Select(DetailOf(universe, op, params, outer), row => Filed(row, op, params, inner))
  {
    var wide, narrow := (row: Row) => Filed(row, op, params, outer), (row: Row) => Filed(row, op, params, inner);
    SelectTwice(universe, wide, narrow);
    SelectAgrees(universe, row => wide(row) && narrow(row), narrow);
  }

  lemma DetailIsFiled(universe: seq<Row>, op: Operation, params: Params, window: Window, i: nat)
    requires i < |DetailOf(universe, op, params, window)|
    ensures Filed(DetailOf(universe, op, params, window)[i], op, params, window)
  {
    var rows := DetailOf(universe, op, params, window);
    SelectMembers(universe, row => Filed(row, op, params, window), rows[i]);
  }

  /** The normalised detail of a window. It always exists: every filed row has a date. */
  function Stored(universe: seq<Row>, op: Operation, params: Params, window: Window): (r: seq<Row>)
    ensures Detail(DetailOf(universe, op, params, window), op) == Some(r)
  {
    DetailDerives(universe, op, params, window);
    Detail(DetailOf(universe, op, params, window), op).value
  }

  lemma DetailDerives(universe: seq<Row>, op: Operation, params: Params, window: Window)
    ensures Detail(DetailOf(universe, op, params, window), op).Some?
  {
    var rows := DetailOf(universe, op, params, window);
    forall i | 0 <= i < |rows|
      ensures op.ProgressOp? ==> DeriveRow(rows[i]).Some?
    {
      DetailIsFiled(universe, op, params, window, i);
    }
    DeriveRowwise(rows);
  }

  /** Slicing the stored detail of a wide window gives the stored detail of the narrow one. */
  lemma StoredSlices(universe: seq<Row>, op: Operation, params: Params, outer: Window, inner: Window)
    requires Covers(outer, inner)
    ensures Sliced(Stored(universe, op, params, outer), op, params, inner) == Stored(universe, op, params, inner)
  {
    var rows := DetailOf(universe, op, params, outer);
    DetailNests(universe, op, params, outer, inner);
    var raw, normal := (row: Row) => Filed(row, op, params, inner),
      (row: Row) => InWindow(row, AnchorColumn(op, params), inner);
    DetailDerives(universe, op, params, outer);
    if op.ProgressOp? {
      forall i | 0 <= i < |rows| && DeriveRow(rows[i]).Some?
        ensures raw(rows[i]) == normal(DeriveRow(rows[i]).value)
      {
        FiledIsSliced(rows[i], op, params, inner);
      }
      DeriveSelect(rows, raw, normal);
    } else {
      SelectAgrees(rows, raw, normal);
    }
  }

  /** Detail ready to be served: dates normalised for progress, and every time anchor valid. */
  ghost predicate Ready(rows: seq<Row>, op: Operation, params: Params) {
    (op.ProgressOp? ==> NormalRows(rows)) && Anchored(rows, op, params)
  }

  lemma StoredIsReady(universe: seq<Row>, op: Operation, params: Params, window: Window)
    ensures Ready(Stored(universe, op, params, window), op, params)
  {
    var rows := DetailOf(universe, op, params, window);
    var stored := Stored(universe, op, params, window);
    DeriveRowwise(rows);
    if op.ProgressOp? {
      DeriveNormal(rows);
    }
    forall i | 0 <= i < |stored|
      ensures AnchorDay(Get(stored[i], AnchorColumn(op, params))).Some?
    {
      DetailIsFiled(universe, op, params, window, i);
      FiledIsSliced(rows[i], op, params, window);
    }
  }

  /** Columns into which rows may be padded without disturbing normalised dates. */
  ghost predicate Holds(columns: set<string>, rows: seq<Row>, op: Operation) {
    && (forall i :: 0 <= i < |rows| ==> rows[i].Keys <= columns)
    && (op.ProgressOp? ==> "dh_date" !in columns)
  }

  lemma PaddedIsReady(rows: seq<Row>, columns: set<string>, op: Operation, params: Params)
    requires Ready(rows, op, params) && Holds(columns, rows, op)
    ensures Ready(Pad(rows, columns), op, params)
  {
    forall i | 0 <= i < |rows|
      ensures op.ProgressOp? ==> Normal(Pad(rows, columns)[i])
      ensures AnchorDay(Get(Pad(rows, columns)[i], AnchorColumn(op, params))).Some?
    {
      assert rows[i].Keys <= columns;
      PadGet(rows[i], columns, DateColumn);
      PadGet(rows[i], columns, AnchorColumn(op, params));
      assert op.ProgressOp? ==> Normal(rows[i]);
    }
  }

  /** Ready detail passes validation unchanged. */
  lemma ReadyProjects(rows: seq<Row>, op: Operation, caller: Caller, window: Window)
    requires Ready(rows, op, caller.params)
    ensures Project(rows, op, caller, window) == ViewOf(rows, op, caller, window)
  {
    if op.ProgressOp? {
      DeriveNormal(rows);
    }
  }

  lemma PadSlices(rows: seq<Row>, columns: set<string>, op: Operation, params: Params, window: Window)
    requires Holds(columns, rows, op)
    ensures Sliced(Pad(rows, columns), op, params, window) == Pad(Sliced(rows, op, params, window), columns)
  {
    var keep := (row: Row) => InWindow(row, AnchorColumn(op, params), window);
    forall i | 0 <= i < |rows|
      ensures keep(PadRow(rows[i], columns)) == keep(rows[i])
    {
      PadGet(rows[i], columns, AnchorColumn(op, params));
    }
    PadSelect(rows, columns, keep);
  }

  /** The scope filter and the calendar slice may be applied in either order. */
  lemma ScopeThenSlice(rows: seq<Row>, op: Operation, caller: Caller, window: Window)
    ensures Sliced(Scoped(rows, caller), op, caller.params, window) ==
            Scoped(Sliced(rows, op, caller.params, window), caller)
  {
    SelectSwap(rows, row => InScope(row, caller), row => InWindow(row, AnchorColumn(op, caller.params), window));
  }

  lemma SliceOfStored(universe: seq<Row>, op: Operation, caller: Caller, outer: Window, inner: Window,
                      columns: set<string>)
    requires Covers(outer, inner) && Holds(columns, Stored(universe, op, caller.params, outer), op)
    ensures Sliced(Scoped(Pad(Stored(universe, op, caller.params, outer), columns), caller), op, caller.params,
                   inner) ==
            Scoped(Pad(Stored(universe, op, caller.params, inner), columns), caller)
  {
    var wide := Stored(universe, op, caller.params, outer);
    ScopeThenSlice(Pad(wide, columns), op, caller, inner);
    PadSlices(wide, columns, op, caller.params, inner);
    StoredSlices(universe, op, caller.params, outer, inner);
  }

  lemma NarrowColumns(universe: seq<Row>, op: Operation, params: Params, outer: Window, inner: Window,
                      columns: set<string>)
    requires Covers(outer, inner) && Holds(columns, Stored(universe, op, params, outer), op)
    ensures Holds(columns, Stored(universe, op, params, inner), op)
  {
    var wide, narrow := Stored(universe, op, params, outer), Stored(universe, op, params, inner);
    StoredSlices(universe, op, params, outer, inner);
    forall i | 0 <= i < |narrow|
      ensures narrow[i].Keys <= columns
    {
      SelectMembers(wide, row => InWindow(row, AnchorColumn(op, params), inner), narrow[i]);
      var j :| 0 <= j < |wide| && wide[j] == narrow[i];
    }
  }

  /**
    Transparency over padded rows, for any universe, role, filters and grain: the snapshot of a
    window that covers the question serves exactly what the question's own detail, padded to the
    same columns, would serve.
  */
  lemma PaddedTransparency(universe: seq<Row>, op: Operation, caller: Caller, outer: Window, inner: Window,
                           columns: set<string>)
    requires Covers(outer, inner) && Holds(columns, Stored(universe, op, caller.params, outer), op)
    ensures Project(Pad(Stored(universe, op, caller.params, outer), columns), op, caller, inner) ==
            Project(Pad(Stored(universe, op, caller.params, inner), columns), op, caller, inner)
  {
    var wide, narrow := Stored(universe, op, caller.params, outer), Stored(universe, op, caller.params, inner);
    NarrowColumns(universe, op, caller.params, outer, inner, columns);
    StoredIsReady(universe, op, caller.params, outer);
    StoredIsReady(universe, op, caller.params, inner);
    PaddedIsReady(wide, columns, op, caller.params);
    PaddedIsReady(narrow, columns, op, caller.params);
    ReadyProjects(Pad(wide, columns), op, caller, inner);
    ReadyProjects(Pad(narrow, columns), op, caller, inner);
    SliceOfStored(universe, op, caller, outer, inner, columns);
    SliceOfStored(universe, op, caller, inner, inner, columns);
  }

  // ---------------------------------------------------------------- rectangular detail

  /** Every row of the window carries exactly these columns. */
  ghost predicate Rectangular(rows: seq<Row>, columns: set<string>) {
    forall i :: 0 <= i < |rows| ==> rows[i].Keys == columns
  }

  lemma PadRectangular(rows: seq<Row>, columns: set<string>)
    requires Rectangular(rows, columns)
    ensures Pad(rows, columns) == rows
  {
    forall i | 0 <= i < |rows|
      ensures PadRow(rows[i], columns) == rows[i]
    {
      assert rows[i].Keys == columns;
    }
  }

  /**
    Transparency: when the detail of the covering window is rectangular, the snapshot serves the
    same rows, groups and footer as a direct fetch of the question window.
  */
  lemma CacheIsTransparent(universe: seq<Row>, op: Operation, caller: Caller, outer: Window, inner: Window,
                           columns: set<string>, snapshotFooter: FooterMap, directFooter: FooterMap)
    requires Covers(outer, inner) && snapshotFooter.Keys == directFooter.Keys
    requires Rectangular(Stored(universe, op, caller.params, outer), columns) &&
             (op.ProgressOp? ==> "dh_date" !in columns)
    ensures Serve(Pad(Stored(universe, op, caller.params, outer), columns), snapshotFooter, op, caller, inner) ==
            Serve(DetailOf(universe, op, caller.params, inner), directFooter, op, caller, inner)
  {
    var wide, narrow := Stored(universe, op, caller.params, outer), Stored(universe, op, caller.params, inner);
    PaddedTransparency(universe, op, caller, outer, inner, columns);
    NarrowRectangular(universe, op, caller.params, outer, inner, columns);
    PadRectangular(narrow, columns);
    DirectProjects(universe, op, caller, inner);
    var view := Project(narrow, op, caller, inner);
    if view.Ok? {
      RecomputedFromKeys(view.value, snapshotFooter, directFooter);
    }
  }

  lemma NarrowRectangular(universe: seq<Row>, op: Operation, params: Params, outer: Window, inner: Window,
                          columns: set<string>)
    requires Covers(outer, inner) && Rectangular(Stored(universe, op, params, outer), columns)
    ensures Rectangular(Stored(universe, op, params, inner), columns)
  {
    var wide, narrow := Stored(universe, op, params, outer), Stored(universe, op, params, inner);
    StoredSlices(universe, op, params, outer, inner);
    forall i | 0 <= i < |narrow|
      ensures narrow[i].Keys == columns
    {
      SelectMembers(wide, row => InWindow(row, AnchorColumn(op, params), inner), narrow[i]);
      var j :| 0 <= j < |wide| && wide[j] == narrow[i];
    }
  }

  /** A direct fetch is projected from its normalised detail. */
  lemma DirectProjects(universe: seq<Row>, op: Operation, caller: Caller, window: Window)
    ensures Project(DetailOf(universe, op, caller.params, window), op, caller, window) ==
            Project(Stored(universe, op, caller.params, window), op, caller, window)
  {
    StoredIsReady(universe, op, caller.params, window);
    ReadyProjects(Stored(universe, op, caller.params, window), op, caller, window);
  }

  // ---------------------------------------------------------------- locality

  /** Two ready snapshots that agree inside the caller's scope give the caller the same answer. */
  lemma ScopeIsLocal(a: seq<Row>, b: seq<Row>, footerA: FooterMap, footerB: FooterMap, op: Operation, caller: Caller,
                     window: Window)
    requires Ready(a, op, caller.params) && Ready(b, op, caller.params)
    requires Scoped(a, caller) == Scoped(b, caller) && footerA.Keys == footerB.Keys
    ensures Serve(a, footerA, op, caller, window) == Serve(b, footerB, op, caller, window)
  {
    ReadyProjects(a, op, caller, window);
    ReadyProjects(b, op, caller, window);
    var view := Project(a, op, caller, window);
    if view.Ok? {
      RecomputedFromKeys(view.value, footerA, footerB);
    }
  }

  // ---------------------------------------------------------------- ragged detail

  lemma ScopePads(row: Row, columns: set<string>, caller: Caller)
    requires row.Keys <= columns
    ensures InScope(PadRow(row, columns), caller) == InScope(row, caller)
  {
    PadGet(row, columns, "dept");
    PadGet(row, columns, "uid");
  }

  lemma MatchPads(row: Row, columns: set<string>, op: Operation, caller: Caller)
    requires row.Keys <= columns
    ensures Matches(PadRow(row, columns), op, caller) == Matches(row, op, caller)
  {
    PadGet(row, columns, "bbreed");
    PadGet(row, columns, "huohao");
    PadGet(row, columns, "dh");
    PadGet(row, columns, "jhdh");
    PadGet(row, columns, "userid");
    PadGet(row, columns, "chuanghao");
  }

  /** Padding the detail pads the caller's slice of it. */
  lemma PaddedSlice(rows: seq<Row>, columns: set<string>, op: Operation, caller: Caller, window: Window)
    requires Holds(columns, rows, op)
    ensures Sliced(Scoped(Pad(rows, columns), caller), op, caller.params, window) ==
            Pad(Sliced(Scoped(rows, caller), op, caller.params, window), columns)
    ensures Holds(columns, Sliced(Scoped(rows, caller), op, caller.params, window), op)
    ensures forall row :: row in Sliced(Scoped(rows, caller), op, caller.params, window) ==> row in rows
  {
    var scope, slice := (row: Row) => InScope(row, caller),
                        (row: Row) => InWindow(row, AnchorColumn(op, caller.params), window);
    var scoped := Select(rows, scope);
    forall i | 0 <= i < |rows|
      ensures scope(PadRow(rows[i], columns)) == scope(rows[i])
    {
      ScopePads(rows[i], columns, caller);
    }
    PadSelect(rows, columns, scope);
    SelectKeeps(rows, scope, columns, op);
    forall i | 0 <= i < |scoped|
      ensures slice(PadRow(scoped[i], columns)) == slice(scoped[i])
    {
      PadGet(scoped[i], columns, AnchorColumn(op, caller.params));
    }
    PadSelect(scoped, columns, slice);
    SelectKeeps(scoped, slice, columns, op);
  }

  /** Padding pads what the business filters leave, and every padded row has all the columns. */
  lemma PaddedMatches(sliced: seq<Row>, columns: set<string>, op: Operation, caller: Caller)
    requires Holds(columns, sliced, op)
    ensures Select(Pad(sliced, columns), row => Matches(row, op, caller)) ==
            Pad(Select(sliced, row => Matches(row, op, caller)), columns)
    ensures forall row :: row in Select(sliced, row => Matches(row, op, caller)) ==> row in sliced
    ensures LacksBeds(Pad(sliced, columns), caller) <==>
            caller.filters.bedCodes.Some? && sliced != [] && "chuanghao" !in columns
  {
    var business := (row: Row) => Matches(row, op, caller);
    forall i | 0 <= i < |sliced|
      ensures business(PadRow(sliced[i], columns)) == business(sliced[i])
    {
      MatchPads(sliced[i], columns, op, caller);
    }
    PadSelect(sliced, columns, business);
    SelectKeeps(sliced, business, columns, op);
    if sliced != [] && "chuanghao" !in columns {
      assert "chuanghao" !in Pad(sliced, columns)[0];
    }
  }

  /** Without grouping, normalised rows are served as they are. */
  lemma UngroupedServes(rows: seq<Row>, op: Operation)
    requires op.ProgressOp? ==> NormalRows(rows)
    ensures Regroup(rows, op, []) == Some(rows)
  {
    if op.ProgressOp? {
      DeriveNormal(rows);
    }
  }

  /**
    Without grouping, padding the detail pads the view. A bed filter fails on the padded detail only
    if no row at all has a bed.
  */
  lemma PaddedView(rows: seq<Row>, columns: set<string>, op: Operation, caller: Caller, window: Window)
    requires caller.params.groupby == [] && Holds(columns, rows, op) && Ready(rows, op, caller.params)
    ensures var plain, padded := Project(rows, op, caller, window), Project(Pad(rows, columns), op, caller, window);
            && (plain.Err? ==> plain == Err(NoBedDimension) && (padded == plain <==> "chuanghao" !in columns))
            && (plain.Ok? ==> padded == Ok(Pad(plain.value, columns)) && forall row :: row in plain.value ==>
                row in rows)
  {
    PaddedIsReady(rows, columns, op, caller.params);
    ReadyProjects(rows, op, caller, window);
    ReadyProjects(Pad(rows, columns), op, caller, window);
    PaddedSlice(rows, columns, op, caller, window);
    var sliced := Sliced(Scoped(rows, caller), op, caller.params, window);
    PaddedMatches(sliced, columns, op, caller);
    var view := Select(sliced, row => Matches(row, op, caller));
    ViewIsNormal(rows, view, columns, op, caller.params);
    UngroupedServes(view, op);
    UngroupedServes(Pad(view, columns), op);
    if LacksBeds(sliced, caller) {
      assert sliced != [];
    } else if sliced != [] && caller.filters.bedCodes.Some? {
      assert "chuanghao" in sliced[0] && sliced[0].Keys <= columns;
    }
  }

  lemma ViewIsNormal(rows: seq<Row>, view: seq<Row>, columns: set<string>, op: Operation, params: Params)
    requires Ready(rows, op, params) && Holds(columns, rows, op) && forall row :: row in view ==> row in rows
    ensures op.ProgressOp? ==> NormalRows(view) && NormalRows(Pad(view, columns))
  {
    if op.ProgressOp? {
      forall i | 0 <= i < |view|
        ensures Normal(view[i]) && Normal(Pad(view, columns)[i])
      {
        assert view[i] in rows;
        var j :| 0 <= j < |rows| && rows[j] == view[i];
        assert Normal(rows[j]) && rows[j].Keys <= columns;
      }
    }
  }

  lemma SelectKeeps(rows: seq<Row>, keep: Row -> bool, columns: set<string>, op: Operation)
    requires Holds(columns, rows, op)
    ensures Holds(columns, Select(rows, keep), op)
    ensures forall row :: row in Select(rows, keep) ==> row in rows
  {
    var chosen := Select(rows, keep);
    forall row | row in chosen
      ensures row in rows
    {
      SelectMembers(rows, keep, row);
    }
    forall i | 0 <= i < |chosen|
      ensures chosen[i].Keys <= columns
    {
      assert chosen[i] in rows;
      var j :| 0 <= j < |rows| && rows[j] == chosen[i];
    }
  }

  lemma PadIsIdentity(rows: seq<Row>, columns: set<string>)
    requires forall i :: 0 <= i < |rows| ==> rows[i].Keys <= columns
    ensures Pad(rows, columns) == rows <==> Rectangular(rows, columns)
  {
    if Rectangular(rows, columns) {
      PadRectangular(rows, columns);
    }
    forall i | 0 <= i < |rows|
      ensures PadRow(rows[i], columns).Keys == columns
    {
    }
    if Pad(rows, columns) == rows {
      forall i | 0 <= i < |rows|
        ensures rows[i].Keys == columns
      {
        assert Pad(rows, columns)[i] == rows[i];
      }
    }
  }

  /**
    Ragged detail is served with blanks where a direct fetch has no column at all. The ungrouped
    answers are equal if and only if every row in the caller's view carries every column that
    occurs anywhere in the snapshot; or, where the direct answer is refused for want of a bed
    column, no row of the snapshot has one.
  */
  lemma RaggedRowsDiffer(universe: seq<Row>, op: Operation, caller: Caller, outer: Window, inner: Window,
                         columns: set<string>)
    requires caller.params.groupby == [] && Covers(outer, inner)
    requires Holds(columns, Stored(universe, op, caller.params, outer), op)
    ensures var direct := Project(DetailOf(universe, op, caller.params, inner), op, caller, inner);
            Project(Pad(Stored(universe, op, caller.params, outer), columns), op, caller, inner) == direct <==>
            if direct.Ok? then Rectangular(direct.value, columns) else "chuanghao" !in columns
  {
    var narrow := Stored(universe, op, caller.params, inner);
    PaddedTransparency(universe, op, caller, outer, inner, columns);
    NarrowColumns(universe, op, caller.params, outer, inner, columns);
    StoredIsReady(universe, op, caller.params, inner);
    PaddedView(narrow, columns, op, caller, inner);
    DirectProjects(universe, op, caller, inner);
    var direct := Project(narrow, op, caller, inner);
    if direct.Ok? {
      forall i | 0 <= i < |direct.value|
        ensures direct.value[i].Keys <= columns
      {
        assert direct.value[i] in narrow;
        var j :| 0 <= j < |narrow| && narrow[j] == direct.value[i];
      }
      PadIsIdentity(direct.value, columns);
    }
  }
}
