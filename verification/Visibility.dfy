/**
  Who is served which rows, stated on the cells of the detail: the caller's scope, the calendar
  window and the filters of the question, with every refusal.
*/
module Visibility {
  import opened Wrappers
  import opened TextOrder
  import opened Table
  import opened RawRows
  import opened Progress
  import opened ProgressGroups
  import opened View
  import opened Transparency

  // ---------------------------------------------------------------- scope, window and question

  predicate NamedIn(text: string, values: set<string>) { text != "" && text in values }

  /**
    A department head is held to the own departments whatever was asked for; owners and employees
    to the departments asked for. An employee restriction holds for every role.
  */
  predicate Entitled(row: Row, f: Filters, role: Role) {
    && match role {
         case Department => f.deptIds.Some? ==> NamedIn(Written(row, "dept"), f.deptIds.value)
         case Owner => f.requestedDeptIds.Some? ==> NamedIn(Written(row, "dept"), f.requestedDeptIds.value)
         case Employee => f.requestedDeptIds.Some? ==> NamedIn(Written(row, "dept"), f.requestedDeptIds.value)
       }
    && (f.employeeIds.Some? ==> NamedIn(Written(row, "uid"), f.employeeIds.value))
  }

  /** The flag is a one, with nothing but white space around it. */
  ghost predicate CheckFlag(params: Params) {
    "Flag" in params.other && exists i :: 0 <= i < |params.other["Flag"]| && OneAt(params.other["Flag"], i)
  }

  ghost predicate OneAt(s: string, i: nat)
    requires i < |s|
  {
    s[i] == '1' && forall j :: 0 <= j < |s| && j != i ==> Space(s[j])
  }

  ghost function DateColumnOf(op: Operation, params: Params): string {
    match op
    case ProgressOp => "rq"
    case PayrollOp => if CheckFlag(params) then "check_time" else "inputdate"
  }

  /** The calendar day that a cell starts with. */
  function DayIn(row: Row, column: string): Option<int> {
    if column !in row then None
    else
      match row[column]
      case Text(_, _, _, prefix) => prefix
      case Day(d) => Some(d)
      case Amount(_) => None
  }

  ghost predicate Timely(row: Row, op: Operation, params: Params, window: Window) {
    var day := DayIn(row, DateColumnOf(op, params));
    day.Some? && window.from <= day.value <= window.to
  }

  /** The row is of the styles, orders, plans, materials and beds that were asked for. */
  predicate AskedFor(row: Row, op: Operation, f: Filters, groupby: seq<string>) {
    && (f.styleCodes.Some? ==>
          || Written(row, "bbreed") in f.styleCodes.value
          || (op == PayrollOp && Written(row, "huohao") in f.styleCodes.value))
    && (f.orderCodes.Some? ==>
          if op == ProgressOp && "baohao" in groupby then Written(row, "dh") in f.orderCodes.value
          else Written(row, "jhdh") in f.orderCodes.value)
    && (f.planCodes.Some? ==> Written(row, "jhdh") in f.planCodes.value)
    && (f.materialIds.Some? ==> Written(row, "userid") in f.materialIds.value)
    && (f.bedCodes.Some? ==> Written(row, "chuanghao") in f.bedCodes.value)
  }

  ghost predicate Served(row: Row, op: Operation, caller: Caller, window: Window) {
    && Entitled(row, caller.filters, caller.role) && Timely(row, op, caller.params, window)
    && AskedFor(row, op, caller.filters, caller.params.groupby)
  }

  // ---------------------------------------------------------------- the program's tests mean the same

  lemma {:induction false} StripsToOne(s: string)
    ensures Strip(s) == "1" <==> exists i :: 0 <= i < |s| && OneAt(s, i)
    decreases |s|
  {
    if s != "" && Space(s[0]) {
      StripsToOne(s[1..]);
      if i :| 0 <= i < |s| && OneAt(s, i) {
        assert s[1..][i - 1] == '1';
        assert OneAt(s[1..], i - 1);
      }
      if i :| 0 <= i < |s[1..]| && OneAt(s[1..], i) {
        assert forall j :: 0 < j < |s| ==> s[j] == s[1..][j - 1];
        assert OneAt(s, i + 1);
      }
    } else if s != "" && Space(s[|s| - 1]) {
      var n := |s| - 1;
      StripsToOne(s[..n]);
      if i :| 0 <= i < |s| && OneAt(s, i) {
        assert s[..n][i] == '1';
        assert OneAt(s[..n], i);
      }
      if i :| 0 <= i < n && OneAt(s[..n], i) {
        assert forall j :: 0 <= j < n ==> s[j] == s[..n][j];
        assert OneAt(s, i);
      }
    } else {
      if s == "1" {
        assert OneAt(s, 0);
      }
      if i :| 0 <= i < |s| && OneAt(s, i) {
        assert i == 0 && |s| == 1;
        assert s == ['1'];
      }
    }
  }

  lemma SameDateColumn(op: Operation, params: Params)
    ensures AnchorColumn(op, params) == DateColumnOf(op, params)
  {
    if "Flag" in params.other {
      StripsToOne(params.other["Flag"]);
    }
  }

  lemma SameScope(row: Row, caller: Caller)
    ensures InScope(row, caller) <==> Entitled(row, caller.filters, caller.role)
  {
  }

  lemma SameWindow(row: Row, op: Operation, params: Params, window: Window)
    ensures InWindow(row, AnchorColumn(op, params), window) <==> Timely(row, op, params, window)
    ensures AnchorDay(Get(row, AnchorColumn(op, params))) == DayIn(row, DateColumnOf(op, params))
  {
    SameDateColumn(op, params);
  }

  lemma SameQuestion(row: Row, op: Operation, caller: Caller)
    ensures Matches(row, op, caller) <==> AskedFor(row, op, caller.filters, caller.params.groupby)
  {
  }

  // ---------------------------------------------------------------- views

  /** The rows in scope and window that lack the bed column a question filters by. */
  ghost predicate BedsMissing(detail: seq<Row>, op: Operation, caller: Caller, window: Window) {
    caller.filters.bedCodes.Some? && exists row :: row in detail && Bedless(row, op, caller, window)
  }

  ghost predicate Bedless(row: Row, op: Operation, caller: Caller, window: Window) {
    && Entitled(row, caller.filters, caller.role) && Timely(row, op, caller.params, window)
    && "chuanghao" !in row
  }

  lemma SlicedMembers(detail: seq<Row>, op: Operation, caller: Caller, window: Window, row: Row)
    ensures row in Sliced(Scoped(detail, caller), op, caller.params, window) <==>
            row in detail && Entitled(row, caller.filters, caller.role) && Timely(row, op, caller.params, window)
  {
    var scoped := Scoped(detail, caller);
    SelectMembers(detail, r => InScope(r, caller), row);
    SelectMembers(scoped, r => InWindow(r, AnchorColumn(op, caller.params), window), row);
    SameScope(row, caller);
    SameWindow(row, op, caller.params, window);
  }

  lemma BedsMissingMeant(detail: seq<Row>, op: Operation, caller: Caller, window: Window)
    ensures LacksBeds(Sliced(Scoped(detail, caller), op, caller.params, window), caller) <==>
            BedsMissing(detail, op, caller, window)
  {
    var sliced := Sliced(Scoped(detail, caller), op, caller.params, window);
    if i :| 0 <= i < |sliced| && "chuanghao" !in sliced[i] {
      SlicedMembers(detail, op, caller, window, sliced[i]);
    }
    if row :| row in detail && Bedless(row, op, caller, window) {
      SlicedMembers(detail, op, caller, window, row);
      var i :| 0 <= i < |sliced| && sliced[i] == row;
    }
  }

  lemma ViewIsServed(detail: seq<Row>, op: Operation, caller: Caller, window: Window)
    ensures Select(Sliced(Scoped(detail, caller), op, caller.params, window), row => Matches(row, op, caller)) ==
            Select(detail, row => Served(row, op, caller, window))
  {
    var scope, slice, business := (row: Row) => InScope(row, caller),
                                (row: Row) => InWindow(row, AnchorColumn(op, caller.params), window),
                                (row: Row) => Matches(row, op, caller);
    SelectTwice(detail, scope, slice);
    SelectTwice(detail, row => scope(row) && slice(row), business);
    forall i | 0 <= i < |detail|
      ensures (scope(detail[i]) && slice(detail[i]) && business(detail[i])) == Served(detail[i], op, caller, window)
    {
      SameScope(detail[i], caller);
      SameWindow(detail[i], op, caller.params, window);
      SameQuestion(detail[i], op, caller);
    }
    SelectAgrees(detail, row => (row => scope(row) && slice(row))(row) && business(row),
                 row => Served(row, op, caller, window));
  }

  // ---------------------------------------------------------------- every answer and every refusal

  lemma DetailMeant(source: seq<Row>, op: Operation)
    ensures Detail(source, op).None? <==> op == ProgressOp && exists row :: row in source && DayOf(row).None?
  {
    if op == ProgressOp {
      DeriveRowwise(source);
      forall row
        ensures DeriveRow(row).Some? <==> DayOf(row).Some?
      {
        DerivedDay(row);
      }
      if row :| row in source && DayOf(row).None? {
        var i :| 0 <= i < |source| && source[i] == row;
      }
    }
  }

  lemma AnchoredMeant(detail: seq<Row>, op: Operation, params: Params)
    ensures Anchored(detail, op, params) <==>
            forall row :: row in detail ==> DayIn(row, DateColumnOf(op, params)).Some?
  {
    SameDateColumn(op, params);
    forall i | 0 <= i < |detail|
      ensures detail[i] in detail
      ensures AnchorDay(Get(detail[i], AnchorColumn(op, params))) == DayIn(detail[i], DateColumnOf(op, params))
    {
    }
    if Anchored(detail, op, params) {
      forall row | row in detail
        ensures DayIn(row, DateColumnOf(op, params)).Some?
      {
        var i :| 0 <= i < |detail| && detail[i] == row;
      }
    }
  }

  /**
    What a question answers: refused for a progress row without a date, for a row without a day in
    the question's date column, or for a row in scope and window without the bed column asked for;
    else the rows that are served, in the order of the detail, grouped as asked.
  */
  lemma AnswerExactly(source: seq<Row>, op: Operation, caller: Caller, window: Window)
    ensures Detail(source, op).None? <==> op == ProgressOp && exists row :: row in source && DayOf(row).None?
    ensures Project(source, op, caller, window) ==
            match Detail(source, op)
            case None => Err(InvalidDate)
            case Some(detail) =>
              if exists row :: row in detail && DayIn(row, DateColumnOf(op, caller.params)).None?
              then Err(InvalidAnchor)
              else if BedsMissing(detail, op, caller, window) then Err(NoBedDimension)
              else
                match Regroup(Select(detail, row => Served(row, op, caller, window)), op, caller.params.groupby)
                case None => Err(Ungroupable)
                case Some(grouped) => Ok(grouped)
  {
    DetailMeant(source, op);
    if Detail(source, op).Some? {
      var detail := Detail(source, op).value;
      AnchoredMeant(detail, op, caller.params);
      BedsMissingMeant(detail, op, caller, window);
      ViewIsServed(detail, op, caller, window);
    }
  }

  lemma DetailIsNormal(source: seq<Row>, op: Operation)
    requires Detail(source, op).Some?
    ensures op == ProgressOp ==> NormalRows(Detail(source, op).value)
  {
    if op == ProgressOp {
      DeriveNormal(source);
    }
  }

  lemma ServedIsNormal(detail: seq<Row>, op: Operation, caller: Caller, window: Window)
    requires op == ProgressOp ==> NormalRows(detail)
    ensures op == ProgressOp ==> NormalRows(Select(detail, row => Served(row, op, caller, window)))
  {
    var served := Select(detail, row => Served(row, op, caller, window));
    if op == ProgressOp {
      forall i | 0 <= i < |served|
        ensures Normal(served[i])
      {
        SelectMembers(detail, row => Served(row, op, caller, window), served[i]);
        var j :| 0 <= j < |detail| && detail[j] == served[i];
      }
    }
  }

  /**
    Without grouping, an answer is exactly the rows of the detail that the caller is entitled to,
    in the window and asked for, in their order.
  */
  lemma UngroupedAnswer(source: seq<Row>, op: Operation, caller: Caller, window: Window)
    requires caller.params.groupby == [] && Project(source, op, caller, window).Ok?
    ensures var detail, out := Detail(source, op).value, Project(source, op, caller, window).value;
            && out == Select(detail, row => Served(row, op, caller, window))
            && forall row :: row in out <==>
                row in detail && Entitled(row, caller.filters, caller.role)
                && Timely(row, op, caller.params, window) && AskedFor(row, op, caller.filters, [])
  {
    AnswerExactly(source, op, caller, window);
    var detail, out := Detail(source, op).value, Project(source, op, caller, window).value;
    DetailIsNormal(source, op);
    ServedIsNormal(detail, op, caller, window);
    UngroupedServes(Select(detail, row => Served(row, op, caller, window)), op);
    forall row
      ensures row in out <==> row in detail && Served(row, op, caller, window)
    {
      SelectMembers(detail, r => Served(r, op, caller, window), row);
    }
  }

  /** A department head sees no row outside the own departments, whatever departments were asked for. */
  lemma DepartmentHeld(source: seq<Row>, op: Operation, caller: Caller, window: Window, departments: set<string>)
    requires caller.role == Department && caller.filters.deptIds == Some(departments)
    requires caller.params.groupby == [] && Project(source, op, caller, window).Ok?
    ensures forall row: Row :: row in Project(source, op, caller, window).value ==>
              "dept" in row && row["dept"].Text? && row["dept"].s != "" && row["dept"].s in departments
  {
    UngroupedAnswer(source, op, caller, window);
  }

  /**
    Grouped or not, rows outside scope, window and question change nothing: two row sets whose
    served rows agree get the same answer, unless one of them is refused before that.
  */
  lemma OutsidersChangeNothing(a: seq<Row>, b: seq<Row>, op: Operation, caller: Caller, window: Window)
    requires Project(a, op, caller, window).Ok? || Project(a, op, caller, window) == Err(Ungroupable)
    requires Project(b, op, caller, window).Ok? || Project(b, op, caller, window) == Err(Ungroupable)
    requires Select(Detail(a, op).value, row => Served(row, op, caller, window)) ==
             Select(Detail(b, op).value, row => Served(row, op, caller, window))
    ensures Project(a, op, caller, window) == Project(b, op, caller, window)
  {
    AnswerExactly(a, op, caller, window);
    AnswerExactly(b, op, caller, window);
  }
}
