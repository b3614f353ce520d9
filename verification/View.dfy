/**
  What one caller sees of a tenant's detail: authorised scope, calendar slice, business filters,
  then grouping. Everything a caller is served, from the cache or from a direct fetch, goes through
  `Project`.
*/
module View {
  import opened Wrappers
  import opened TextOrder
  import opened Table
  import opened Progress
  import opened Footer
  import opened PayrollView
  import opened PayrollGroups

  datatype Operation = PayrollOp | ProgressOp

  datatype Role = Owner | Employee | Department

  /** `None` means that the dimension is not restricted. */
  datatype Filters = Filters(
    employeeIds: Option<set<string>>, deptIds: Option<set<string>>, requestedDeptIds: Option<set<string>>,
    orderCodes: Option<set<string>>, styleCodes: Option<set<string>>, planCodes: Option<set<string>>,
    materialIds: Option<set<string>>, bedCodes: Option<set<string>>)

  datatype Params = Params(groupby: seq<string>, other: map<string, string>)

  /** An inclusive range of calendar days. */
  datatype Window = Window(from: int, to: int)

  datatype Caller = Caller(filters: Filters, role: Role, params: Params)

  datatype ViewError = InvalidDate | InvalidAnchor | NoBedDimension | Ungroupable

  function Select(rows: seq<Row>, keep: Row -> bool): seq<Row> {
    if rows == [] then []
    else if keep(rows[0]) then [rows[0]] + Select(rows[1..], keep)
    else Select(rows[1..], keep)
  }

  // ---------------------------------------------------------------- the three filters

  predicate Allows(allowed: Option<set<string>>, text: string) { allowed.None? || text in allowed.value }

  function DeptScope(filters: Filters, role: Role): Option<set<string>> {
    if role.Department? then filters.deptIds else filters.requestedDeptIds
  }

  /** A row without a department, or without an employee, is outside every restricted scope. */
  predicate InScope(row: Row, caller: Caller) {
    var dept, uid := TextOf(Get(row, "dept")), TextOf(Get(row, "uid"));
    var depts, employees := DeptScope(caller.filters, caller.role), caller.filters.employeeIds;
    && (depts.Some? ==> dept != "" && dept in depts.value)
    && (employees.Some? ==> uid != "" && uid in employees.value)
  }

  predicate ByCheckTime(params: Params) { "Flag" in params.other && Strip(params.other["Flag"]) == "1" }

  function AnchorColumn(op: Operation, params: Params): string {
    if op.ProgressOp? then DateColumn else if ByCheckTime(params) then "check_time" else "inputdate"
  }

  predicate InWindow(row: Row, anchor: string, window: Window) {
    var day := AnchorDay(Get(row, anchor));
    day.Some? && window.from <= day.value <= window.to
  }

  predicate Matches(row: Row, op: Operation, caller: Caller) {
    var f := caller.filters;
    var orderColumn := if op.ProgressOp? && "baohao" in caller.params.groupby then "dh" else "jhdh";
    && (f.styleCodes.Some? ==>
          TextOf(Get(row, "bbreed")) in f.styleCodes.value ||
          (op.PayrollOp? && TextOf(Get(row, "huohao")) in f.styleCodes.value))
    && Allows(f.orderCodes, TextOf(Get(row, orderColumn)))
    && Allows(f.planCodes, TextOf(Get(row, "jhdh")))
    && Allows(f.materialIds, TextOf(Get(row, "userid")))
    && Allows(f.bedCodes, TextOf(Get(row, "chuanghao")))
  }

  predicate LacksBeds(rows: seq<Row>, caller: Caller) {
    caller.filters.bedCodes.Some? && exists i :: 0 <= i < |rows| && "chuanghao" !in rows[i]
  }

  function Scoped(rows: seq<Row>, caller: Caller): seq<Row> { Select(rows, row => InScope(row, caller)) }

  function Sliced(rows: seq<Row>, op: Operation, params: Params, window: Window): seq<Row> {
    Select(rows, row => InWindow(row, AnchorColumn(op, params), window))
  }

  /** Scope first, so that nothing outside it reaches a later step. */
  function LocalView(rows: seq<Row>, op: Operation, caller: Caller, window: Window): Result<seq<Row>, ViewError> {
    var sliced := Sliced(Scoped(rows, caller), op, caller.params, window);
    if LacksBeds(sliced, caller) then Err(NoBedDimension) else Ok(Select(sliced, row => Matches(row, op, caller)))
  }

  // ---------------------------------------------------------------- projection

  function Detail(rows: seq<Row>, op: Operation): Option<seq<Row>> {
    if op.ProgressOp? then Derive(rows) else Some(rows)
  }

  predicate Anchored(rows: seq<Row>, op: Operation, params: Params) {
    forall i :: 0 <= i < |rows| ==> AnchorDay(Get(rows[i], AnchorColumn(op, params))).Some?
  }

  ghost function Regroup(rows: seq<Row>, op: Operation, groupby: seq<string>): Option<seq<Row>> {
    if op.ProgressOp? then Aggregate(rows, groupby)
    else if groupby != [] then PayrollGrouped(rows, groupby)
    else Some(rows)
  }

  /** The steps after validation. */
  ghost function ViewOf(detail: seq<Row>, op: Operation, caller: Caller, window: Window): Result<seq<Row>, ViewError> {
    match LocalView(detail, op, caller, window)
    case Err(e) => Err(e)
    case Ok(rows) =>
      match Regroup(rows, op, caller.params.groupby)
      case None => Err(Ungroupable)
      case Some(grouped) => Ok(grouped)
  }

  ghost function Project(source: seq<Row>, op: Operation, caller: Caller, window: Window): Result<seq<Row>, ViewError> {
    match Detail(source, op)
    case None => Err(InvalidDate)
    case Some(detail) =>
      if !Anchored(detail, op, caller.params) then Err(InvalidAnchor) else ViewOf(detail, op, caller, window)
  }

  /** The answer: the projected rows and the footer recomputed from them. */
  datatype Answer = Answer(rows: seq<Row>, footer: FooterMap)

  ghost function Serve(source: seq<Row>, footer: FooterMap, op: Operation, caller: Caller,
                       window: Window): Result<Answer, ViewError> {
    match Project(source, op, caller, window)
    case Err(e) => Err(e)
    case Ok(rows) => Ok(Answer(rows, Recomputed(rows, footer)))
  }

  /** The executable projection. */
  method ProjectRows(source: seq<Row>, op: Operation, caller: Caller, window: Window)
    returns (r: Result<seq<Row>, ViewError>)
    ensures r == Project(source, op, caller, window)
  {
    var detail := source;
    if op.ProgressOp? {
      var derived := DeriveProgressRows(source);
      if derived.Err? {
        return Err(InvalidDate);
      }
      detail := derived.value;
    }
    if !Anchored(detail, op, caller.params) {
      return Err(InvalidAnchor);
    }
    var view := LocalView(detail, op, caller, window);
    if view.Err? {
      return view;
    }
    if op.ProgressOp? {
      var grouped := AggregateProgressRows(view.value, caller.params.groupby);
      return if grouped.Ok? then Ok(grouped.value) else Err(Ungroupable);
    }
    if caller.params.groupby != [] {
      var grouped := AggregatePayrollRows(view.value, caller.params.groupby);
      return if grouped.Ok? then Ok(grouped.value) else Err(Ungroupable);
    }
    return view;
  }

  // ---------------------------------------------------------------- filters compose

  lemma {:induction false} SelectMembers(rows: seq<Row>, keep: Row -> bool, row: Row)
    ensures row in Select(rows, keep) <==> row in rows && keep(row)
  {
    if rows != [] {
      SelectMembers(rows[1..], keep, row);
      assert rows == [rows[0]] + rows[1..];
    }
  }

  lemma {:induction false} SelectAgrees(rows: seq<Row>, f: Row -> bool, g: Row -> bool)
    requires forall i :: 0 <= i < |rows| ==> f(rows[i]) == g(rows[i])
    ensures Select(rows, f) == Select(rows, g)
  {
    if rows != [] {
      SelectAgrees(rows[1..], f, g);
    }
  }

  /** Filtering twice is filtering by both, in either order. */
  lemma {:induction false} SelectTwice(rows: seq<Row>, f: Row -> bool, g: Row -> bool)
    ensures Select(Select(rows, f), g) == Select(rows, row => f(row) && g(row))
  {
    if rows != [] {
      SelectTwice(rows[1..], f, g);
      if f(rows[0]) {
        assert ([rows[0]] + Select(rows[1..], f))[1..] == Select(rows[1..], f);
      }
    }
  }

  lemma SelectSwap(rows: seq<Row>, f: Row -> bool, g: Row -> bool)
    ensures Select(Select(rows, f), g) == Select(Select(rows, g), f)
  {
    SelectTwice(rows, f, g);
    SelectTwice(rows, g, f);
    SelectAgrees(rows, row => f(row) && g(row), row => g(row) && f(row));
  }
}
