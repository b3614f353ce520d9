/**
  The executor in front of the snapshot store. Other callers and other replicas may change the
  store wherever the executor waits, so each wait is followed by a `Moment`: the store and the time
  it finds when it resumes.
*/
module SnapshotExecutor {
  import opened Wrappers
  import opened Table
  import opened Progress
  import opened Footer
  import opened View
  import opened Transparency
  import opened RaggedGroups
  import opened SnapshotCodec
  import opened ResultCache
  import opened CacheKeys

  type Store = map<Key, Slot>

  datatype Moment = Moment(store: Store, today: int, now: int)

  datatype Fetched = Fetched(rows: seq<Row>, footer: FooterMap, complete: bool)

  /** The owner-credential provider: not configured, failing, or answering. */
  datatype Producer = Absent | Raises | Gives(fetched: Fetched)

  /** Native replies are the customer system's own rows, filtered but not recomputed. */
  datatype Origin = FromSnapshot | FromDetail | FromNative

  datatype Reply = Reply(rows: seq<Row>, footer: FooterMap, complete: bool, origin: Origin)

  datatype Request = Request(tenant: string, op: Operation, caller: Caller, window: Window) {
    function Params(): Params { caller.params }
    function Key(): Key { KeyFor(tenant, op, caller.params, window) }
  }

  const OrderParams: set<string> := {"orderbyFields", "orderByType"}

  function DetailParams(params: Params): Params { View.Params.Params([], params.other - OrderParams) }

  const DefaultTolerance: real := 0.000001

  // ---------------------------------------------------------------- the honest customer system

  /** Questions that differ only in how they are presented are asked of the same rows. */
  ghost predicate Steady(rows: (string, Operation, map<string, string>) -> seq<Row>) {
    forall tenant, op, a, b :: SameAsked(a, b) ==> rows(tenant, op, a) == rows(tenant, op, b)
  }

  /** All rows a tenant's operation will ever list under the given parameters. */
  type Mes = rows: (string, Operation, map<string, string>) -> seq<Row> | Steady(rows)
    ghost witness (tenant: string, op: Operation, params: map<string, string>) => []

  ghost function WholeDetail(mes: Mes, key: Key): seq<Row> {
    Stored(mes(key.tenant, key.op, key.params), key.op, Params.Params([], key.params), key.window)
  }

  /** What a direct fetch of the question window lists. */
  ghost function Listing(mes: Mes, q: Request): seq<Row> {
    DetailOf(mes(q.tenant, q.op, q.Params().other), q.op, q.Params(), q.window)
  }

  /** The answer a caller should get. */
  ghost function Truth(mes: Mes, q: Request): Result<seq<Row>, ViewError> {
    Project(Listing(mes, q), q.op, q.caller, q.window)
  }

  /** The owner's detail of any window, under the parameters of the question. */
  ghost function WholeOf(mes: Mes, q: Request, window: Window): seq<Row> {
    WholeDetail(mes, KeyFor(q.tenant, q.op, q.Params(), window))
  }

  /** The answer with blanks in every column that occurs in the given window. */
  ghost function PaddedTruth(mes: Mes, q: Request, outer: Window): Result<seq<Row>, ViewError> {
    Project(Pad(WholeOf(mes, q, q.window), ColumnsOf(WholeOf(mes, q, outer))), q.op, q.caller, q.window)
  }

  /** What may be answered from a snapshot of the given window: a snapshot just fetched is not padded. */
  ghost predicate Answers(mes: Mes, q: Request, outer: Window, view: Result<seq<Row>, ViewError>) {
    && Covers(outer, q.window)
    && (view == PaddedTruth(mes, q, outer) || (outer == q.window && view == Truth(mes, q)))
  }

  /** The rows of one operation all carry the same columns. */
  ghost predicate Uniform(mes: Mes, shape: Operation -> set<string>) {
    "dh_date" !in shape(ProgressOp) && forall key: Key :: Rectangular(WholeDetail(mes, key), shape(key.op))
  }

  predicate Shown(row: Row, op: Operation, caller: Caller) { InScope(row, caller) && Matches(row, op, caller) }

  function Visible(rows: seq<Row>, op: Operation, caller: Caller): seq<Row> {
    Select(rows, row => Shown(row, op, caller))
  }

  // ---------------------------------------------------------------- footers

  /** The footer keys that every complete reply to an operation has, and those that it may have. */
  datatype Bounds = Bounds(least: set<string>, most: set<string>)

  type Announced = Operation -> Bounds

  predicate Announces(footer: FooterMap, b: Bounds) { b.least <= footer.Keys <= b.most }

  /** Every figure in the footer is the total of the rows beside it. */
  ghost predicate TrueTotals(rows: seq<Row>, footer: FooterMap, totals: set<string>) {
    forall key :: key in footer ==>
      key in totals && TotalFor(rows, key).Some? && footer[key] == Amount(TotalFor(rows, key).value)
  }

  /** No announced key is missing that has a total over the rows. */
  ghost predicate HasTotals(footer: FooterMap, rows: seq<Row>, totals: set<string>) {
    forall key :: key in totals && TotalFor(rows, key).Some? ==> key in footer
  }

  /** Of the announced keys that have a total over the rows, the footer has those with one over the whole detail. */
  ghost predicate HasShared(footer: FooterMap, rows: seq<Row>, whole: seq<Row>, totals: set<string>) {
    forall key :: key in totals && TotalFor(whole, key).Some? && TotalFor(rows, key).Some? ==> key in footer
  }

  // ---------------------------------------------------------------- what a fetch may return

  /**
    A caller's own fetch may leave out rows the caller may not see or did not ask for; a complete
    one leaves out nothing else and adds nothing the caller would see.
  */
  ghost predicate Honest(f: Fetched, mes: Mes, q: Request, totals: Announced) {
    f.complete ==>
      Announces(f.footer, totals(q.op)) && Visible(f.rows, q.op, q.caller) == Visible(Listing(mes, q), q.op, q.caller)
  }

  /**
    The customer system may be asked to group. What it then adds up is its own affair: only an
    ungrouped reply is held against the listing.
  */
  ghost predicate HonestNative(f: Fetched, mes: Mes, q: Request, totals: Announced) {
    q.Params().groupby == [] ==> Honest(f, mes, q, totals)
  }

  /** A complete answer to the owner's credential is the whole detail of the window. */
  ghost predicate Whole(p: Producer, mes: Mes, q: Request, totals: Announced) {
    p.Gives? && p.fetched.complete ==>
      Announces(p.fetched.footer, totals(q.op)) && p.fetched.rows == Listing(mes, q)
  }

  // ---------------------------------------------------------------- what the store holds

  ghost predicate FaithfulEntry(mes: Mes, totals: Announced, key: Key, payload: Payload) {
    && payload == Encode(key.op, WholeDetail(mes, key), payload.footer, key.window, key.params)
    && payload.footer.Keys <= totals(key.op).most
    && HasTotals(payload.footer, WholeDetail(mes, key), totals(key.op).least)
  }

  /** Every entry encodes exactly the owner's detail of the window in its key. */
  ghost predicate Faithful(mes: Mes, totals: Announced, store: Store) {
    forall key :: key in store ==> FaithfulEntry(mes, totals, key, store[key].payload)
  }

  ghost predicate Sane(mes: Mes, totals: Announced, store: Store, tolerance: real) {
    AllAdmitted(store, tolerance) && Faithful(mes, totals, store)
  }

  lemma SameAnchorSameDetail(universe: seq<Row>, op: Operation, a: Params, b: Params, window: Window)
    requires AnchorColumn(op, a) == AnchorColumn(op, b)
    ensures DetailOf(universe, op, a, window) == DetailOf(universe, op, b, window)
    ensures Stored(universe, op, a, window) == Stored(universe, op, b, window)
  {
    SelectAgrees(universe, row => Filed(row, op, a, window), row => Filed(row, op, b, window));
  }

  /** A key's detail is the detail its request asks for, in any window. */
  lemma WholeIsStored(mes: Mes, q: Request, window: Window)
    ensures WholeDetail(mes, KeyFor(q.tenant, q.op, q.Params(), window)) ==
            Stored(mes(q.tenant, q.op, q.Params().other), q.op, q.Params(), window)
  {
    var normal := NormalParams(q.Params().other);
    NormalParamsKeep(q.Params().other);
    AnchorSurvives(q.op, q.Params());
    SameAnchorSameDetail(mes(q.tenant, q.op, normal), q.op, Params.Params([], normal), q.Params(), window);
  }

  lemma DecodesPadded(mes: Mes, totals: Announced, key: Key, payload: Payload)
    requires FaithfulEntry(mes, totals, key, payload) && Decode(payload).Some?
    ensures Decode(payload).value == Pad(WholeDetail(mes, key), ColumnsOf(WholeDetail(mes, key)))
  {
    var rows := WholeDetail(mes, key);
    SortedColumnsMembers(rows);
    assert (set c | c in payload.columns) == ColumnsOf(rows);
    CodecRoundTrip(key.op, rows, payload.footer, key.window, key.params);
  }

  /** Detail may be padded to the columns that occur in it. */
  lemma ColumnsHold(rows: seq<Row>, op: Operation)
    requires op.ProgressOp? ==> NormalRows(rows)
    ensures Holds(ColumnsOf(rows), rows, op)
  {
    assert op.ProgressOp? ==> forall i :: 0 <= i < |rows| ==> Normal(rows[i]);
  }

  lemma WholeHolds(mes: Mes, q: Request, outer: Window)
    ensures Holds(ColumnsOf(WholeOf(mes, q, outer)),
                  Stored(mes(q.tenant, q.op, q.Params().other), q.op, q.Params(), outer), q.op)
  {
    WholeIsStored(mes, q, outer);
    StoredIsReady(mes(q.tenant, q.op, q.Params().other), q.op, q.Params(), outer);
    ColumnsHold(WholeOf(mes, q, outer), q.op);
  }

  /** Padded whole detail of any window that covers the question serves the padded truth. */
  lemma PaddedServes(mes: Mes, q: Request, outer: Window)
    requires Covers(outer, q.window)
    ensures Project(Pad(WholeOf(mes, q, outer), ColumnsOf(WholeOf(mes, q, outer))), q.op, q.caller, q.window) ==
            PaddedTruth(mes, q, outer)
  {
    WholeIsStored(mes, q, outer);
    WholeIsStored(mes, q, q.window);
    WholeHolds(mes, q, outer);
    PaddedTransparency(mes(q.tenant, q.op, q.Params().other), q.op, q.caller, outer, q.window,
                       ColumnsOf(WholeOf(mes, q, outer)));
  }

  /** The whole detail of the question window serves the truth. */
  lemma OwnWindowServes(mes: Mes, q: Request)
    ensures Project(WholeOf(mes, q, q.window), q.op, q.caller, q.window) == Truth(mes, q)
  {
    WholeIsStored(mes, q, q.window);
    DirectProjects(mes(q.tenant, q.op, q.Params().other), q.op, q.caller, q.window);
  }

  /** The rows of the question window that a caller may see and asks for, before grouping. */
  ghost function Asked(mes: Mes, q: Request): Result<seq<Row>, ViewError> {
    LocalView(WholeOf(mes, q, q.window), q.op, q.caller, q.window)
  }

  /**
    A snapshot of any covering window answers the truth if and only if its blanks are invisible in
    the caller's rows; or, where these lack the bed column the caller filters by, the snapshot has
    none either.
  */
  lemma SnapshotExactly(mes: Mes, q: Request, outer: Window)
    requires Covers(outer, q.window)
    ensures PaddedTruth(mes, q, outer) == Truth(mes, q) <==>
            var columns := ColumnsOf(WholeOf(mes, q, outer));
            if Asked(mes, q).Ok? then PadsUnseen(Asked(mes, q).value, columns, q.op, q.Params().groupby)
            else "chuanghao" !in columns
  {
    WholeIsStored(mes, q, outer);
    WholeIsStored(mes, q, q.window);
    WholeHolds(mes, q, outer);
    PaddedServes(mes, q, outer);
    RaggedAnswersDiffer(mes(q.tenant, q.op, q.Params().other), q.op, q.caller, outer, q.window,
                        ColumnsOf(WholeOf(mes, q, outer)));
  }

  /** Whole detail of any window that covers the question serves the truth. */
  lemma WholeServes(mes: Mes, shape: Operation -> set<string>, q: Request, outer: Window)
    requires Uniform(mes, shape) && Covers(outer, q.window)
    ensures Project(WholeOf(mes, q, outer), q.op, q.caller, q.window) == Truth(mes, q)
  {
    var universe, columns := mes(q.tenant, q.op, q.Params().other), shape(q.op);
    WholeIsStored(mes, q, outer);
    WholeIsStored(mes, q, q.window);
    var wide, narrow := Stored(universe, q.op, q.Params(), outer), Stored(universe, q.op, q.Params(), q.window);
    assert Rectangular(WholeOf(mes, q, outer), columns);
    assert Rectangular(WholeOf(mes, q, q.window), columns);
    PadRectangular(wide, columns);
    PadRectangular(narrow, columns);
    assert Holds(columns, wide, q.op);
    PaddedTransparency(universe, q.op, q.caller, outer, q.window, columns);
    DirectProjects(universe, q.op, q.caller, q.window);
  }

  lemma RectangularPads(rows: seq<Row>, columns: set<string>)
    requires Rectangular(rows, columns)
    ensures Pad(rows, ColumnsOf(rows)) == rows
  {
    if rows == [] {
      assert Pad(rows, ColumnsOf(rows)) == [];
    } else {
      assert rows[0].Keys == columns;
      assert ColumnsOf(rows) == columns;
      PadRectangular(rows, columns);
    }
  }

  /** Where all rows of an operation carry the same columns, no snapshot answers anything but the truth. */
  lemma UniformAnswers(mes: Mes, shape: Operation -> set<string>, q: Request, outer: Window,
                       view: Result<seq<Row>, ViewError>)
    requires Uniform(mes, shape) && Answers(mes, q, outer, view)
    ensures view == Truth(mes, q)
  {
    PaddedServes(mes, q, outer);
    assert Rectangular(WholeOf(mes, q, outer), shape(q.op));
    RectangularPads(WholeOf(mes, q, outer), shape(q.op));
    WholeServes(mes, shape, q, outer);
  }

  /** A hit that may be used: its rows answer, and its footer keeps what is announced. */
  ghost predicate Serves(hit: Hit, mes: Mes, q: Request, totals: Announced) {
    && Answers(mes, q, hit.window, Project(hit.rows, q.op, q.caller, q.window))
    && hit.footer.Keys <= totals(q.op).most
    && HasTotals(hit.footer, WholeOf(mes, q, hit.window), totals(q.op).least)
  }

  /** What `read` finds in a faithful store serves the padded truth. */
  lemma HitServes(mes: Mes, totals: Announced, q: Request, at: Moment, policy: Policy)
    requires Faithful(mes, totals, at.store)
    requires Found(q, at, policy).Some?
    ensures var hit := Found(q, at, policy).value;
            && Serves(hit, mes, q, totals)
            && Project(hit.rows, q.op, q.caller, q.window) == PaddedTruth(mes, q, hit.window)
  {
    var windows := Candidates(at.today, policy, q.window);
    LookupFinds(at.store, q.tenant, q.op, q.Params(), windows, at.now);
    var hit := Lookup(at.store, q.tenant, q.op, q.Params(), windows, at.now).value;
    CandidatesCover(at.today, policy, q.window);
    var key := KeyFor(q.tenant, q.op, q.Params(), hit.window);
    DecodesPadded(mes, totals, key, at.store[key].payload);
    PaddedServes(mes, q, hit.window);
  }

  // ---------------------------------------------------------------- the caller's own fetch

  lemma ShownSurvives(row: Row, op: Operation, caller: Caller)
    requires DeriveRow(row).Some?
    ensures Shown(DeriveRow(row).value, op, caller) == Shown(row, op, caller)
  {
  }

  lemma VisibleDetail(rows: seq<Row>, op: Operation, caller: Caller)
    requires Detail(rows, op).Some?
    ensures Detail(Visible(rows, op, caller), op) == Some(Visible(Detail(rows, op).value, op, caller))
  {
    var shown := (row: Row) => Shown(row, op, caller);
    if op.ProgressOp? {
      forall i | 0 <= i < |rows| && DeriveRow(rows[i]).Some?
        ensures shown(rows[i]) == shown(DeriveRow(rows[i]).value)
      {
        ShownSurvives(rows[i], op, caller);
      }
      DeriveSelect(rows, shown, shown);
    }
  }

  /** A view is the slice of the visible rows. */
  lemma ViewIsVisibleSlice(rows: seq<Row>, op: Operation, caller: Caller, window: Window)
    requires LocalView(rows, op, caller, window).Ok?
    ensures LocalView(rows, op, caller, window).value == Sliced(Visible(rows, op, caller), op, caller.params, window)
  {
    var scope, slice, business := (row: Row) => InScope(row, caller),
                                (row: Row) => InWindow(row, AnchorColumn(op, caller.params), window),
                                (row: Row) => Matches(row, op, caller);
    SelectSwap(Select(rows, scope), slice, business);
    SelectTwice(rows, scope, business);
    SelectAgrees(rows, row => scope(row) && business(row), row => Shown(row, op, caller));
  }

  /** Two listings that show the caller the same rows give the caller the same answer. */
  lemma VisibleDecides(a: seq<Row>, b: seq<Row>, op: Operation, caller: Caller, window: Window)
    requires Visible(a, op, caller) == Visible(b, op, caller)
    requires Project(a, op, caller, window).Ok?
    requires Detail(b, op).Some? && Anchored(Detail(b, op).value, op, caller.params)
    ensures Project(b, op, caller, window) in {Project(a, op, caller, window), Err(NoBedDimension)}
  {
    VisibleDetail(a, op, caller);
    VisibleDetail(b, op, caller);
    ViewIsVisibleSlice(Detail(a, op).value, op, caller, window);
    if LocalView(Detail(b, op).value, op, caller, window).Ok? {
      ViewIsVisibleSlice(Detail(b, op).value, op, caller, window);
    }
  }

  /** An honest, complete fetch that projects at all projects to the truth. */
  lemma FetchServes(f: Fetched, mes: Mes, q: Request, totals: Announced)
    requires Honest(f, mes, q, totals) && f.complete && Project(f.rows, q.op, q.caller, q.window).Ok?
    ensures Truth(mes, q) in {Project(f.rows, q.op, q.caller, q.window), Err(NoBedDimension)}
  {
    var universe := mes(q.tenant, q.op, q.Params().other);
    DetailDerives(universe, q.op, q.Params(), q.window);
    StoredIsReady(universe, q.op, q.Params(), q.window);
    VisibleDecides(f.rows, Listing(mes, q), q.op, q.caller, q.window);
  }

  predicate NeedsIn(needed: Option<set<string>>, column: string, fields: seq<string>) {
    needed.Some? ==> column in fields
  }

  /** Whether a grouped reply of the customer system still has every column the filters need. */
  predicate NativeHasFilters(q: Request) {
    var f, fields := q.caller.filters, q.Params().groupby;
    fields == [] ||
    (&& NeedsIn(DeptScope(f, q.caller.role), "dept", fields)
     && NeedsIn(f.employeeIds, "uid", fields)
     && NeedsIn(f.orderCodes, if "baohao" in fields then "dh" else "jhdh", fields)
     && NeedsIn(f.styleCodes, "bbreed", fields)
     && NeedsIn(f.planCodes, "jhdh", fields)
     && NeedsIn(f.materialIds, "userid", fields)
     && NeedsIn(f.bedCodes, "chuanghao", fields))
  }

  predicate LosesColumns(rows: seq<Row>, q: Request) {
    || ("dh" in q.Params().groupby && exists i :: 0 <= i < |rows| && IsBlank(Get(rows[i], DateColumn)))
    || (q.caller.filters.bedCodes.Some? && exists i :: 0 <= i < |rows| && "chuanghao" !in rows[i])
  }

  lemma VisibleTwice(rows: seq<Row>, op: Operation, caller: Caller)
    ensures Select(Scoped(rows, caller), row => Matches(row, op, caller)) == Visible(rows, op, caller)
  {
    var scope, business := (row: Row) => InScope(row, caller), (row: Row) => Matches(row, op, caller);
    SelectTwice(rows, scope, business);
    SelectAgrees(rows, row => scope(row) && business(row), row => Shown(row, op, caller));
  }

  /** What a fetch with the caller's own credential comes to, from the native and the detail fetch. */
  ghost predicate Realtimes(reply: Reply, q: Request, native: Fetched, detail: Fetched, tolerance: real) {
    && reply.origin == (if q.op.ProgressOp? && NativeHasFilters(q) && !LosesColumns(native.rows, q) then FromNative
                        else FromDetail)
    && (reply.origin.FromNative? ==>
          && reply.complete == native.complete && reply.rows == Visible(native.rows, q.op, q.caller)
          && reply.footer == if reply.rows == native.rows then native.footer
             else Recomputed(reply.rows, native.footer))
    && (reply.origin.FromDetail? ==>
          var view := Project(detail.rows, q.op, q.caller, q.window);
          && (reply.complete <==> detail.complete && view.Ok? && Reconciles(detail.rows, detail.footer, tolerance))
          && (view.Ok? ==> reply.rows == view.value && reply.footer == Recomputed(view.value, detail.footer))
          && (view.Err? ==> reply.rows == [] && reply.footer == map[]))
  }

  /** A fetch with the caller's own credential. `native` is asked first where progress allows it. */
  method Realtime(q: Request, native: Fetched, detail: Fetched, tolerance: real) returns (reply: Reply)
    ensures Realtimes(reply, q, native, detail, tolerance)
  {
    if q.op.ProgressOp? && NativeHasFilters(q) && !LosesColumns(native.rows, q) {
      var rows := Select(Scoped(native.rows, q.caller), row => Matches(row, q.op, q.caller));
      VisibleTwice(native.rows, q.op, q.caller);
      if rows == native.rows {
        return Reply(native.rows, native.footer, native.complete, FromNative);
      }
      var footer := RecomputedFooter(rows, native.footer);
      return Reply(rows, footer, native.complete, FromNative);
    }
    var view := ProjectRows(detail.rows, q.op, q.caller, q.window);
    if view.Err? {
      return Reply([], map[], false, FromDetail);
    }
    var footer := RecomputedFooter(view.value, detail.footer);
    var sound := FooterReconciles(detail.rows, detail.footer, tolerance);
    return Reply(view.value, footer, detail.complete && sound, FromDetail);
  }

  // ---------------------------------------------------------------- write-back of an owner's reply

  predicate Unnarrowed(f: Filters) {
    && f.employeeIds.None? && f.requestedDeptIds.None? && f.orderCodes.None? && f.styleCodes.None?
    && f.planCodes.None? && f.materialIds.None? && f.bedCodes.None?
  }

  predicate MayWriteBack(q: Request, complete: bool, mode: Mode) {
    && mode.Writes() && complete && q.caller.role.Owner? && q.Params().groupby == []
    && !("uid" in q.Params().other && q.Params().other["uid"] != "")
    && !("Uid" in q.Params().other && q.Params().other["Uid"] != "")
    && Unnarrowed(q.caller.filters)
  }

  lemma {:induction false} SelectAll(rows: seq<Row>, keep: Row -> bool)
    requires forall row :: row in rows ==> keep(row)
    ensures Select(rows, keep) == rows
  {
    if rows != [] {
      SelectAll(rows[1..], keep);
    }
  }

  lemma OwnerSeesAll(rows: seq<Row>, q: Request)
    requires q.caller.role.Owner? && Unnarrowed(q.caller.filters)
    ensures Visible(rows, q.op, q.caller) == rows
  {
    SelectAll(rows, row => Shown(row, q.op, q.caller));
  }

  /** The unnarrowed, ungrouped payroll view of a whole listing is the listing. */
  lemma OwnerViewIsListing(mes: Mes, q: Request)
    requires q.caller.role.Owner? && Unnarrowed(q.caller.filters) && q.Params().groupby == [] && q.op.PayrollOp?
    ensures Truth(mes, q) == Ok(Listing(mes, q))
  {
    var universe, rows := mes(q.tenant, q.op, q.Params().other), Listing(mes, q);
    StoredIsReady(universe, q.op, q.Params(), q.window);
    ReadyProjects(rows, q.op, q.caller, q.window);
    var detail := LocalView(rows, q.op, q.caller, q.window);
    assert detail.Ok?;
    ViewIsVisibleSlice(rows, q.op, q.caller, q.window);
    OwnerSeesAll(rows, q);
    StoredSlices(universe, q.op, q.Params(), q.window, q.window);
  }

  ghost predicate RealtimeReply(reply: Reply, q: Request, native: Fetched, detail: Fetched) {
    && reply.complete
    && (reply.origin.FromNative? ==>
          && native.complete && q.op.ProgressOp? && reply.rows == Visible(native.rows, q.op, q.caller)
          && reply.footer == if reply.rows == native.rows then native.footer
             else Recomputed(reply.rows, native.footer))
    && (reply.origin.FromDetail? ==>
          detail.complete && Project(detail.rows, q.op, q.caller, q.window) == Ok(reply.rows) &&
          reply.footer == Recomputed(reply.rows, detail.footer))
  }

  /** The rows an owner's unnarrowed fetch would write back are the owner's detail of the window. */
  lemma WriteBackIsWhole(mes: Mes, q: Request, totals: Announced, native: Fetched, detail: Fetched, reply: Reply)
    requires HonestNative(native, mes, q, totals) && Honest(detail, mes, q, totals)
    requires q.caller.role.Owner? && Unnarrowed(q.caller.filters) && q.Params().groupby == []
    requires RealtimeReply(reply, q, native, detail)
    requires reply.origin.FromNative? || (reply.origin.FromDetail? && q.op.PayrollOp?)
    ensures Detail(reply.rows, q.op) == Some(WholeDetail(mes, q.Key()))
    ensures reply.footer.Keys <= totals(q.op).most
    ensures HasTotals(reply.footer, WholeDetail(mes, q.Key()), totals(q.op).least)
    ensures reply.origin.FromDetail? ==> reply.footer == Recomputed(WholeDetail(mes, q.Key()), detail.footer)
  {
    WholeIsStored(mes, q, q.window);
    OwnerSeesAll(Listing(mes, q), q);
    if reply.origin.FromNative? {
      OwnerSeesAll(native.rows, q);
    } else {
      OwnerSeesAll(detail.rows, q);
      OwnerViewIsListing(mes, q);
    }
  }

  /**
    A write-back with a recomputed footer serves exactly what a direct fetch does if and only if the
    snapshot's blanks make no difference and every announced total that the caller's rows have, the
    whole detail has.
  */
  lemma WrittenBackServes(mes: Mes, q: Request, outer: Window, whole: FooterMap, direct: FooterMap)
    requires Covers(outer, q.window) && whole.Keys == direct.Keys
    ensures var rows := WholeOf(mes, q, outer);
            var served := Serve(Pad(rows, ColumnsOf(rows)), Recomputed(rows, whole), q.op, q.caller, q.window);
            served == Serve(Listing(mes, q), direct, q.op, q.caller, q.window) <==>
            && PaddedTruth(mes, q, outer) == Truth(mes, q)
            && (Truth(mes, q).Ok? ==> KeepsTotals(Truth(mes, q).value, rows, direct))
  {
    var rows := WholeOf(mes, q, outer);
    PaddedServes(mes, q, outer);
    if Truth(mes, q).Ok? {
      var view := Truth(mes, q).value;
      RecomputedFromKeys(view, whole, direct);
      RecomputedFromKeys(rows, whole, direct);
      RecomputedTwice(view, rows, whole);
      assert forall key :: key in whole <==> key in direct;
    }
  }

  /** Every total of the view among the announced ones exists over the whole detail too. */
  ghost predicate KeepsTotals(view: seq<Row>, whole: seq<Row>, announced: FooterMap) {
    forall key :: key in announced && TotalFor(view, key).Some? ==> TotalFor(whole, key).Some?
  }

  // ---------------------------------------------------------------- the executor

  /** Replacing or dropping entries that tell the truth keeps a sane store sane. */
  lemma WriteKeepsFaith(mes: Mes, totals: Announced, q: Request, store: Store, footer: FooterMap, expires: int)
    requires Faithful(mes, totals, store) && footer.Keys <= totals(q.op).most
    requires HasTotals(footer, WholeDetail(mes, q.Key()), totals(q.op).least)
    ensures Faithful(mes, totals,
              store[q.Key() := Slot(Encode(q.op, WholeDetail(mes, q.Key()), footer, q.window, q.Key().params),
                                    expires)])
  {
  }

  /** Order parameters and groupings name the same entry. */
  lemma DetailKey(q: Request)
    ensures KeyFor(q.tenant, q.op, DetailParams(q.Params()), q.window) == q.Key()
    ensures AnchorColumn(q.op, DetailParams(q.Params())) == AnchorColumn(q.op, q.Params())
  {
    assert "Flag" !in OrderParams;
    assert OrderParams <= ViewParams;
    assert NormalParams(DetailParams(q.Params()).other) == NormalParams(q.Params().other);
  }

  predicate Forbidden(params: Params) {
    exists key :: key in params.other && (Lower(key) in CredentialFields || Lower(key) in ScopeParams)
  }

  /** Served from a snapshot of the given window: its rows answer, and every footer figure is their total. */
  ghost predicate ServedFrom(reply: Reply, mes: Mes, q: Request, totals: Announced, outer: Window) {
    && Answers(mes, q, outer, Ok(reply.rows))
    && TrueTotals(reply.rows, reply.footer, totals(q.op).most)
    && HasShared(reply.footer, reply.rows, WholeOf(mes, q, outer), totals(q.op).least)
  }

  ghost predicate TellsTruth(reply: Reply, mes: Mes, q: Request, totals: Announced) {
    && (reply.origin.FromSnapshot? ==> reply.complete && exists outer :: ServedFrom(reply, mes, q, totals, outer))
    && (reply.origin.FromDetail? && reply.complete ==>
          && Truth(mes, q) in {Ok(reply.rows), Err(NoBedDimension)}
          && TrueTotals(reply.rows, reply.footer, totals(q.op).most)
          && HasTotals(reply.footer, reply.rows, totals(q.op).least))
    && (reply.origin.FromNative? && reply.complete && q.Params().groupby == [] ==> TellsRawTruth(reply.rows, mes, q))
  }

  /**
    Where every complete reply announces the same keys, a snapshot reply has the footer of a direct
    fetch, provided every total of its rows exists over the snapshot's whole detail.
  */
  lemma ServedFooter(reply: Reply, mes: Mes, q: Request, totals: Announced, outer: Window, direct: FooterMap)
    requires ServedFrom(reply, mes, q, totals, outer)
    requires totals(q.op).least == totals(q.op).most == direct.Keys
    requires KeepsTotals(reply.rows, WholeOf(mes, q, outer), direct)
    ensures reply.footer == Recomputed(reply.rows, direct)
  {
    var own := Recomputed(reply.rows, direct);
    forall key
      ensures key in reply.footer <==> key in own
    {
      assert key in direct <==> key in totals(q.op).least;
    }
  }

  /**
    Ungrouped native rows are the visible listing as the customer system prints it. Normalising
    their dates gives the true answer, unless the whole detail lacks the bed column; they are that
    answer themselves exactly when every one of them is normal already.
  */
  ghost predicate TellsRawTruth(rows: seq<Row>, mes: Mes, q: Request) {
    && rows == Visible(Listing(mes, q), q.op, q.caller)
    && Derive(rows).Some? && Truth(mes, q) in {Ok(Derive(rows).value), Err(NoBedDimension)}
    && (Truth(mes, q).Ok? ==> (Truth(mes, q) == Ok(rows) <==> NormalRows(rows)))
  }

  /** Rows that derive to themselves are normal, and the other way round. */
  lemma NormalExactly(rows: seq<Row>)
    ensures Derive(rows) == Some(rows) <==> NormalRows(rows)
  {
    DeriveNormal(rows);
  }

  lemma NativeRowsAreTruth(mes: Mes, q: Request)
    requires q.op.ProgressOp? && q.Params().groupby == []
    ensures TellsRawTruth(Visible(Listing(mes, q), q.op, q.caller), mes, q)
  {
    var universe, rows := mes(q.tenant, q.op, q.Params().other), Visible(Listing(mes, q), q.op, q.caller);
    var stored := Stored(universe, q.op, q.Params(), q.window);
    VisibleDetail(Listing(mes, q), q.op, q.caller);
    NormalExactly(rows);
    StoredIsReady(universe, q.op, q.Params(), q.window);
    var seen := Visible(stored, q.op, q.caller);
    assert Derive(rows) == Some(seen);
    if LocalView(stored, q.op, q.caller, q.window).Ok? {
      ViewIsVisibleSlice(stored, q.op, q.caller, q.window);
      VisibleSlices(universe, q);
      DeriveNormal(rows);
      UngroupedAggregate(seen, q);
    }
  }

  /** Everything stored for the question window lies in it. */
  lemma VisibleSlices(universe: seq<Row>, q: Request)
    ensures var seen := Visible(Stored(universe, q.op, q.Params(), q.window), q.op, q.caller);
            Sliced(seen, q.op, q.Params(), q.window) == seen
  {
    var stored := Stored(universe, q.op, q.Params(), q.window);
    StoredSlices(universe, q.op, q.Params(), q.window, q.window);
    var shown, slice := (row: Row) => Shown(row, q.op, q.caller),
      (row: Row) => InWindow(row, AnchorColumn(q.op, q.Params()), q.window);
    SelectSwap(stored, shown, slice);
  }

  lemma UngroupedAggregate(rows: seq<Row>, q: Request)
    requires q.op.ProgressOp? && q.Params().groupby == [] && NormalRows(rows)
    ensures Regroup(rows, q.op, q.Params().groupby) == Some(rows)
  {
    DeriveNormal(rows);
  }

  lemma RecomputedIsTrue(rows: seq<Row>, footer: FooterMap, b: Bounds)
    requires footer.Keys <= b.most
    ensures TrueTotals(rows, Recomputed(rows, footer), b.most)
    ensures b.least <= footer.Keys ==> HasTotals(Recomputed(rows, footer), rows, b.least)
  {
  }

  lemma RecomputedShares(rows: seq<Row>, whole: seq<Row>, footer: FooterMap, least: set<string>)
    requires HasTotals(footer, whole, least)
    ensures HasShared(Recomputed(rows, footer), rows, whole, least)
  {
  }

  lemma RealtimeTellsTruth(reply: Reply, mes: Mes, q: Request, totals: Announced, native: Fetched, detail: Fetched)
    requires HonestNative(native, mes, q, totals) && Honest(detail, mes, q, totals)
    requires !reply.origin.FromSnapshot? && (reply.complete ==> RealtimeReply(reply, q, native, detail))
    ensures TellsTruth(reply, mes, q, totals)
  {
    if reply.complete && reply.origin.FromDetail? {
      FetchServes(detail, mes, q, totals);
      RecomputedIsTrue(reply.rows, detail.footer, totals(q.op));
    }
    if reply.complete && reply.origin.FromNative? && q.Params().groupby == [] {
      NativeRowsAreTruth(mes, q);
    }
  }

  method ServeHit(hit: Hit, q: Request, validator: Answer -> bool) returns (reply: Option<Reply>)
    ensures reply == Taken(q, Some(hit), validator)
  {
    var rows := ProjectRows(hit.rows, q.op, q.caller, q.window);
    if rows.Err? {
      return None;
    }
    var footer := RecomputedFooter(rows.value, hit.footer);
    return if validator(Answer(rows.value, footer)) then Some(Reply(rows.value, footer, true, FromSnapshot)) else None;
  }

  // ---------------------------------------------------------------- one full step, as a function of what happens

  /** What a write of the given rows for the question makes of the store. */
  ghost function Entered(q: Request, rows: seq<Row>, footer: FooterMap, at: Moment, policy: Policy): Store {
    match Detail(rows, q.op)
    case None => at.store
    case Some(detail) =>
      at.store[q.Key() := Slot(Encode(q.op, detail, footer, q.window, q.Key().params),
                               at.now + (if at.today <= q.window.to then policy.unsettledTtl else policy.settledTtl))]
  }

  /** A write under parameters of the question's key is that. */
  lemma WriteEnters(q: Request, rows: seq<Row>, footer: FooterMap, params: Params, at: Moment, policy: Policy)
    requires KeyFor(q.tenant, q.op, params, q.window) == q.Key() && Detail(rows, q.op).Some?
    ensures at.store[KeyFor(q.tenant, q.op, params, q.window) :=
              Slot(Encode(q.op, Detail(rows, q.op).value, footer, q.window, NormalParams(params.other)),
                   at.now + (if at.today <= q.window.to then policy.unsettledTtl else policy.settledTtl))] ==
            Entered(q, rows, footer, at, policy)
  {
    assert NormalParams(params.other) == KeyFor(q.tenant, q.op, params, q.window).params;
  }

  lemma EnteredIsFaithful(mes: Mes, totals: Announced, q: Request, rows: seq<Row>, footer: FooterMap, at: Moment,
                          policy: Policy)
    requires Faithful(mes, totals, at.store) && Detail(rows, q.op) == Some(WholeDetail(mes, q.Key()))
    requires footer.Keys <= totals(q.op).most && HasTotals(footer, WholeDetail(mes, q.Key()), totals(q.op).least)
    ensures Faithful(mes, totals, Entered(q, rows, footer, at, policy))
  {
    WriteKeepsFaith(mes, totals, q, at.store, footer,
                    at.now + (if at.today <= q.window.to then policy.unsettledTtl else policy.settledTtl));
  }

  /** The modes in which snapshots are stored. */
  predicate Stores(mode: Mode) { mode == ReadWrite || mode == Shadow }

  /** The owner's answer becomes a snapshot: it is stored, or where nothing is stored its footer holds. */
  ghost predicate Publishes(q: Request, producer: Producer, mode: Mode, tolerance: real, up: bool) {
    && producer.Gives? && producer.fetched.complete
    && if Stores(mode)
       then up && Gate(q.op, producer.fetched.rows, producer.fetched.footer, DetailParams(q.Params()), tolerance)
       else Reconciles(producer.fetched.rows, producer.fetched.footer, 0.000001)
  }

  ghost function Found(q: Request, at: Moment, policy: Policy): Option<Hit> {
    Lookup(at.store, q.tenant, q.op, q.Params(), Candidates(at.today, policy, q.window), at.now)
  }

  /** What is found at first, or under the lock, or produced; in this order. */
  ghost function Obtained(q: Request, asked: Moment, locked: Moment, producer: Producer, mode: Mode, policy: Policy,
                          up: bool): Option<Hit> {
    if Found(q, asked, policy).Some? || producer.Absent? then Found(q, asked, policy)
    else if Found(q, locked, policy).Some? then Found(q, locked, policy)
    else if Publishes(q, producer, mode, policy.tolerance, up) then
      match Detail(producer.fetched.rows, q.op)
      case None => None
      case Some(detail) => Some(Hit(detail, producer.fetched.footer, q.window))
    else None
  }

  /** The store after that. */
  ghost function StoreObtained(q: Request, asked: Moment, locked: Moment, producer: Producer, produced: Moment,
                               mode: Mode, policy: Policy, up: bool): Store {
    if Found(q, asked, policy).Some? || producer.Absent? then asked.store
    else if Found(q, locked, policy).Some? then locked.store
    else if Publishes(q, producer, mode, policy.tolerance, up) && Stores(mode)
    then Entered(q, producer.fetched.rows, producer.fetched.footer, produced, policy)
    else produced.store
  }

  /** What a snapshot serves, if it projects and the request takes it. */
  ghost function Taken(q: Request, hit: Option<Hit>, validator: Answer -> bool): Option<Reply> {
    match hit
    case None => None
    case Some(h) =>
      match Serve(h.rows, h.footer, q.op, q.caller, q.window)
      case Err(_) => None
      case Ok(answer) =>
        if validator(answer) then Some(Reply(answer.rows, answer.footer, true, FromSnapshot)) else None
  }

  /** The store after the caller's own fetch. */
  ghost function StoreAnswered(q: Request, reply: Reply, at: Moment, mode: Mode, policy: Policy, up: bool): Store {
    if MayWriteBack(q, reply.complete, mode) && up &&
       Gate(q.op, reply.rows, reply.footer, q.Params(), policy.tolerance)
    then Entered(q, reply.rows, reply.footer, at, policy)
    else at.store
  }

  /** What another caller stored while this one waited for the lock is used, and nothing is produced. */
  lemma SecondReadServes(mes: Mes, totals: Announced, q: Request, asked: Moment, locked: Moment, producer: Producer,
                         produced: Moment, mode: Mode, policy: Policy, up: bool)
    requires Faithful(mes, totals, locked.store) && !producer.Absent?
    requires Found(q, asked, policy).None? && Found(q, locked, policy).Some?
    ensures var hit := Obtained(q, asked, locked, producer, mode, policy, up);
            hit.Some? && Project(hit.value.rows, q.op, q.caller, q.window) == PaddedTruth(mes, q, hit.value.window)
    ensures StoreObtained(q, asked, locked, producer, produced, mode, policy, up) == locked.store
  {
    HitServes(mes, totals, q, locked, policy);
  }

  /**
    Where nothing is found, a complete owner answer serves the truth; in the storing modes, if it
    passes the gate and the store takes it, and then it is stored under the question's key.
  */
  lemma ProductionServes(mes: Mes, totals: Announced, q: Request, asked: Moment, locked: Moment, producer: Producer,
                         produced: Moment, mode: Mode, policy: Policy, up: bool)
    requires Whole(producer, mes, q, totals) && producer.Gives? && producer.fetched.complete
    requires Found(q, asked, policy).None? && Found(q, locked, policy).None?
    requires mode == ReadWrite || mode == Shadow ==>
               up && Gate(q.op, producer.fetched.rows, producer.fetched.footer, DetailParams(q.Params()),
                          policy.tolerance)
    requires mode == ReadOnly ==> Reconciles(producer.fetched.rows, producer.fetched.footer, 0.000001)
    requires !mode.Off?
    ensures var hit := Obtained(q, asked, locked, producer, mode, policy, up);
            hit.Some? && Project(hit.value.rows, q.op, q.caller, q.window) == Truth(mes, q)
    ensures var after := StoreObtained(q, asked, locked, producer, produced, mode, policy, up);
            if mode == ReadOnly then after == produced.store
            else q.Key() in after && FaithfulEntry(mes, totals, q.Key(), after[q.Key()].payload)
  {
    WholeIsStored(mes, q, q.window);
    OwnWindowServes(mes, q);
    if mode != ReadOnly {
      assert Detail(producer.fetched.rows, q.op) == Some(WholeDetail(mes, q.Key()));
    }
  }

  /** The request takes these rows whatever their footer. */
  ghost predicate Accepted(view: Result<seq<Row>, ViewError>, validator: Answer -> bool) {
    view.Ok? && forall footer :: validator(Answer(view.value, footer))
  }

  class Executor {
    const cache: Snapshots
    const mode: Mode

    constructor (cache: Snapshots, mode: Mode)
      ensures this.cache == cache && this.mode == mode
    {
      this.cache := cache;
      this.mode := mode;
    }

    ghost predicate Sound(mes: Mes, totals: Announced)
      reads this, cache
    {
      Sane(mes, totals, cache.store, cache.policy.tolerance)
    }

    ghost predicate Resumes(at: Moment, mes: Mes, totals: Announced)
      reads this, cache
    {
      Sane(mes, totals, at.store, cache.policy.tolerance)
    }

    /** Writes the owner's whole detail of the question window, if it passes the gate and the store takes it. */
    method Enter(q: Request, rows: seq<Row>, footer: FooterMap, params: Params, at: Moment, up: bool,
                 ghost mes: Mes, ghost totals: Announced)
      returns (written: bool)
      requires Sound(mes, totals) && KeyFor(q.tenant, q.op, params, q.window) == q.Key()
      requires Detail(rows, q.op) == Some(WholeDetail(mes, q.Key()))
      requires footer.Keys <= totals(q.op).most && HasTotals(footer, WholeDetail(mes, q.Key()), totals(q.op).least)
      modifies cache
      ensures Sound(mes, totals)
      ensures written <==> up && Gate(q.op, rows, footer, params, cache.policy.tolerance)
      ensures cache.store ==
              if written then Entered(q, rows, footer, Moment(old(cache.store), at.today, at.now), cache.policy)
              else old(cache.store)
    {
      ghost var before := Moment(cache.store, at.today, at.now);
      WriteEnters(q, rows, footer, params, before, cache.policy);
      EnteredIsFaithful(mes, totals, q, rows, footer, before, cache.policy);
      written := cache.Write(q.tenant, q.op, rows, footer, params, q.window, at.today, at.now, up);
    }

    /** Produces a snapshot of the question window with the owner's credential. */
    method FetchSnapshot(q: Request, producer: Producer, produced: Moment, up: bool,
                         ghost mes: Mes, ghost totals: Announced)
      returns (hit: Option<Hit>)
      requires Whole(producer, mes, q, totals) && Resumes(produced, mes, totals)
      modifies cache
      ensures Sound(mes, totals)
      ensures hit.Some? ==>
                && producer.Gives? && producer.fetched.complete && hit.value.window == q.window
                && hit.value.rows == WholeDetail(mes, q.Key()) && hit.value.footer == producer.fetched.footer
                && Serves(hit.value, mes, q, totals)
      ensures hit.Some? <==> Publishes(q, producer, mode, cache.policy.tolerance, up)
      ensures hit.Some? ==> Detail(producer.fetched.rows, q.op) == Some(hit.value.rows)
      ensures cache.store == if hit.Some? && Stores(mode)
                             then Entered(q, producer.fetched.rows, producer.fetched.footer, produced, cache.policy)
                             else produced.store
    {
      cache.store := produced.store;
      if !producer.Gives? || !producer.fetched.complete {
        return None;
      }
      var f := producer.fetched;
      WholeIsStored(mes, q, q.window);
      if mode.Writes() {
        DetailKey(q);
        var written := Enter(q, f.rows, f.footer, DetailParams(q.Params()), produced, up, mes, totals);
        if !written {
          return None;
        }
      } else {
        var sound := FooterReconciles(f.rows, f.footer, DefaultTolerance);
        if !sound {
          return None;
        }
      }
      var rows := f.rows;
      if q.op.ProgressOp? {
        var derived := DeriveProgressRows(f.rows);
        if derived.Err? {
          return None;
        }
        rows := derived.value;
      }
      OwnWindowServes(mes, q);
      return Some(Hit(rows, f.footer, q.window));
    }

    method MaybeWrite(q: Request, reply: Reply, at: Moment, up: bool, ghost mes: Mes, ghost totals: Announced,
                      ghost native: Fetched, ghost detail: Fetched)
      requires Sound(mes, totals)
      requires HonestNative(native, mes, q, totals) && Honest(detail, mes, q, totals)
      requires reply.complete ==> RealtimeReply(reply, q, native, detail)
      requires reply.complete && Unnarrowed(q.caller.filters) && q.Params().groupby == [] ==>
               reply.origin.FromNative? || q.op.PayrollOp?
      requires !reply.origin.FromSnapshot?
      modifies cache
      ensures Sound(mes, totals)
      ensures cache.store ==
              StoreAnswered(q, reply, Moment(old(cache.store), at.today, at.now), mode, cache.policy, up)
      ensures !Stores(mode) ==> cache.store == old(cache.store)
    {
      if !MayWriteBack(q, reply.complete, mode) {
        return;
      }
      WriteBackIsWhole(mes, q, totals, native, detail, reply);
      var _ := Enter(q, reply.rows, reply.footer, q.Params(), at, up, mes, totals);
    }

    method Find(q: Request, today: int, now: int, ghost mes: Mes, ghost totals: Announced) returns (hit: Option<Hit>)
      requires Sound(mes, totals)
      ensures hit == Found(q, Moment(cache.store, today, now), cache.policy)
      ensures hit.Some? ==>
                && Serves(hit.value, mes, q, totals)
                && Project(hit.value.rows, q.op, q.caller, q.window) == PaddedTruth(mes, q, hit.value.window)
    {
      hit := cache.Read(q.tenant, q.op, q.Params(), q.window, today, now);
      if hit.Some? {
        HitServes(mes, totals, q, Moment(cache.store, today, now), cache.policy);
      }
    }

    /** Reads, and on a miss takes the lock, reads again and produces. */
    method Obtain(q: Request, today: int, now: int, locked: Moment, producer: Producer, produced: Moment, up: bool,
                  ghost mes: Mes, ghost totals: Announced)
      returns (hit: Option<Hit>)
      requires Whole(producer, mes, q, totals)
      requires Sound(mes, totals) && Resumes(locked, mes, totals) && Resumes(produced, mes, totals)
      modifies cache
      ensures Sound(mes, totals)
      ensures hit == Obtained(q, Moment(old(cache.store), today, now), locked, producer, mode, cache.policy, up)
      ensures cache.store == StoreObtained(q, Moment(old(cache.store), today, now), locked, producer, produced, mode,
                                           cache.policy, up)
      ensures hit.Some? ==> Serves(hit.value, mes, q, totals)
      ensures var found := Found(q, Moment(old(cache.store), today, now), cache.policy);
              found.Some? ==>
                && hit == found && cache.store == old(cache.store)
                && Project(found.value.rows, q.op, q.caller, q.window) == PaddedTruth(mes, q, found.value.window)
    {
      hit := Find(q, today, now, mes, totals);
      if hit.Some? || producer.Absent? {
        return;
      }
      cache.store := locked.store;
      hit := Find(q, locked.today, locked.now, mes, totals);
      if hit.Some? {
        return;
      }
      hit := FetchSnapshot(q, producer, produced, up, mes, totals);
    }

    /** A fetch with the caller's own credential, which writes nothing. */
    method Direct(q: Request, native: Fetched, detail: Fetched, ghost mes: Mes, ghost totals: Announced)
      returns (reply: Reply)
      requires HonestNative(native, mes, q, totals) && Honest(detail, mes, q, totals)
      ensures TellsTruth(reply, mes, q, totals) && !reply.origin.FromSnapshot?
      ensures Realtimes(reply, q, native, detail, cache.policy.tolerance)
      ensures reply.complete ==> RealtimeReply(reply, q, native, detail)
      ensures Unnarrowed(q.caller.filters) && q.Params().groupby == [] ==> reply.origin.FromNative? || q.op.PayrollOp?
    {
      reply := Realtime(q, native, detail, cache.policy.tolerance);
      RealtimeTellsTruth(reply, mes, q, totals, native, detail);
    }

    /** What a hit serves; an unusable one is evicted. */
    method Adopt(q: Request, hit: Hit, validator: Answer -> bool, ghost mes: Mes, ghost totals: Announced)
      returns (reply: Option<Reply>)
      requires Sound(mes, totals)
      requires Serves(hit, mes, q, totals)
      modifies cache
      ensures Sound(mes, totals)
      ensures reply == Taken(q, Some(hit), validator)
      ensures cache.store ==
              if reply.Some? then old(cache.store)
              else old(cache.store) - {KeyFor(q.tenant, q.op, q.Params(), hit.window)}
      ensures reply.Some? ==> TellsTruth(reply.value, mes, q, totals) && reply.value.origin.FromSnapshot?
      ensures var view := Project(hit.rows, q.op, q.caller, q.window);
              && (reply.Some? ==> Ok(reply.value.rows) == view)
              && (Accepted(view, validator) ==> reply.Some?)
    {
      reply := ServeHit(hit, q, validator);
      if reply.Some? {
        RecomputedIsTrue(reply.value.rows, hit.footer, totals(q.op));
        RecomputedShares(reply.value.rows, WholeOf(mes, q, hit.window), hit.footer, totals(q.op).least);
        assert ServedFrom(reply.value, mes, q, totals, hit.window);
      } else {
        cache.Evict(q.tenant, q.op, q.Params(), hit.window);
      }
    }

    ghost predicate Environment(q: Request, producer: Producer, native: Fetched, detail: Fetched,
                                mes: Mes, totals: Announced)
    {
      && Whole(producer, mes, q, totals)
      && HonestNative(native, mes, q, totals) && Honest(detail, mes, q, totals)
    }

    /**
      One full step. Whatever others did to the store at the three waits, provided they kept it
      sane, the store stays sane and the reply tells the truth. A usable snapshot is used: if one
      covers the question, the question has an answer and the request accepts it, the reply comes
      from the snapshot.
    */
    method Execute(q: Request, today: int, now: int, locked: Moment, producer: Producer, produced: Moment,
                   native: Fetched, detail: Fetched, answered: Moment, validator: Answer -> bool, up: bool,
                   ghost mes: Mes, ghost totals: Announced)
      returns (reply: Option<Reply>)
      requires Environment(q, producer, native, detail, mes, totals)
      requires Sound(mes, totals) && Resumes(locked, mes, totals) && Resumes(produced, mes, totals) &&
               Resumes(answered, mes, totals)
      modifies cache
      ensures Sound(mes, totals)
      ensures reply.None? <==> Forbidden(q.Params())
      ensures reply.Some? ==> TellsTruth(reply.value, mes, q, totals)
      ensures reply.Some? ==>
                var asked := Moment(old(cache.store), today, now);
                var hit := if mode.Off? then None
                           else Obtained(q, asked, locked, producer, mode, cache.policy, up);
                if Taken(q, hit, validator).Some? then
                  && reply == Taken(q, hit, validator)
                  && cache.store == StoreObtained(q, asked, locked, producer, produced, mode, cache.policy, up)
                else
                  && Realtimes(reply.value, q, native, detail, cache.policy.tolerance)
                  && (!mode.Off? ==>
                        cache.store == StoreAnswered(q, reply.value, answered, mode, cache.policy, up))
      ensures mode.Off? || reply.None? ==> cache.store == old(cache.store)
      ensures mode.Off? && reply.Some? ==> !reply.value.origin.FromSnapshot?
      ensures var found := Found(q, Moment(old(cache.store), today, now), cache.policy);
              reply.Some? && !mode.Off? && found.Some? &&
              Accepted(PaddedTruth(mes, q, found.value.window), validator) ==>
                && reply.value.origin.FromSnapshot? && cache.store == old(cache.store)
                && Ok(reply.value.rows) == PaddedTruth(mes, q, found.value.window)
    {
      if Forbidden(q.Params()) {
        return None;
      }
      if !mode.Off? {
        var hit := Obtain(q, today, now, locked, producer, produced, up, mes, totals);
        if hit.Some? {
          reply := Adopt(q, hit.value, validator, mes, totals);
          if reply.Some? {
            return;
          }
        }
      }
      var direct := Direct(q, native, detail, mes, totals);
      if !mode.Off? {
        cache.store := answered.store;
        MaybeWrite(q, direct, answered, up, mes, totals, native, detail);
      }
      return Some(direct);
    }
  }
}
