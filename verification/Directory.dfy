/**
  Tenant dictionaries: the page loop over hanging lines, the relations a directory must satisfy,
  and the shared cache entry of a directory.
*/
module Directory {
  import opened Wrappers
  import opened TextOrder

  // ---------------------------------------------------------------- hanging lines, page by page

  datatype Line = Line(id: string, system: string, code: string, group: string)

  datatype Page = Page(list: seq<Line>, total: nat)

  datatype Reason = TotalDrift | RowBudget | DuplicatePage | RowOverflow | MissingPages | PageBudget

  datatype Outcome = Complete(rows: seq<Line>) | Incomplete(total: nat, reason: Reason) | Invalid

  datatype Budget = Budget(maxRows: nat, maxPages: nat)

  predicate Trimmed(s: string) { s != "" && !Space(s[0]) && !Space(s[|s| - 1]) }

  predicate DistinctIds(rows: seq<Line>) { forall i, j :: 0 <= i < j < |rows| ==> rows[i].id != rows[j].id }

  predicate Stable(rows: seq<Line>) { forall i :: 0 <= i < |rows| ==> Trimmed(rows[i].id) && Trimmed(rows[i].code) }

  /** What the loop yields from a page on, given what it has. */
  function Scan(server: nat -> Page, page: nat, rows: seq<Line>, expected: Option<nat>, b: Budget): Outcome
    decreases b.maxPages + 1 - page
  {
    if page > b.maxPages then Incomplete(if expected.Some? then expected.value else 0, PageBudget)
    else
      var p := server(page);
      var total, all := if expected.Some? then expected.value else p.total, rows + p.list;
      if |p.list| > b.maxRows then Incomplete(p.total, RowBudget)
      else if p.total != total then Incomplete(p.total, TotalDrift)
      else if total > b.maxRows then Incomplete(total, RowBudget)
      else if !DistinctIds(all) then Incomplete(total, DuplicatePage)
      else if |all| > total then Incomplete(total, RowOverflow)
      else if |all| == total then if Stable(all) then Complete(all) else Invalid
      else if p.list == [] then Incomplete(total, MissingPages)
      else Scan(server, page + 1, all, Some(total), b)
  }

  function Ids(rows: seq<Line>): set<string> { set i | 0 <= i < |rows| :: rows[i].id }

  lemma OneMoreId(rows: seq<Line>, row: Line)
    requires DistinctIds(rows)
    ensures Ids(rows + [row]) == Ids(rows) + {row.id}
    ensures DistinctIds(rows + [row]) <==> row.id !in Ids(rows)
  {
    var all := rows + [row];
    forall id
      ensures id in Ids(all) <==> id in Ids(rows) || id == row.id
    {
      if id in Ids(rows) {
        var i :| 0 <= i < |rows| && rows[i].id == id;
        assert all[i] == rows[i];
      }
      assert all[|rows|] == row;
    }
    if row.id in Ids(rows) {
      var i :| 0 <= i < |rows| && rows[i].id == row.id;
      assert all[i].id == all[|rows|].id;
    }
  }

  lemma PrefixDistinct(lines: seq<Line>, k: nat)
    requires k <= |lines|
    ensures DistinctIds(lines) ==> DistinctIds(lines[..k])
  {
  }

  /** Appends a page row by row and stops at the first identifier seen before. */
  method AddPage(rows: seq<Line>, seen: set<string>, list: seq<Line>)
    returns (all: seq<Line>, after: set<string>, ok: bool)
    requires DistinctIds(rows) && seen == Ids(rows)
    ensures ok <==> DistinctIds(rows + list)
    ensures ok ==> all == rows + list && after == Ids(all)
  {
    all, after := rows, seen;
    for k := 0 to |list|
      invariant all == rows + list[..k] && DistinctIds(all) && after == Ids(all)
    {
      OneMoreId(all, list[k]);
      assert (rows + list)[..|rows| + k + 1] == all + [list[k]];
      PrefixDistinct(rows + list, |rows| + k + 1);
      if list[k].id in after {
        return all, after, false;
      }
      all, after := all + [list[k]], after + {list[k].id};
    }
    assert list[..|list|] == list;
    return all, after, true;
  }

  method FetchHangingLines(server: nat -> Page, b: Budget) returns (outcome: Outcome, requests: nat)
    ensures outcome == Scan(server, 1, [], None, b)
    ensures requests <= b.maxPages
  {
    var rows, seen, expected := [], {}, None;
    requests := 0;
    while requests < b.maxPages
      invariant requests <= b.maxPages
      invariant Scan(server, 1, [], None, b) == Scan(server, requests + 1, rows, expected, b)
      invariant DistinctIds(rows) && seen == Ids(rows)
      decreases b.maxPages - requests
    {
      requests := requests + 1;
      var p := server(requests);
      if |p.list| > b.maxRows {
        return Incomplete(p.total, RowBudget), requests;
      }
      if expected.None? {
        expected := Some(p.total);
      } else if p.total != expected.value {
        return Incomplete(p.total, TotalDrift), requests;
      }
      var total := expected.value;
      if total > b.maxRows {
        return Incomplete(total, RowBudget), requests;
      }
      var ok: bool;
      rows, seen, ok := AddPage(rows, seen, p.list);
      if !ok {
        return Incomplete(total, DuplicatePage), requests;
      }
      if |rows| > total {
        return Incomplete(total, RowOverflow), requests;
      }
      if |rows| == total {
        return if Stable(rows) then Complete(rows) else Invalid, requests;
      }
      if p.list == [] {
        return Incomplete(total, MissingPages), requests;
      }
    }
    return Incomplete(if expected.Some? then expected.value else 0, PageBudget), requests;
  }

  // ---------------------------------------------------------------- what a complete answer proves

  function Listed(server: nat -> Page, from: nat, end: nat): seq<Line>
    decreases end - from
  {
    if from >= end then [] else server(from).list + Listed(server, from + 1, end)
  }

  /** A complete answer is the rows of some run of pages that all announce its size, each identifier once. */
  lemma {:induction false} CompleteIsListed(server: nat -> Page, page: nat, rows: seq<Line>, expected: Option<nat>,
                                            b: Budget)
    returns (end: nat)
    requires Scan(server, page, rows, expected, b).Complete?
    ensures page < end <= b.maxPages + 1
    ensures var out := Scan(server, page, rows, expected, b).rows;
            && out == rows + Listed(server, page, end) && DistinctIds(out) && Stable(out) && |out| <= b.maxRows
            && (forall n :: page <= n < end ==> server(n).total == |out|) &&
               (expected.Some? ==> expected.value == |out|)
    decreases b.maxPages + 1 - page
  {
    var p := server(page);
    var total := if expected.Some? then expected.value else p.total;
    if |rows + p.list| == total {
      end := page + 1;
      assert Listed(server, page + 1, end) == [];
      assert p.list + [] == p.list;
    } else {
      end := CompleteIsListed(server, page + 1, rows + p.list, Some(total), b);
      assert rows + (p.list + Listed(server, page + 1, end)) == (rows + p.list) + Listed(server, page + 1, end);
    }
  }

  function Elements(rows: seq<Line>): set<Line> { set i | 0 <= i < |rows| :: rows[i] }

  lemma {:induction false} DistinctCount(rows: seq<Line>)
    requires DistinctIds(rows)
    ensures |Elements(rows)| == |rows|
  {
    if rows != [] {
      var n := |rows| - 1;
      DistinctCount(rows[..n]);
      forall x
        ensures x in Elements(rows) <==> x in Elements(rows[..n]) || x == rows[n]
      {
        if x in Elements(rows[..n]) {
          var i :| 0 <= i < n && rows[..n][i] == x;
          assert rows[i] == x;
        }
      }
      assert Elements(rows) == Elements(rows[..n]) + {rows[n]};
      assert rows[n] !in Elements(rows[..n]);
    }
  }

  lemma SubsetOfSameSize(a: set<Line>, b: set<Line>)
    requires a <= b && |a| == |b|
    ensures a == b
  {
    assert b == a + (b - a);
    assert |b - a| == 0;
  }

  lemma {:induction false} ListedFrom(server: nat -> Page, from: nat, end: nat, lines: set<Line>)
    requires forall n, i :: 0 <= i < |server(n).list| ==> server(n).list[i] in lines
    ensures forall i :: 0 <= i < |Listed(server, from, end)| ==> Listed(server, from, end)[i] in lines
    decreases end - from
  {
    if from < end {
      ListedFrom(server, from + 1, end, lines);
    }
  }

  /**
    If the pages show only rows of a fixed set and announce its size, a complete answer is exactly
    that set, however the server cut its pages.
  */
  lemma CompleteIsTheSet(server: nat -> Page, b: Budget, lines: set<Line>)
    requires Scan(server, 1, [], None, b).Complete? && server(1).total == |lines|
    requires forall n, i :: 0 <= i < |server(n).list| ==> server(n).list[i] in lines
    ensures Elements(Scan(server, 1, [], None, b).rows) == lines
    ensures |Scan(server, 1, [], None, b).rows| == |lines|
  {
    var rows := Scan(server, 1, [], None, b).rows;
    var end := CompleteIsListed(server, 1, [], None, b);
    assert rows == Listed(server, 1, end);
    ListedFrom(server, 1, end, lines);
    DistinctCount(rows);
    SubsetOfSameSize(Elements(rows), lines);
  }

  // ---------------------------------------------------------------- a server that slices a list

  /** The first row past page `n`. */
  function Reach(size: nat, n: nat): nat { if n == 0 then 0 else Reach(size, n - 1) + size }

  function Least(a: nat, b: nat): nat { if a < b then a else b }

  function Slice(lines: seq<Line>, size: nat, n: nat): seq<Line>
    requires n > 0
  {
    lines[Least(Reach(size, n - 1), |lines|)..Least(Reach(size, n), |lines|)]
  }

  ghost predicate Slices(server: nat -> Page, lines: seq<Line>, size: nat) {
    forall n :: n > 0 ==> server(n) == Page(Slice(lines, size, n), |lines|)
  }

  function Before(lines: seq<Line>, size: nat, page: nat): seq<Line>
    requires page > 0
  {
    lines[..Least(Reach(size, page - 1), |lines|)]
  }

  /** One page of a sliced list: it ends the list, or the next page follows. */
  lemma SliceStep(server: nat -> Page, lines: seq<Line>, size: nat, b: Budget, page: nat, expected: Option<nat>)
    requires size > 0 && Slices(server, lines, size) && DistinctIds(lines) && |lines| <= b.maxRows
    requires 0 < page <= b.maxPages && (Reach(size, page - 1) < |lines| || page == 1)
    requires expected.Some? ==> expected.value == |lines|
    ensures Scan(server, page, Before(lines, size, page), expected, b) ==
            if Reach(size, page) < |lines| then Scan(server, page + 1, Before(lines, size, page + 1), Some(|lines|), b)
            else if Stable(lines) then Complete(lines) else Invalid
  {
    var rows, all := Before(lines, size, page), Before(lines, size, page + 1);
    assert server(page) == Page(Slice(lines, size, page), |lines|);
    assert rows + server(page).list == all;
    PrefixDistinct(lines, |all|);
    if |lines| <= Reach(size, page) {
      assert all == lines;
    }
  }

  /** What the loop makes of a sliced list that fits, or does not fit, the page budget. */
  ghost predicate Verdict(out: Outcome, lines: seq<Line>, fits: bool) {
    if fits then out == (if Stable(lines) then Complete(lines) else Invalid) else out.Incomplete?
  }

  lemma {:induction false} ScanSlices(server: nat -> Page, lines: seq<Line>, size: nat, b: Budget, page: nat,
                                      expected: Option<nat>)
    requires size > 0 && Slices(server, lines, size) && DistinctIds(lines) && |lines| <= b.maxRows
    requires 0 < page <= b.maxPages && (Reach(size, page - 1) < |lines| || page == 1)
    requires expected.Some? ==> expected.value == |lines|
    ensures Verdict(Scan(server, page, Before(lines, size, page), expected, b), lines, |lines| <=
                    Reach(size, b.maxPages))
    decreases b.maxPages - page
  {
    SliceStep(server, lines, size, b, page, expected);
    ReachGrows(size, page, b.maxPages);
    if Reach(size, page) < |lines| {
      if page == b.maxPages {
        NoPagesLeft(server, page + 1, Before(lines, size, page + 1), Some(|lines|), b);
      } else {
        ScanSlices(server, lines, size, b, page + 1, Some(|lines|));
      }
    }
  }

  lemma NoPagesLeft(server: nat -> Page, page: nat, rows: seq<Line>, expected: Option<nat>, b: Budget)
    requires page > b.maxPages
    ensures Scan(server, page, rows, expected, b).Incomplete?
  {
  }

  lemma {:induction false} ReachGrows(size: nat, m: nat, n: nat)
    requires m <= n
    ensures Reach(size, m) <= Reach(size, n)
  {
    if m < n {
      ReachGrows(size, m, n - 1);
    }
  }

  /**
    Against a server that slices a list with distinct identifiers, the loop returns that list, in
    order, if and only if it fits both budgets and its identifiers are stable.
  */
  lemma SlicedListIsReturned(server: nat -> Page, lines: seq<Line>, size: nat, b: Budget)
    requires size > 0 && Slices(server, lines, size) && DistinctIds(lines) && b.maxPages > 0
    ensures Scan(server, 1, [], None, b) == Complete(lines) <==>
            |lines| <= b.maxRows && |lines| <= Reach(size, b.maxPages) && Stable(lines)
  {
    assert lines[..0] == [];
    if |lines| <= b.maxRows {
      ScanSlices(server, lines, size, b, 1, None);
    }
  }

  // ---------------------------------------------------------------- datasets, fields and rows

  datatype Value = Words(s: string) | Number(n: int) | Flag(b: bool)

  datatype Kind = IsWords | IsNumber | IsFlag

  datatype Dataset =
    | Styles | StyleTypes | StyleColors | StyleSizes | ProductionTypes | Processes | StyleProcesses | BillProcesses
    | HangingLines

  datatype Family =
    | StyleDirectory | StyleForm | ProductionTypeList | ProcessList | StyleProcessList | BillProcessList
    | HangingLineList

  datatype Field =
    | StyleId | StyleCode | Name | TypeId | Unit | ParentTypeId | Deleted | CountsCutting | CountsStock | ProcessId
    | TypeName | VehicleType | FlowType | SortOrder | ConfigurationId | Active | LastProcess | Color | Size | Fit
    | Weight | BillCode | SystemName | LineCode | GroupName

  type Row = map<Field, Value>

  datatype Collection = Collection(rows: seq<Row>, total: int)

  type Collections = map<Dataset, Collection>

  function DatasetsOf(family: Family): seq<Dataset> {
    match family
    case StyleDirectory => [Styles, StyleTypes]
    case StyleForm => [Styles, StyleColors, StyleSizes]
    case ProductionTypeList => [ProductionTypes]
    case ProcessList => [Processes]
    case StyleProcessList => [StyleProcesses]
    case BillProcessList => [BillProcesses]
    case HangingLineList => [HangingLines]
  }

  function FieldsOf(dataset: Dataset): map<Field, Kind> {
    match dataset
    case Styles => map[StyleId := IsWords, StyleCode := IsWords, Name := IsWords, TypeId := IsWords, Unit := IsWords]
    case StyleTypes => map[TypeId := IsWords, ParentTypeId := IsWords, Name := IsWords, Deleted := IsFlag]
    case ProductionTypes =>
      map[TypeId := IsWords, Name := IsWords, Deleted := IsFlag, CountsCutting := IsFlag, CountsStock := IsFlag]
    case Processes =>
      map[ProcessId := IsWords, Name := IsWords, TypeName := IsWords, VehicleType := IsWords, FlowType := IsNumber,
          Deleted := IsFlag, SortOrder := IsWords]
    case StyleProcesses =>
      map[ConfigurationId := IsWords, StyleId := IsWords, StyleCode := IsWords, ProcessId := IsWords, Name := IsWords,
          TypeId := IsWords, TypeName := IsWords, SortOrder := IsNumber, Active := IsFlag, LastProcess := IsFlag]
    case StyleColors => map[ConfigurationId := IsWords, StyleId := IsWords, Color := IsWords]
    case StyleSizes =>
      map[ConfigurationId := IsWords, StyleId := IsWords, Size := IsWords, Fit := IsWords, Weight := IsWords]
    case BillProcesses =>
      map[ConfigurationId := IsWords, BillCode := IsWords, StyleId := IsWords, StyleCode := IsWords,
          ProcessId := IsWords,
          Name := IsWords, TypeId := IsWords, TypeName := IsWords, SortOrder := IsNumber, LastProcess := IsFlag]
    case HangingLines =>
      map[ConfigurationId := IsWords, SystemName := IsWords, LineCode := IsWords, GroupName := IsWords]
  }

  function KeyOf(dataset: Dataset): Field {
    match dataset
    case Styles => StyleId
    case StyleTypes => TypeId
    case ProductionTypes => TypeId
    case Processes => ProcessId
    case _ => ConfigurationId
  }

  // ---------------------------------------------------------------- what the customer system answers

  datatype StyleRow = StyleRow(bh: string, bbreed: string, description: string, stype: string, dw: string)
  datatype StyleTypeRow = StyleTypeRow(bh: string, pbh: string, name: string, isdelete: int)
  datatype StyleColorRow = StyleColorRow(id: string, bh: string, color: string)
  datatype StyleSizeRow = StyleSizeRow(id: string, bh: string, chima: string, banx: string, kez: string)
  datatype ProductionTypeRow = ProductionTypeRow(bh: string, name: string, sfjcj: int, isdelete: int, sfcprk: int)
  datatype ProcessRow =
    ProcessRow(bh: string, name: string, gxtype: int, isdelete: int, section: string, wtSort: string,
               vehicleType: string)

  /** A process of a style, or of a bill. */
  datatype StepRow = StepRow(
    id: string, dh: string, huohao: string, huohaoname: string, wt: string, wtname: string, sort: int, sctype: string,
    sctypename: string, usingState: int, zhgx: int)

  datatype Reply =
    | StyleDirectoryReply(styles: seq<StyleRow>, styleTotal: nat, types: seq<StyleTypeRow>, typeTotal: nat)
    | StyleFormReply(
        styles: seq<StyleRow>, styleTotal: nat, colors: seq<StyleColorRow>, colorTotal: nat, sizes: seq<StyleSizeRow>,
          sizeTotal: nat)
    | ProductionTypeReply(production: seq<ProductionTypeRow>, total: nat)
    | ProcessReply(processes: seq<ProcessRow>, total: nat)
    | StyleProcessReply(steps: seq<StepRow>, total: nat)
    | BillProcessReply(steps: seq<StepRow>, total: nat)

  function FamilyOf(reply: Reply): Family {
    match reply
    case StyleDirectoryReply(_, _, _, _) => StyleDirectory
    case StyleFormReply(_, _, _, _, _, _) => StyleForm
    case ProductionTypeReply(_, _) => ProductionTypeList
    case ProcessReply(_, _) => ProcessList
    case StyleProcessReply(_, _) => StyleProcessList
    case BillProcessReply(_, _) => BillProcessList
  }

  // ---------------------------------------------------------------- projection

  function OfStyle(r: StyleRow): Row {
    map[StyleId := Words(r.bh), StyleCode := Words(r.bbreed), Name := Words(r.description), TypeId := Words(r.stype),
        Unit := Words(r.dw)]
  }

  function OfType(r: StyleTypeRow): Row {
    map[TypeId := Words(r.bh), ParentTypeId := Words(r.pbh), Name := Words(r.name), Deleted := Flag(r.isdelete != 0)]
  }

  function OfColor(r: StyleColorRow): Row {
    map[ConfigurationId := Words(r.id), StyleId := Words(r.bh), Color := Words(r.color)]
  }

  function OfSize(r: StyleSizeRow): Row {
    map[ConfigurationId := Words(r.id), StyleId := Words(r.bh), Size := Words(r.chima), Fit := Words(r.banx),
        Weight := Words(r.kez)]
  }

  function OfProduction(r: ProductionTypeRow): Row {
    map[TypeId := Words(r.bh), Name := Words(r.name), Deleted := Flag(r.isdelete != 0),
        CountsCutting := Flag(r.sfjcj != 0),
        CountsStock := Flag(r.sfcprk != 0)]
  }

  function OfProcess(r: ProcessRow): Row {
    map[ProcessId := Words(r.bh), Name := Words(r.name), TypeName := Words(r.section),
        VehicleType := Words(r.vehicleType),
        FlowType := Number(r.gxtype), Deleted := Flag(r.isdelete != 0), SortOrder := Words(r.wtSort)]
  }

  function OfStyleStep(r: StepRow): Row {
    map[ConfigurationId := Words(r.id), StyleId := Words(r.huohao), StyleCode := Words(r.huohaoname),
        ProcessId := Words(r.wt),
        Name := Words(r.wtname), TypeId := Words(r.sctype), TypeName := Words(r.sctypename),
          SortOrder := Number(r.sort),
        Active := Flag(r.usingState != 0), LastProcess := Flag(r.zhgx != 0)]
  }

  function OfBillStep(r: StepRow): Row {
    map[ConfigurationId := Words(r.id), BillCode := Words(r.dh), StyleId := Words(r.huohao),
        StyleCode := Words(r.huohaoname),
        ProcessId := Words(r.wt), Name := Words(r.wtname), TypeId := Words(r.sctype), TypeName := Words(r.sctypename),
        SortOrder := Number(r.sort), LastProcess := Flag(r.zhgx != 0)]
  }

  function OfLine(r: Line): Row {
    map[ConfigurationId := Words(r.id), SystemName := Words(r.system), LineCode := Words(r.code),
        GroupName := Words(r.group)]
  }

  function Each<T>(rows: seq<T>, f: T -> Row): seq<Row> { seq(|rows|, i requires 0 <= i < |rows| => f(rows[i])) }

  function Projected(reply: Reply): Collections {
    match reply
    case StyleDirectoryReply(styles, styleTotal, types, typeTotal) =>
      map[Styles := Collection(Each(styles, OfStyle), styleTotal),
          StyleTypes := Collection(Each(types, OfType), typeTotal)]
    case StyleFormReply(styles, styleTotal, colors, colorTotal, sizes, sizeTotal) =>
      map[Styles := Collection(Each(styles, OfStyle), styleTotal),
          StyleColors := Collection(Each(colors, OfColor), colorTotal),
          StyleSizes := Collection(Each(sizes, OfSize), sizeTotal)]
    case ProductionTypeReply(production, total) =>
      map[ProductionTypes := Collection(Each(production, OfProduction), total)]
    case ProcessReply(processes, total) => map[Processes := Collection(Each(processes, OfProcess), total)]
    case StyleProcessReply(steps, total) => map[StyleProcesses := Collection(Each(steps, OfStyleStep), total)]
    case BillProcessReply(steps, total) => map[BillProcesses := Collection(Each(steps, OfBillStep), total)]
  }

  function OfLines(rows: seq<Line>): Collections { map[HangingLines := Collection(Each(rows, OfLine), |rows|)] }

  // ---------------------------------------------------------------- relations inside a directory

  function Cell(row: Row, field: Field): Option<Value> { if field in row then Some(row[field]) else None }

  /** A code always comes with the same name. */
  predicate Functional(rows: seq<Row>, code: Field, name: Field) {
    forall i, j :: 0 <= i < |rows| && 0 <= j < |rows| && Cell(rows[i], code) == Cell(rows[j], code) ==>
      Cell(rows[i], name) == Cell(rows[j], name)
  }

  method CodesAgree(rows: seq<Row>, code: Field, name: Field) returns (ok: bool)
    ensures ok <==> Functional(rows, code, name)
  {
    var names: map<Option<Value>, Option<Value>> := map[];
    for k := 0 to |rows|
      invariant Functional(rows[..k], code, name)
      invariant forall i :: 0 <= i < k ==>
                Cell(rows[i], code) in names && names[Cell(rows[i], code)] == Cell(rows[i], name)
      invariant forall c :: c in names ==> exists i :: 0 <= i < k && Cell(rows[i], code) == c
    {
      var c, n := Cell(rows[k], code), Cell(rows[k], name);
      if c in names && names[c] != n {
        var i :| 0 <= i < k && Cell(rows[i], code) == c;
        assert Cell(rows[i], name) != Cell(rows[k], name);
        return false;
      }
      names := names[c := n];
      assert rows[..k + 1] == rows[..k] + [rows[k]];
    }
    assert rows[..|rows|] == rows;
    return true;
  }

  predicate DistinctCells(rows: seq<Row>, field: Field) {
    forall i, j :: 0 <= i < j < |rows| ==> Cell(rows[i], field) != Cell(rows[j], field)
  }

  /** Field names that end in `_id`, and the three codes. */
  predicate Identifies(f: Field) {
    f.StyleId? || f.TypeId? || f.ParentTypeId? || f.ProcessId? || f.ConfigurationId? || f.StyleCode? || f.BillCode? ||
      f.LineCode?
  }

  predicate StableRow(row: Row) { forall f :: f in row && Identifies(f) ==> row[f].Words? && Trimmed(row[f].s) }

  predicate OfEntity(row: Row, dataset: Dataset, entity: string) {
    entity == "" || Cell(row, if dataset.BillProcesses? then BillCode else StyleId) == Some(Words(entity))
  }

  predicate DatasetHolds(dataset: Dataset, rows: seq<Row>, entity: string) {
    && DistinctCells(rows, KeyOf(dataset))
    && (forall i :: 0 <= i < |rows| ==> StableRow(rows[i]) && OfEntity(rows[i], dataset, entity))
    && (dataset.StyleProcesses? || dataset.BillProcesses? ==>
          Functional(rows, StyleId, StyleCode) && Functional(rows, ProcessId, Name) &&
            Functional(rows, TypeId, TypeName))
    && (dataset.BillProcesses? ==> forall i, j :: 0 <= i < j < |rows| ==>
        Cell(rows[i], StyleId) == Cell(rows[j], StyleId))
  }

  predicate Names(target: seq<Row>, field: Field, value: Option<Value>) {
    exists j :: 0 <= j < |target| && Cell(target[j], field) == value
  }

  predicate Refers(rows: seq<Row>, target: seq<Row>, field: Field) {
    forall i :: 0 <= i < |rows| ==> Names(target, field, Cell(rows[i], field))
  }

  predicate Related(c: Collections, entity: string) {
    && (forall dataset :: dataset in c ==> DatasetHolds(dataset, c[dataset].rows, entity))
    && (Styles in c ==>
          && DistinctCells(c[Styles].rows, StyleCode)
          && (StyleTypes in c ==> Refers(c[Styles].rows, c[StyleTypes].rows, TypeId))
          && (StyleTypes !in c && entity != "" ==>
                && (StyleColors in c && Refers(c[StyleColors].rows, c[Styles].rows, StyleId))
                && (StyleSizes in c && Refers(c[StyleSizes].rows, c[Styles].rows, StyleId))))
  }

  // ---------------------------------------------------------------- live directories

  function SumOf(c: Collections, names: seq<Dataset>): int {
    if names == [] then 0 else (if names[0] in c then c[names[0]].total else 0) + SumOf(c, names[1..])
  }

  function RowCount(c: Collections, names: seq<Dataset>): int {
    if names == [] then 0 else (if names[0] in c then |c[names[0]].rows| else 0) + RowCount(c, names[1..])
  }

  /** Every collection is as long as it was announced. */
  predicate Counted(c: Collections) { forall dataset :: dataset in c ==> |c[dataset].rows| == c[dataset].total }

  datatype Live = Whole(collections: Collections) | Short | Broken

  /** What a response comes to: whole only if it is counted, within the row budget and related. */
  function Assess(reply: Reply, entity: string, maxRows: nat): Live {
    var c, names := Projected(reply), DatasetsOf(FamilyOf(reply));
    if RowCount(c, names) > maxRows || !Counted(c) || SumOf(c, names) > maxRows then Short
    else if Related(c, entity) then Whole(c)
    else Broken
  }

  function AssessLines(outcome: Outcome): Live {
    match outcome
    case Complete(rows) => Whole(OfLines(rows))
    case Incomplete(_, _) => Short
    case Invalid => Broken
  }

  // ---------------------------------------------------------------- the cache entry

  const SchemaVersion := 1

  const TtlSeconds := 86400

  datatype Address = Address(family: Family, tenant: string, entity: string)

  datatype Snapshot = Snapshot(collections: Collections, generatedAt: int)

  datatype Entry = Entry(version: int, address: Address, generatedAt: int, collections: Collections)

  function Encode(s: Snapshot, at: Address): Entry { Entry(SchemaVersion, at, s.generatedAt, s.collections) }

  predicate HasKind(v: Value, k: Kind) {
    match k
    case IsWords => v.Words?
    case IsNumber => v.Number?
    case IsFlag => v.Flag?
  }

  predicate Typed(row: Row, fields: map<Field, Kind>) {
    row.Keys == fields.Keys && forall f :: f in fields ==> HasKind(row[f], fields[f])
  }

  predicate RowsTyped(dataset: Dataset, rows: seq<Row>) {
    forall i :: 0 <= i < |rows| ==> Typed(rows[i], FieldsOf(dataset))
  }

  /** The reader's own tests: the family's datasets, their fields and types, the counts, the budget, the relations. */
  predicate Readable(c: Collections, at: Address, maxRows: nat) {
    && c.Keys == (set name | name in DatasetsOf(at.family))
    && (forall dataset :: dataset in c ==> c[dataset].total == |c[dataset].rows| && RowsTyped(dataset, c[dataset].rows))
    && SumOf(c, DatasetsOf(at.family)) <= maxRows
    && Related(c, at.entity)
  }

  function Decode(e: Entry, at: Address, now: int, maxRows: nat): Option<Snapshot> {
    if e.version == SchemaVersion && e.address == at && 0 <= now - e.generatedAt < TtlSeconds &&
      Readable(e.collections, at, maxRows)
    then Some(Snapshot(e.collections, e.generatedAt)) else None
  }

  // ---------------------------------------------------------------- what is stored is readable

  lemma EachTyped<T>(dataset: Dataset, rows: seq<T>, f: T -> Row)
    requires forall r :: r in rows ==> Typed(f(r), FieldsOf(dataset))
    ensures RowsTyped(dataset, Each(rows, f))
  {
  }

  lemma StyleRowsTyped(styles: seq<StyleRow>, types: seq<StyleTypeRow>, colors: seq<StyleColorRow>,
                       sizes: seq<StyleSizeRow>)
    ensures RowsTyped(Styles, Each(styles, OfStyle)) && RowsTyped(StyleTypes, Each(types, OfType))
    ensures RowsTyped(StyleColors, Each(colors, OfColor)) && RowsTyped(StyleSizes, Each(sizes, OfSize))
  {
    EachTyped(Styles, styles, OfStyle);
    EachTyped(StyleTypes, types, OfType);
    EachTyped(StyleColors, colors, OfColor);
    EachTyped(StyleSizes, sizes, OfSize);
  }

  lemma PlainRowsTyped(production: seq<ProductionTypeRow>, processes: seq<ProcessRow>, lines: seq<Line>)
    ensures RowsTyped(ProductionTypes, Each(production, OfProduction)) &&
            RowsTyped(Processes, Each(processes, OfProcess))
    ensures RowsTyped(HangingLines, Each(lines, OfLine))
  {
    EachTyped(ProductionTypes, production, OfProduction);
    EachTyped(Processes, processes, OfProcess);
    EachTyped(HangingLines, lines, OfLine);
  }

  lemma StyleStepsTyped(steps: seq<StepRow>)
    ensures RowsTyped(StyleProcesses, Each(steps, OfStyleStep))
  {
    EachTyped(StyleProcesses, steps, OfStyleStep);
  }

  lemma BillStepsTyped(steps: seq<StepRow>)
    ensures RowsTyped(BillProcesses, Each(steps, OfBillStep))
  {
    EachTyped(BillProcesses, steps, OfBillStep);
  }

  /** A projected response has the datasets of its family, with their fields and types. */
  lemma ProjectedIsTyped(reply: Reply)
    ensures Projected(reply).Keys == (set name | name in DatasetsOf(FamilyOf(reply)))
    ensures forall dataset :: dataset in Projected(reply) ==> RowsTyped(dataset, Projected(reply)[dataset].rows)
  {
    match reply
    case StyleDirectoryReply(styles, _, types, _) => StyleRowsTyped(styles, types, [], []);
    case StyleFormReply(styles, _, colors, _, sizes, _) => StyleRowsTyped(styles, [], colors, sizes);
    case ProductionTypeReply(production, _) => PlainRowsTyped(production, [], []);
    case ProcessReply(processes, _) => PlainRowsTyped([], processes, []);
    case StyleProcessReply(steps, _) => StyleStepsTyped(steps);
    case BillProcessReply(steps, _) => BillStepsTyped(steps);
  }

  /** The identifiers of the lines are the keys and codes of the rows built from them. */
  lemma LinesRelated(rows: seq<Line>)
    ensures Related(OfLines(rows), "") <==> DistinctIds(rows) && Stable(rows)
  {
    var out := Each(rows, OfLine);
    forall i | 0 <= i < |rows|
      ensures Cell(out[i], ConfigurationId) == Some(Words(rows[i].id))
      ensures StableRow(out[i]) <==> Trimmed(rows[i].id) && Trimmed(rows[i].code)
    {
      LineStable(rows[i]);
    }
    assert DatasetHolds(HangingLines, out, "") <==> DistinctIds(rows) && Stable(rows);
    var c := OfLines(rows);
    assert HangingLines in c && c[HangingLines].rows == out && Styles !in c;
    assert forall dataset :: dataset in c ==> dataset == HangingLines;
  }

  lemma LineStable(r: Line)
    ensures StableRow(OfLine(r)) <==> Trimmed(r.id) && Trimmed(r.code)
  {
    var row := OfLine(r);
    assert ConfigurationId in row && LineCode in row;
  }

  function LiveOf(at: Address, server: nat -> Page, b: Budget, reply: Option<Reply>): Live {
    if at.family.HangingLineList? then AssessLines(Scan(server, 1, [], None, b))
    else if reply.Some? then Assess(reply.value, at.entity, b.maxRows)
    else Broken
  }

  /** Requests as `fetch` makes them: each family has its response, and hanging lines no entity. */
  predicate Asked(at: Address, reply: Option<Reply>) {
    && (at.family.HangingLineList? ==> at.entity == "")
    && (reply.Some? ==> FamilyOf(reply.value) == at.family)
  }

  lemma ScannedIsReadable(server: nat -> Page, b: Budget, at: Address)
    requires Scan(server, 1, [], None, b).Complete? && at.family.HangingLineList? && at.entity == ""
    ensures Readable(OfLines(Scan(server, 1, [], None, b).rows), at, b.maxRows)
  {
    var rows := Scan(server, 1, [], None, b).rows;
    var _ := CompleteIsListed(server, 1, [], None, b);
    LinesRelated(rows);
    PlainRowsTyped([], [], rows);
    var c := OfLines(rows);
    assert [HangingLines][1..] == [];
    assert SumOf(c, [HangingLines]) == |rows| + SumOf(c, []);
  }

  /** Whatever live directory is whole passes the reader's tests, although nobody ran them on it. */
  lemma WholeIsReadable(at: Address, server: nat -> Page, b: Budget, reply: Option<Reply>)
    requires Asked(at, reply) && LiveOf(at, server, b, reply).Whole?
    ensures Readable(LiveOf(at, server, b, reply).collections, at, b.maxRows)
  {
    if at.family.HangingLineList? {
      ScannedIsReadable(server, b, at);
    } else {
      ProjectedIsTyped(reply.value);
    }
  }

  /**
    What a load finds and stores reads back under its own tenant, family and entity for a day, and
    under no other address and at no other time.
  */
  lemma StoredReadsBack(at: Address, server: nat -> Page, b: Budget, reply: Option<Reply>, stored: int, asked: Address,
                        now: int)
    requires Asked(at, reply) && LiveOf(at, server, b, reply).Whole?
    ensures var s := Snapshot(LiveOf(at, server, b, reply).collections, stored);
            Decode(Encode(s, at), asked, now, b.maxRows) ==
            if asked == at && 0 <= now - stored < TtlSeconds then Some(s) else None
  {
    WholeIsReadable(at, server, b, reply);
  }

  /** A style type without a parent makes the whole style directory invalid. */
  lemma RootTypeBreaksDirectory(reply: Reply, entity: string, maxRows: nat, i: nat)
    requires reply.StyleDirectoryReply? && i < |reply.types| && reply.types[i].pbh == ""
    ensures !Assess(reply, entity, maxRows).Whole?
  {
    var row := Projected(reply)[StyleTypes].rows[i];
    assert row == OfType(reply.types[i]) && ParentTypeId in row && row[ParentTypeId] == Words("");
    assert !StableRow(row);
  }

  /** The response is as long as announced and within the row budget. */
  predicate FitsBudget(reply: Reply, maxRows: nat)
    requires reply.StyleDirectoryReply?
  {
    && |reply.styles| == reply.styleTotal && |reply.types| == reply.typeTotal
    && |reply.styles| + |reply.types| <= maxRows
  }

  /** Everything asked of the styles and of the types, short of the parents. */
  predicate SoundStyles(styles: seq<StyleRow>, types: seq<StyleTypeRow>) {
    && (forall i, j :: 0 <= i < j < |styles| ==> styles[i].bh != styles[j].bh && styles[i].bbreed != styles[j].bbreed)
    && (forall r :: r in styles ==> Trimmed(r.bh) && Trimmed(r.bbreed) && Trimmed(r.stype))
    && (forall i, j :: 0 <= i < j < |types| ==> types[i].bh != types[j].bh)
    && (forall r :: r in types ==> Trimmed(r.bh))
    && (forall r :: r in styles ==> exists t :: t in types && t.bh == r.stype)
  }

  lemma StyleStable(r: StyleRow)
    ensures StableRow(OfStyle(r)) <==> Trimmed(r.bh) && Trimmed(r.bbreed) && Trimmed(r.stype)
  {
    var row := OfStyle(r);
    assert StyleId in row && StyleCode in row && TypeId in row;
  }

  lemma TypeStable(r: StyleTypeRow)
    ensures StableRow(OfType(r)) <==> Trimmed(r.bh) && Trimmed(r.pbh)
  {
    var row := OfType(r);
    assert TypeId in row && ParentTypeId in row;
  }

  /** The relations of the style rows, and of the type rows, read off the response. */
  lemma StylesHold(styles: seq<StyleRow>)
    ensures var rows := Each(styles, OfStyle);
            DatasetHolds(Styles, rows, "") && DistinctCells(rows, StyleCode) <==>
            && (forall i, j :: 0 <= i < j < |styles| ==>
                  styles[i].bh != styles[j].bh && styles[i].bbreed != styles[j].bbreed)
            && (forall r :: r in styles ==> Trimmed(r.bh) && Trimmed(r.bbreed) && Trimmed(r.stype))
  {
    var rows := Each(styles, OfStyle);
    forall i | 0 <= i < |styles|
      ensures Cell(rows[i], StyleId) == Some(Words(styles[i].bh))
      ensures Cell(rows[i], StyleCode) == Some(Words(styles[i].bbreed))
      ensures StableRow(rows[i]) <==> Trimmed(styles[i].bh) && Trimmed(styles[i].bbreed) && Trimmed(styles[i].stype)
    {
      StyleStable(styles[i]);
    }
  }

  lemma TypesHold(types: seq<StyleTypeRow>)
    ensures DatasetHolds(StyleTypes, Each(types, OfType), "") <==>
            && (forall i, j :: 0 <= i < j < |types| ==> types[i].bh != types[j].bh)
            && (forall r :: r in types ==> Trimmed(r.bh) && Trimmed(r.pbh))
  {
    var rows := Each(types, OfType);
    forall i | 0 <= i < |types|
      ensures Cell(rows[i], TypeId) == Some(Words(types[i].bh))
      ensures StableRow(rows[i]) <==> Trimmed(types[i].bh) && Trimmed(types[i].pbh)
    {
      TypeStable(types[i]);
    }
  }

  lemma TypesListed(styles: seq<StyleRow>, types: seq<StyleTypeRow>)
    ensures Refers(Each(styles, OfStyle), Each(types, OfType), TypeId) <==>
            forall r :: r in styles ==> exists t :: t in types && t.bh == r.stype
  {
    var rows, target := Each(styles, OfStyle), Each(types, OfType);
    forall i, j | 0 <= i < |styles| && 0 <= j < |types|
      ensures Cell(target[j], TypeId) == Cell(rows[i], TypeId) <==> types[j].bh == styles[i].stype
    {
      assert target[j] == OfType(types[j]) && rows[i] == OfStyle(styles[i]);
      assert Cell(rows[i], TypeId) == Some(Words(styles[i].stype));
      assert Cell(target[j], TypeId) == Some(Words(types[j].bh));
    }
    if Refers(rows, target, TypeId) {
      forall r | r in styles
        ensures exists t :: t in types && t.bh == r.stype
      {
        var i :| 0 <= i < |styles| && styles[i] == r;
        var j :| 0 <= j < |target| && Cell(target[j], TypeId) == Cell(rows[i], TypeId);
        assert types[j] in types;
      }
    }
    if forall r :: r in styles ==> exists t :: t in types && t.bh == r.stype {
      forall i | 0 <= i < |rows|
        ensures Names(target, TypeId, Cell(rows[i], TypeId))
      {
        assert styles[i] in styles;
        var t :| t in types && t.bh == styles[i].stype;
        var j :| 0 <= j < |types| && types[j] == t;
        assert Cell(target[j], TypeId) == Cell(rows[i], TypeId);
      }
    }
  }

  /**
    A style directory is whole if and only if it fits the budget, its styles and types are sound,
    and every type names a parent.
  */
  lemma WholeNeedsParents(reply: Reply, maxRows: nat)
    requires reply.StyleDirectoryReply?
    ensures Assess(reply, "", maxRows).Whole? <==>
            && FitsBudget(reply, maxRows) && SoundStyles(reply.styles, reply.types)
            && forall r :: r in reply.types ==> Trimmed(r.pbh)
  {
    StylesHold(reply.styles);
    TypesHold(reply.types);
    TypesListed(reply.styles, reply.types);
    StyleCounts(reply, maxRows);
    StyleRelations(reply);
  }

  lemma StyleCounts(reply: Reply, maxRows: nat)
    requires reply.StyleDirectoryReply?
    ensures Assess(reply, "", maxRows).Whole? <==> FitsBudget(reply, maxRows) && Related(Projected(reply), "")
  {
    var c := Projected(reply);
    assert [Styles, StyleTypes][1..] == [StyleTypes] && [StyleTypes][1..] == [];
    assert RowCount(c, [Styles, StyleTypes]) == |reply.styles| + RowCount(c, [StyleTypes]);
    assert RowCount(c, [StyleTypes]) == |reply.types| + RowCount(c, []);
    assert SumOf(c, [Styles, StyleTypes]) == reply.styleTotal + SumOf(c, [StyleTypes]);
    assert SumOf(c, [StyleTypes]) == reply.typeTotal + SumOf(c, []);
    assert Styles in c && StyleTypes in c;
  }

  lemma StyleRelations(reply: Reply)
    requires reply.StyleDirectoryReply?
    ensures var styles, types := Each(reply.styles, OfStyle), Each(reply.types, OfType);
            Related(Projected(reply), "") <==>
            && DatasetHolds(Styles, styles, "") && DistinctCells(styles, StyleCode)
            && DatasetHolds(StyleTypes, types, "") && Refers(styles, types, TypeId)
  {
    var c := Projected(reply);
    assert Styles in c && StyleTypes in c;
    assert forall dataset :: dataset in c ==> dataset == Styles || dataset == StyleTypes;
  }

  /** The shared cache, and the loads that go through it. */
  class DirectorySource {
    const b: Budget
    var cache: map<Address, Entry>

    constructor (b: Budget)
      ensures this.b == b && cache == map[]
    {
      this.b := b;
      cache := map[];
    }

    /** Every entry is readable under its own address. */
    ghost predicate Valid()
      reads this
    {
      forall at :: at in cache ==>
        cache[at].address == at && cache[at].version == SchemaVersion && Readable(cache[at].collections, at, b.maxRows)
    }

    method Fetch(at: Address, server: nat -> Page, reply: Option<Reply>) returns (live: Live)
      ensures live == LiveOf(at, server, b, reply)
    {
      if at.family.HangingLineList? {
        var outcome, _ := FetchHangingLines(server, b);
        return AssessLines(outcome);
      }
      return if reply.Some? then Assess(reply.value, at.entity, b.maxRows) else Broken;
    }

    /**
      The caller gets a directory stored under exactly its address within the last day, or else a
      whole live one. That one is stored, and is what every load of the following day reads.
    */
    method LoadFamily(at: Address, now: int, server: nat -> Page, reply: Option<Reply>)
      returns (r: Option<Snapshot>, cached: bool)
      requires Valid() && Asked(at, reply)
      modifies this
      ensures Valid()
      ensures cached <==> at in old(cache) && 0 <= now - old(cache)[at].generatedAt < TtlSeconds
      ensures cached ==> cache == old(cache) && r == Some(Snapshot(cache[at].collections, cache[at].generatedAt))
      ensures !cached && !LiveOf(at, server, b, reply).Whole? ==> r == None && cache == old(cache)
      ensures !cached && LiveOf(at, server, b, reply).Whole? ==>
                && r == Some(Snapshot(LiveOf(at, server, b, reply).collections, now)) &&
                   cache == old(cache)[at := Encode(r.value, at)]
                && forall later :: now <= later < now + TtlSeconds ==> Decode(cache[at], at, later, b.maxRows) == r
    {
      if at in cache {
        var found := Decode(cache[at], at, now, b.maxRows);
        if found.Some? {
          return found, true;
        }
      }
      var live := Fetch(at, server, reply);
      if !live.Whole? {
        return None, false;
      }
      WholeIsReadable(at, server, b, reply);
      var snapshot := Snapshot(live.collections, now);
      cache := cache[at := Encode(snapshot, at)];
      return Some(snapshot), false;
    }
  }
}
