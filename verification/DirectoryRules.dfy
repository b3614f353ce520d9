/**
  Which directories are whole, read off the customer's own responses family by family; and that the
  projected rows say the same as the responses.
*/
module DirectoryRules {
  import opened Wrappers
  import opened TextOrder
  import opened Directory

  // ---------------------------------------------------------------- rules on responses

  predicate Different<T(!new)>(rows: seq<T>, name: T -> string) {
    forall i, j :: 0 <= i < j < |rows| ==> name(rows[i]) != name(rows[j])
  }

  /** One code always comes with one name. */
  predicate OneName<T(!new)>(rows: seq<T>, code: T -> string, name: T -> string) {
    forall i, j :: 0 <= i < |rows| && 0 <= j < |rows| && code(rows[i]) == code(rows[j]) ==>
      name(rows[i]) == name(rows[j])
  }

  /** As long as announced, and within the budget. */
  predicate Fitting(count: nat, total: nat, maxRows: nat) { count == total && count <= maxRows }

  function StepId(r: StepRow): string { r.id }
  function StepStyle(r: StepRow): string { r.huohao }
  function StepStyleCode(r: StepRow): string { r.huohaoname }
  function StepProcess(r: StepRow): string { r.wt }
  function StepName(r: StepRow): string { r.wtname }
  function StepType(r: StepRow): string { r.sctype }
  function StepTypeName(r: StepRow): string { r.sctypename }
  function ProductionId(r: ProductionTypeRow): string { r.bh }
  function ProcessIdOf(r: ProcessRow): string { r.bh }
  function StyleIdOf(r: StyleRow): string { r.bh }
  function ColorIdOf(r: StyleColorRow): string { r.id }
  function SizeIdOf(r: StyleSizeRow): string { r.id }

  predicate GoodProduction(rows: seq<ProductionTypeRow>) {
    Different(rows, ProductionId) && forall r :: r in rows ==> Trimmed(r.bh)
  }

  predicate GoodProcesses(rows: seq<ProcessRow>) {
    Different(rows, ProcessIdOf) && forall r :: r in rows ==> Trimmed(r.bh)
  }

  /** Styles, processes and types of the steps have one name for each code. */
  predicate NamedSteps(rows: seq<StepRow>) {
    && OneName(rows, StepStyle, StepStyleCode)
    && OneName(rows, StepProcess, StepName)
    && OneName(rows, StepType, StepTypeName)
  }

  predicate TrimmedStep(r: StepRow) {
    Trimmed(r.id) && Trimmed(r.huohao) && Trimmed(r.huohaoname) && Trimmed(r.wt) && Trimmed(r.sctype)
  }

  predicate GoodStyleSteps(rows: seq<StepRow>) {
    Different(rows, StepId) && NamedSteps(rows) && forall r :: r in rows ==> TrimmedStep(r)
  }

  /** The steps of a bill are of that bill, and of one style. */
  predicate GoodBillSteps(rows: seq<StepRow>, bill: string) {
    && Different(rows, StepId) && NamedSteps(rows)
    && (forall r :: r in rows ==> TrimmedStep(r) && Trimmed(r.dh) && (bill == "" || r.dh == bill))
    && forall i, j :: 0 <= i < |rows| && 0 <= j < |rows| ==> rows[i].huohao == rows[j].huohao
  }

  /** The form of one style: its row, and colours and sizes of that very style. */
  predicate GoodForm(styles: seq<StyleRow>, colors: seq<StyleColorRow>, sizes: seq<StyleSizeRow>, style: string) {
    && |styles| <= 1
    && (forall r :: r in styles ==> r.bh == style && Trimmed(r.bh) && Trimmed(r.bbreed) && Trimmed(r.stype))
    && Different(colors, ColorIdOf) && Different(sizes, SizeIdOf)
    && (forall r :: r in colors ==> r.bh == style && Trimmed(r.id) && Trimmed(r.bh))
    && (forall r :: r in sizes ==> r.bh == style && Trimmed(r.id) && Trimmed(r.bh))
    && (styles == [] ==> colors == [] && sizes == [])
  }

  // ---------------------------------------------------------------- rows of one dataset

  /** The projected rows carry the given texts in the given field. */
  ghost predicate Carries<T(!new)>(rows: seq<T>, f: T -> Row, field: Field, text: T -> string) {
    forall r :: r in rows ==> Cell(f(r), field) == Some(Words(text(r)))
  }

  lemma DifferentCells<T(!new)>(rows: seq<T>, f: T -> Row, field: Field, text: T -> string)
    requires Carries(rows, f, field, text)
    ensures DistinctCells(Each(rows, f), field) <==> Different(rows, text)
  {
    forall i | 0 <= i < |rows|
      ensures Cell(Each(rows, f)[i], field) == Some(Words(text(rows[i])))
    {
      assert rows[i] in rows;
    }
  }

  lemma OneNameCells<T(!new)>(rows: seq<T>, f: T -> Row, code: Field, name: Field, codes: T -> string,
                              names: T -> string)
    requires Carries(rows, f, code, codes) && Carries(rows, f, name, names)
    ensures Functional(Each(rows, f), code, name) <==> OneName(rows, codes, names)
  {
    forall i | 0 <= i < |rows|
      ensures Cell(Each(rows, f)[i], code) == Some(Words(codes(rows[i])))
      ensures Cell(Each(rows, f)[i], name) == Some(Words(names(rows[i])))
    {
      assert rows[i] in rows;
    }
  }

  ghost predicate RowHolds(row: Row, dataset: Dataset, entity: string) {
    StableRow(row) && OfEntity(row, dataset, entity)
  }

  ghost predicate AllHold(rows: seq<Row>, dataset: Dataset, entity: string) {
    forall i :: 0 <= i < |rows| ==> StableRow(rows[i]) && OfEntity(rows[i], dataset, entity)
  }

  lemma RowsHold<T>(rows: seq<T>, f: T -> Row, dataset: Dataset, entity: string)
    ensures AllHold(Each(rows, f), dataset, entity) <==> forall r :: r in rows ==> RowHolds(f(r), dataset, entity)
  {
    if AllHold(Each(rows, f), dataset, entity) {
      forall r | r in rows
        ensures RowHolds(f(r), dataset, entity)
      {
        var i :| 0 <= i < |rows| && rows[i] == r;
        assert StableRow(Each(rows, f)[i]);
      }
    }
    if forall r :: r in rows ==> RowHolds(f(r), dataset, entity) {
      forall i | 0 <= i < |rows|
        ensures StableRow(Each(rows, f)[i]) && OfEntity(Each(rows, f)[i], dataset, entity)
      {
        assert rows[i] in rows;
        assert RowHolds(f(rows[i]), dataset, entity);
      }
    }
  }

  /** The rules of a dataset that is neither of processes by style nor by bill. */
  lemma PlainHolds<T(!new)>(dataset: Dataset, rows: seq<T>, f: T -> Row, text: T -> string, entity: string)
    requires !dataset.StyleProcesses? && !dataset.BillProcesses? && Carries(rows, f, KeyOf(dataset), text)
    ensures DatasetHolds(dataset, Each(rows, f), entity) <==>
            Different(rows, text) && forall r :: r in rows ==> RowHolds(f(r), dataset, entity)
  {
    DifferentCells(rows, f, KeyOf(dataset), text);
    RowsHold(rows, f, dataset, entity);
  }

  lemma ProductionRow(r: ProductionTypeRow)
    ensures RowHolds(OfProduction(r), ProductionTypes, "") <==> Trimmed(r.bh)
  {
    assert TypeId in OfProduction(r);
  }

  lemma ProcessRowHolds(r: ProcessRow)
    ensures RowHolds(OfProcess(r), Processes, "") <==> Trimmed(r.bh)
  {
    assert ProcessId in OfProcess(r);
  }

  lemma StyleStepRow(r: StepRow)
    ensures RowHolds(OfStyleStep(r), StyleProcesses, "") <==> TrimmedStep(r)
  {
    var row := OfStyleStep(r);
    assert ConfigurationId in row && StyleId in row && StyleCode in row && ProcessId in row && TypeId in row;
  }

  lemma BillStepRow(r: StepRow, bill: string)
    ensures RowHolds(OfBillStep(r), BillProcesses, bill) <==>
            TrimmedStep(r) && Trimmed(r.dh) && (bill == "" || r.dh == bill)
  {
    var row := OfBillStep(r);
    assert ConfigurationId in row && StyleId in row && StyleCode in row && ProcessId in row && TypeId in row;
    assert BillCode in row;
  }

  lemma StyleRowHolds(r: StyleRow, style: string)
    requires style != ""
    ensures RowHolds(OfStyle(r), Styles, style) <==>
            r.bh == style && Trimmed(r.bh) && Trimmed(r.bbreed) && Trimmed(r.stype)
  {
    StyleStable(r);
  }

  lemma ColorRow(r: StyleColorRow, style: string)
    requires style != ""
    ensures RowHolds(OfColor(r), StyleColors, style) <==> r.bh == style && Trimmed(r.id) && Trimmed(r.bh)
  {
    assert ConfigurationId in OfColor(r) && StyleId in OfColor(r);
  }

  lemma SizeRow(r: StyleSizeRow, style: string)
    requires style != ""
    ensures RowHolds(OfSize(r), StyleSizes, style) <==> r.bh == style && Trimmed(r.id) && Trimmed(r.bh)
  {
    assert ConfigurationId in OfSize(r) && StyleId in OfSize(r);
  }

  // ---------------------------------------------------------------- when a response is whole

  lemma SingleWhole(reply: Reply, dataset: Dataset, entity: string, maxRows: nat)
    requires DatasetsOf(FamilyOf(reply)) == [dataset] && Projected(reply).Keys == {dataset} && dataset != Styles
    ensures var c := Projected(reply)[dataset];
            Assess(reply, entity, maxRows).Whole? <==>
            |c.rows| == c.total && |c.rows| <= maxRows && DatasetHolds(dataset, c.rows, entity)
  {
    var c := Projected(reply);
    assert dataset in c && Styles !in c;
    assert [dataset][1..] == [];
    assert RowCount(c, [dataset]) == |c[dataset].rows| + RowCount(c, []);
    assert SumOf(c, [dataset]) == c[dataset].total + SumOf(c, []);
  }

  /** Production types and processes: counted, within the budget, with canonical and different identifiers. */
  lemma PlainWhole(reply: Reply, maxRows: nat)
    ensures reply.ProductionTypeReply? ==>
              (Assess(reply, "", maxRows).Whole? <==>
               Fitting(|reply.production|, reply.total, maxRows) && GoodProduction(reply.production))
    ensures reply.ProcessReply? ==>
              (Assess(reply, "", maxRows).Whole? <==>
               Fitting(|reply.processes|, reply.total, maxRows) && GoodProcesses(reply.processes))
  {
    if reply.ProductionTypeReply? {
      SingleWhole(reply, ProductionTypes, "", maxRows);
      PlainHolds(ProductionTypes, reply.production, OfProduction, ProductionId, "");
      forall r | r in reply.production
        ensures RowHolds(OfProduction(r), ProductionTypes, "") <==> Trimmed(r.bh)
      {
        ProductionRow(r);
      }
    } else if reply.ProcessReply? {
      SingleWhole(reply, Processes, "", maxRows);
      PlainHolds(Processes, reply.processes, OfProcess, ProcessIdOf, "");
      forall r | r in reply.processes
        ensures RowHolds(OfProcess(r), Processes, "") <==> Trimmed(r.bh)
      {
        ProcessRowHolds(r);
      }
    }
  }

  /** The step's codes and names are in the fields meant for them. */
  ghost predicate Step(row: Row, r: StepRow) {
    && Cell(row, StyleId) == Some(Words(r.huohao)) && Cell(row, StyleCode) == Some(Words(r.huohaoname))
    && Cell(row, ProcessId) == Some(Words(r.wt)) && Cell(row, Name) == Some(Words(r.wtname))
    && Cell(row, TypeId) == Some(Words(r.sctype)) && Cell(row, TypeName) == Some(Words(r.sctypename))
  }

  ghost predicate StepNames(rows: seq<Row>) {
    Functional(rows, StyleId, StyleCode) && Functional(rows, ProcessId, Name) && Functional(rows, TypeId, TypeName)
  }

  lemma StepsNamed(steps: seq<StepRow>, f: StepRow -> Row)
    requires forall r :: Step(f(r), r)
    ensures StepNames(Each(steps, f)) <==> NamedSteps(steps)
  {
    forall r: StepRow
      ensures Cell(f(r), StyleId) == Some(Words(r.huohao)) && Cell(f(r), StyleCode) == Some(Words(r.huohaoname))
      ensures Cell(f(r), ProcessId) == Some(Words(r.wt)) && Cell(f(r), Name) == Some(Words(r.wtname))
      ensures Cell(f(r), TypeId) == Some(Words(r.sctype)) && Cell(f(r), TypeName) == Some(Words(r.sctypename))
    {
      assert Step(f(r), r);
    }
    OneNameCells(steps, f, StyleId, StyleCode, StepStyle, StepStyleCode);
    OneNameCells(steps, f, ProcessId, Name, StepProcess, StepName);
    OneNameCells(steps, f, TypeId, TypeName, StepType, StepTypeName);
  }

  /** The rules of a dataset of steps, apart from those on single rows. */
  lemma StepsDistinct(steps: seq<StepRow>, f: StepRow -> Row)
    requires forall r :: Cell(f(r), ConfigurationId) == Some(Words(r.id))
    ensures DistinctCells(Each(steps, f), ConfigurationId) <==> Different(steps, StepId)
  {
    DifferentCells(steps, f, ConfigurationId, StepId);
  }

  ghost predicate OneStyleId(rows: seq<Row>) {
    forall i, j :: 0 <= i < j < |rows| ==> Cell(rows[i], StyleId) == Cell(rows[j], StyleId)
  }

  lemma StepRules(rows: seq<Row>, entity: string)
    ensures DatasetHolds(StyleProcesses, rows, entity) <==>
            DistinctCells(rows, ConfigurationId) && AllHold(rows, StyleProcesses, entity) && StepNames(rows)
    ensures DatasetHolds(BillProcesses, rows, entity) <==>
            && DistinctCells(rows, ConfigurationId) && AllHold(rows, BillProcesses, entity) && StepNames(rows)
            && OneStyleId(rows)
  {
  }

  lemma StyleStepFields(r: StepRow)
    ensures Step(OfStyleStep(r), r) && Cell(OfStyleStep(r), ConfigurationId) == Some(Words(r.id))
  {
  }

  lemma BillStepFields(r: StepRow)
    ensures Step(OfBillStep(r), r) && Cell(OfBillStep(r), ConfigurationId) == Some(Words(r.id))
  {
  }

  /** The two rules of steps that speak of several rows. */
  lemma StepsApart(steps: seq<StepRow>, f: StepRow -> Row)
    requires forall r :: Step(f(r), r) && Cell(f(r), ConfigurationId) == Some(Words(r.id))
    ensures DistinctCells(Each(steps, f), ConfigurationId) <==> Different(steps, StepId)
    ensures StepNames(Each(steps, f)) <==> NamedSteps(steps)
  {
    StepsDistinct(steps, f);
    StepsNamed(steps, f);
  }

  lemma StyleStepsApart(steps: seq<StepRow>)
    ensures DistinctCells(Each(steps, OfStyleStep), ConfigurationId) <==> Different(steps, StepId)
    ensures StepNames(Each(steps, OfStyleStep)) <==> NamedSteps(steps)
  {
    forall r
      ensures Step(OfStyleStep(r), r) && Cell(OfStyleStep(r), ConfigurationId) == Some(Words(r.id))
    {
      StyleStepFields(r);
    }
    StepsApart(steps, OfStyleStep);
  }

  lemma BillStepsApart(steps: seq<StepRow>)
    ensures DistinctCells(Each(steps, OfBillStep), ConfigurationId) <==> Different(steps, StepId)
    ensures StepNames(Each(steps, OfBillStep)) <==> NamedSteps(steps)
  {
    forall r
      ensures Step(OfBillStep(r), r) && Cell(OfBillStep(r), ConfigurationId) == Some(Words(r.id))
    {
      BillStepFields(r);
    }
    StepsApart(steps, OfBillStep);
  }

  lemma StyleStepsHold(steps: seq<StepRow>)
    ensures DatasetHolds(StyleProcesses, Each(steps, OfStyleStep), "") <==> GoodStyleSteps(steps)
  {
    StepRules(Each(steps, OfStyleStep), "");
    StyleStepsApart(steps);
    RowsHold(steps, OfStyleStep, StyleProcesses, "");
    forall r | r in steps
      ensures RowHolds(OfStyleStep(r), StyleProcesses, "") <==> TrimmedStep(r)
    {
      StyleStepRow(r);
    }
  }

  lemma BillRowsHold(steps: seq<StepRow>, bill: string)
    ensures AllHold(Each(steps, OfBillStep), BillProcesses, bill) <==>
            forall r :: r in steps ==> TrimmedStep(r) && Trimmed(r.dh) && (bill == "" || r.dh == bill)
  {
    RowsHold(steps, OfBillStep, BillProcesses, bill);
    forall r | r in steps
      ensures RowHolds(OfBillStep(r), BillProcesses, bill) <==>
              TrimmedStep(r) && Trimmed(r.dh) && (bill == "" || r.dh == bill)
    {
      BillStepRow(r, bill);
    }
  }

  lemma BillStepsHold(steps: seq<StepRow>, bill: string)
    ensures DatasetHolds(BillProcesses, Each(steps, OfBillStep), bill) <==> GoodBillSteps(steps, bill)
  {
    StepRules(Each(steps, OfBillStep), bill);
    BillStepsApart(steps);
    BillRowsHold(steps, bill);
    OneStyle(steps);
  }

  lemma OneStyle(steps: seq<StepRow>)
    ensures OneStyleId(Each(steps, OfBillStep)) <==>
            forall i, j :: 0 <= i < |steps| && 0 <= j < |steps| ==> steps[i].huohao == steps[j].huohao
  {
    forall i | 0 <= i < |steps|
      ensures Cell(Each(steps, OfBillStep)[i], StyleId) == Some(Words(steps[i].huohao))
    {
      assert Each(steps, OfBillStep)[i] == OfBillStep(steps[i]);
    }
  }

  /** Processes of styles and of a bill: moreover one name for each code, and one style and bill for a bill's. */
  lemma StepsWhole(reply: Reply, bill: string, maxRows: nat)
    ensures reply.StyleProcessReply? ==>
              (Assess(reply, "", maxRows).Whole? <==>
               Fitting(|reply.steps|, reply.total, maxRows) && GoodStyleSteps(reply.steps))
    ensures reply.BillProcessReply? ==>
              (Assess(reply, bill, maxRows).Whole? <==>
               Fitting(|reply.steps|, reply.total, maxRows) && GoodBillSteps(reply.steps, bill))
  {
    if reply.StyleProcessReply? {
      SingleWhole(reply, StyleProcesses, "", maxRows);
      StyleStepsHold(reply.steps);
    } else if reply.BillProcessReply? {
      SingleWhole(reply, BillProcesses, bill, maxRows);
      BillStepsHold(reply.steps, bill);
    }
  }

  lemma FormCounts(reply: Reply, style: string, maxRows: nat)
    requires reply.StyleFormReply?
    ensures Assess(reply, style, maxRows).Whole? <==>
            && |reply.styles| == reply.styleTotal && |reply.colors| == reply.colorTotal
            && |reply.sizes| == reply.sizeTotal && |reply.styles| + |reply.colors| + |reply.sizes| <= maxRows
            && Related(Projected(reply), style)
  {
    var c := Projected(reply);
    assert [Styles, StyleColors, StyleSizes][1..] == [StyleColors, StyleSizes];
    assert [StyleColors, StyleSizes][1..] == [StyleSizes] && [StyleSizes][1..] == [];
    assert RowCount(c, [Styles, StyleColors, StyleSizes]) == |reply.styles| + RowCount(c, [StyleColors, StyleSizes]);
    assert RowCount(c, [StyleColors, StyleSizes]) == |reply.colors| + RowCount(c, [StyleSizes]);
    assert RowCount(c, [StyleSizes]) == |reply.sizes| + RowCount(c, []);
    assert SumOf(c, [Styles, StyleColors, StyleSizes]) == reply.styleTotal + SumOf(c, [StyleColors, StyleSizes]);
    assert SumOf(c, [StyleColors, StyleSizes]) == reply.colorTotal + SumOf(c, [StyleSizes]);
    assert SumOf(c, [StyleSizes]) == reply.sizeTotal + SumOf(c, []);
    assert Styles in c && StyleColors in c && StyleSizes in c;
  }

  lemma FormRelations(reply: Reply, style: string)
    requires reply.StyleFormReply? && style != ""
    ensures var styles, colors, sizes := Each(reply.styles, OfStyle), Each(reply.colors, OfColor),
                                         Each(reply.sizes, OfSize);
            Related(Projected(reply), style) <==>
            && DatasetHolds(Styles, styles, style) && DistinctCells(styles, StyleCode)
            && DatasetHolds(StyleColors, colors, style) && Refers(colors, styles, StyleId)
            && DatasetHolds(StyleSizes, sizes, style) && Refers(sizes, styles, StyleId)
  {
    var c := Projected(reply);
    assert Styles in c && StyleColors in c && StyleSizes in c && StyleTypes !in c;
    assert forall dataset :: dataset in c ==> dataset == Styles || dataset == StyleColors || dataset == StyleSizes;
  }

  lemma RefersAt(rows: seq<Row>, target: seq<Row>, field: Field, i: nat)
    requires i < |rows| && Refers(rows, target, field)
    ensures Names(target, field, Cell(rows[i], field))
  {
  }

  /** Rows of one style refer to its row exactly if it is there. */
  lemma RefersToStyle<T>(rows: seq<T>, f: T -> Row, styles: seq<StyleRow>, style: string)
    requires forall r :: r in rows ==> Cell(f(r), StyleId) == Some(Words(style))
    requires forall r :: r in styles ==> r.bh == style
    ensures Refers(Each(rows, f), Each(styles, OfStyle), StyleId) <==> (styles == [] ==> rows == [])
  {
    var out, target := Each(rows, f), Each(styles, OfStyle);
    forall i | 0 <= i < |rows|
      ensures Cell(out[i], StyleId) == Some(Words(style))
    {
      assert rows[i] in rows;
    }
    forall j | 0 <= j < |styles|
      ensures Cell(target[j], StyleId) == Some(Words(style))
    {
      assert styles[j] in styles;
      assert target[j] == OfStyle(styles[j]);
    }
    assert |out| == |rows| && |target| == |styles|;
    if rows == [] {
      assert out == [];
    } else if styles != [] {
      forall i | 0 <= i < |out|
        ensures Names(target, StyleId, Cell(out[i], StyleId))
      {
        assert Cell(target[0], StyleId) == Cell(out[i], StyleId);
      }
      assert Refers(out, target, StyleId);
    } else if Refers(out, target, StyleId) {
      RefersAt(out, target, StyleId, 0);
    }
  }

  lemma FormStyles(styles: seq<StyleRow>, style: string)
    requires style != ""
    ensures DatasetHolds(Styles, Each(styles, OfStyle), style) <==>
            |styles| <= 1 && forall r :: r in styles ==>
                r.bh == style && Trimmed(r.bh) && Trimmed(r.bbreed) && Trimmed(r.stype)
  {
    PlainHolds(Styles, styles, OfStyle, StyleIdOf, style);
    forall r | r in styles
      ensures RowHolds(OfStyle(r), Styles, style) <==>
              r.bh == style && Trimmed(r.bh) && Trimmed(r.bbreed) && Trimmed(r.stype)
    {
      StyleRowHolds(r, style);
    }
    if |styles| > 1 && forall r :: r in styles ==> r.bh == style {
      assert styles[0] in styles && styles[1] in styles;
    }
  }

  lemma FormColors(colors: seq<StyleColorRow>, style: string)
    requires style != ""
    ensures DatasetHolds(StyleColors, Each(colors, OfColor), style) <==>
            && Different(colors, ColorIdOf)
            && forall r :: r in colors ==> r.bh == style && Trimmed(r.id) && Trimmed(r.bh)
  {
    PlainHolds(StyleColors, colors, OfColor, ColorIdOf, style);
    forall r | r in colors
      ensures RowHolds(OfColor(r), StyleColors, style) <==> r.bh == style && Trimmed(r.id) && Trimmed(r.bh)
    {
      ColorRow(r, style);
    }
  }

  lemma FormSizes(sizes: seq<StyleSizeRow>, style: string)
    requires style != ""
    ensures DatasetHolds(StyleSizes, Each(sizes, OfSize), style) <==>
            && Different(sizes, SizeIdOf)
            && forall r :: r in sizes ==> r.bh == style && Trimmed(r.id) && Trimmed(r.bh)
  {
    PlainHolds(StyleSizes, sizes, OfSize, SizeIdOf, style);
    forall r | r in sizes
      ensures RowHolds(OfSize(r), StyleSizes, style) <==> r.bh == style && Trimmed(r.id) && Trimmed(r.bh)
    {
      SizeRow(r, style);
    }
  }

  /** The form of a style: counted, within the budget, and good. */
  lemma FormWhole(reply: Reply, style: string, maxRows: nat)
    requires reply.StyleFormReply? && style != ""
    ensures Assess(reply, style, maxRows).Whole? <==>
            && |reply.styles| == reply.styleTotal && |reply.colors| == reply.colorTotal
            && |reply.sizes| == reply.sizeTotal && |reply.styles| + |reply.colors| + |reply.sizes| <= maxRows
            && GoodForm(reply.styles, reply.colors, reply.sizes, style)
  {
    FormCounts(reply, style, maxRows);
    FormRelations(reply, style);
    FormStyles(reply.styles, style);
    FormColors(reply.colors, style);
    FormSizes(reply.sizes, style);
    if (forall r :: r in reply.styles ==> r.bh == style) && |reply.styles| <= 1 &&
      (forall r :: r in reply.colors ==> r.bh == style) && (forall r :: r in reply.sizes ==> r.bh == style) {
      FormRefers(reply.styles, reply.colors, reply.sizes, style);
    }
  }

  lemma FormRefers(styles: seq<StyleRow>, colors: seq<StyleColorRow>, sizes: seq<StyleSizeRow>, style: string)
    requires |styles| <= 1 && forall r :: r in styles ==> r.bh == style
    requires (forall r :: r in colors ==> r.bh == style) && forall r :: r in sizes ==> r.bh == style
    ensures DistinctCells(Each(styles, OfStyle), StyleCode)
    ensures Refers(Each(colors, OfColor), Each(styles, OfStyle), StyleId) <==> (styles == [] ==> colors == [])
    ensures Refers(Each(sizes, OfSize), Each(styles, OfStyle), StyleId) <==> (styles == [] ==> sizes == [])
  {
    RefersToStyle(colors, OfColor, styles, style);
    RefersToStyle(sizes, OfSize, styles, style);
  }

  // ---------------------------------------------------------------- what the projected rows say

  function Said(row: Row, field: Field): string {
    if field in row && row[field].Words? then row[field].s else ""
  }

  function Numbered(row: Row, field: Field): int { if field in row && row[field].Number? then row[field].n else -1 }

  predicate Flagged(row: Row, field: Field) { field in row && row[field].Flag? && row[field].b }

  /** The response's row, read back from the projected one. */
  function StyleRead(row: Row): StyleRow {
    StyleRow(Said(row, StyleId), Said(row, StyleCode), Said(row, Name), Said(row, TypeId), Said(row, Unit))
  }

  function ColorRead(row: Row): StyleColorRow {
    StyleColorRow(Said(row, ConfigurationId), Said(row, StyleId), Said(row, Color))
  }

  function SizeRead(row: Row): StyleSizeRow {
    StyleSizeRow(Said(row, ConfigurationId), Said(row, StyleId), Said(row, Size), Said(row, Fit), Said(row, Weight))
  }

  /** The types, with what their deletion mark means. */
  predicate TypeReads(row: Row, r: StyleTypeRow) {
    && Said(row, TypeId) == r.bh && Said(row, ParentTypeId) == r.pbh && Said(row, Name) == r.name
    && (Flagged(row, Deleted) <==> r.isdelete != 0)
  }

  predicate ProductionReads(row: Row, r: ProductionTypeRow) {
    && Said(row, TypeId) == r.bh && Said(row, Name) == r.name && (Flagged(row, Deleted) <==> r.isdelete != 0)
    && (Flagged(row, CountsCutting) <==> r.sfjcj != 0) && (Flagged(row, CountsStock) <==> r.sfcprk != 0)
  }

  predicate ProcessReads(row: Row, r: ProcessRow) {
    && Said(row, ProcessId) == r.bh && Said(row, Name) == r.name && Said(row, TypeName) == r.section
    && Said(row, VehicleType) == r.vehicleType && Numbered(row, FlowType) == r.gxtype
    && (Flagged(row, Deleted) <==> r.isdelete != 0) && Said(row, SortOrder) == r.wtSort
  }

  predicate StepReads(row: Row, r: StepRow) {
    && Said(row, ConfigurationId) == r.id && Said(row, StyleId) == r.huohao && Said(row, StyleCode) == r.huohaoname
    && Said(row, ProcessId) == r.wt && Said(row, Name) == r.wtname && Said(row, TypeId) == r.sctype
    && Said(row, TypeName) == r.sctypename && Numbered(row, SortOrder) == r.sort
    && (Flagged(row, LastProcess) <==> r.zhgx != 0)
  }

  ghost predicate Repeats<T(!new)>(c: Collections, dataset: Dataset, rows: seq<T>, total: int, says: (Row, T) -> bool) {
    && dataset in c && c[dataset].total == total && |c[dataset].rows| == |rows|
    && forall i :: 0 <= i < |rows| ==> says(c[dataset].rows[i], rows[i])
  }

  /** Projected rows say what the response's rows say, in their order and with their announced number. */
  lemma FormReadsBack(reply: Reply)
    ensures reply.StyleDirectoryReply? ==>
              && Repeats(Projected(reply), Styles, reply.styles, reply.styleTotal,
                       (row: Row, r: StyleRow) => StyleRead(row) == r)
              && Repeats(Projected(reply), StyleTypes, reply.types, reply.typeTotal, TypeReads)
    ensures reply.StyleFormReply? ==>
              && Repeats(Projected(reply), Styles, reply.styles, reply.styleTotal,
                       (row: Row, r: StyleRow) => StyleRead(row) == r)
              && Repeats(Projected(reply), StyleColors, reply.colors, reply.colorTotal,
                       (row: Row, r: StyleColorRow) => ColorRead(row) == r)
              && Repeats(Projected(reply), StyleSizes, reply.sizes, reply.sizeTotal,
                       (row: Row, r: StyleSizeRow) => SizeRead(row) == r)
  {
    forall r: StyleRow
      ensures StyleRead(OfStyle(r)) == r
    {
    }
    forall r: StyleTypeRow
      ensures TypeReads(OfType(r), r)
    {
    }
    forall r: StyleColorRow
      ensures ColorRead(OfColor(r)) == r
    {
    }
    forall r: StyleSizeRow
      ensures SizeRead(OfSize(r)) == r
    {
    }
  }

  lemma PlainReadsBack(reply: Reply)
    ensures reply.ProductionTypeReply? ==>
              Repeats(Projected(reply), ProductionTypes, reply.production, reply.total, ProductionReads)
    ensures reply.ProcessReply? ==>
              Repeats(Projected(reply), Processes, reply.processes, reply.total, ProcessReads)
  {
    forall r: ProductionTypeRow
      ensures ProductionReads(OfProduction(r), r)
    {
    }
    forall r: ProcessRow
      ensures ProcessReads(OfProcess(r), r)
    {
    }
  }

  lemma StyleStepReads(r: StepRow)
    ensures StepReads(OfStyleStep(r), r) && (Flagged(OfStyleStep(r), Active) <==> r.usingState != 0)
  {
  }

  lemma BillStepReads(r: StepRow)
    ensures StepReads(OfBillStep(r), r) && Said(OfBillStep(r), BillCode) == r.dh
  {
  }

  lemma StepsReadBack(reply: Reply)
    ensures reply.StyleProcessReply? ==>
              Repeats(Projected(reply), StyleProcesses, reply.steps, reply.total,
                    (row: Row, r: StepRow) => StepReads(row, r) && (Flagged(row, Active) <==> r.usingState != 0))
    ensures reply.BillProcessReply? ==>
              Repeats(Projected(reply), BillProcesses, reply.steps, reply.total,
                    (row: Row, r: StepRow) => StepReads(row, r) && Said(row, BillCode) == r.dh)
  {
    forall r: StepRow
      ensures StepReads(OfStyleStep(r), r) && (Flagged(OfStyleStep(r), Active) <==> r.usingState != 0)
      ensures StepReads(OfBillStep(r), r) && Said(OfBillStep(r), BillCode) == r.dh
    {
      StyleStepReads(r);
      BillStepReads(r);
    }
  }

  predicate LineReads(row: Row, r: Line) {
    && Said(row, ConfigurationId) == r.id && Said(row, SystemName) == r.system
    && Said(row, LineCode) == r.code && Said(row, GroupName) == r.group
  }

  /** The same for the lines of the hanging system. */
  lemma LinesReadBack(rows: seq<Line>)
    ensures Repeats(OfLines(rows), HangingLines, rows, |rows|, LineReads)
  {
    forall r: Line
      ensures LineReads(OfLine(r), r)
    {
    }
  }
}
