/**
  Which stored directories are read back: exactly those that some whole response of the family could
  have been stored as, under their own address and for a day.
*/
module DirectoryCache {
  import opened Wrappers
  import opened TextOrder
  import opened Directory
  import opened DirectoryRules

  // ---------------------------------------------------------------- identifiers

  lemma StripKeeps(s: string)
    ensures Strip(s) == s <==> s == "" || (!Space(s[0]) && !Space(s[|s| - 1]))
  {
    if s != "" && Space(s[0]) {
      StripShorter(s[1..]);
    } else if s != "" && Space(s[|s| - 1]) {
      StripShorter(s[..|s| - 1]);
    }
  }

  lemma {:induction false} StripShorter(s: string)
    ensures |Strip(s)| <= |s|
    decreases |s|
  {
    if s != "" && Space(s[0]) {
      StripShorter(s[1..]);
    } else if s != "" && Space(s[|s| - 1]) {
      StripShorter(s[..|s| - 1]);
    }
  }

  /** A canonical identifier is a text that stripping leaves alone, other than the empty one. */
  lemma TrimmedExactly(s: string)
    ensures Trimmed(s) <==> s != "" && Strip(s) == s
  {
    StripKeeps(s);
  }

  // ---------------------------------------------------------------- rows that could have been projected

  function Mark(b: bool): int { if b then 1 else 0 }

  function TypeRead(row: Row): StyleTypeRow {
    StyleTypeRow(Said(row, TypeId), Said(row, ParentTypeId), Said(row, Name), Mark(Flagged(row, Deleted)))
  }

  function ProductionRead(row: Row): ProductionTypeRow {
    ProductionTypeRow(Said(row, TypeId), Said(row, Name), Mark(Flagged(row, CountsCutting)),
                      Mark(Flagged(row, Deleted)), Mark(Flagged(row, CountsStock)))
  }

  function ProcessRead(row: Row): ProcessRow {
    ProcessRow(Said(row, ProcessId), Said(row, Name), Numbered(row, FlowType), Mark(Flagged(row, Deleted)),
               Said(row, TypeName), Said(row, SortOrder), Said(row, VehicleType))
  }

  function StepRead(row: Row): StepRow {
    StepRow(Said(row, ConfigurationId), Said(row, BillCode), Said(row, StyleId), Said(row, StyleCode),
            Said(row, ProcessId), Said(row, Name), Numbered(row, SortOrder), Said(row, TypeId), Said(row, TypeName),
            Mark(Flagged(row, Active)), Mark(Flagged(row, LastProcess)))
  }

  lemma SameFields(a: Row, b: Row)
    requires a.Keys == b.Keys && forall f :: f in a ==> a[f] == b[f]
    ensures a == b
  {
  }

  lemma StyleTyped(row: Row)
    requires Typed(row, FieldsOf(Styles))
    ensures OfStyle(StyleRead(row)) == row
  {
    SameFields(OfStyle(StyleRead(row)), row);
  }

  lemma TypeTyped(row: Row)
    requires Typed(row, FieldsOf(StyleTypes))
    ensures OfType(TypeRead(row)) == row
  {
    SameFields(OfType(TypeRead(row)), row);
  }

  lemma ColorTyped(row: Row)
    requires Typed(row, FieldsOf(StyleColors))
    ensures OfColor(ColorRead(row)) == row
  {
    SameFields(OfColor(ColorRead(row)), row);
  }

  lemma SizeTyped(row: Row)
    requires Typed(row, FieldsOf(StyleSizes))
    ensures OfSize(SizeRead(row)) == row
  {
    SameFields(OfSize(SizeRead(row)), row);
  }

  lemma ProductionTyped(row: Row)
    requires Typed(row, FieldsOf(ProductionTypes))
    ensures OfProduction(ProductionRead(row)) == row
  {
    SameFields(OfProduction(ProductionRead(row)), row);
  }

  lemma ProcessTyped(row: Row)
    requires Typed(row, FieldsOf(Processes))
    ensures OfProcess(ProcessRead(row)) == row
  {
    SameFields(OfProcess(ProcessRead(row)), row);
  }

  /** A typed value is what is read of it, whatever its kind. */
  ghost predicate ReadAs(row: Row, field: Field, kind: Kind) {
    && field in row
    && match kind
       case IsWords => row[field] == Words(Said(row, field))
       case IsNumber => row[field] == Number(Numbered(row, field))
       case IsFlag => row[field] == Flag(Flagged(row, field))
  }

  lemma TypedReads(row: Row, fields: map<Field, Kind>, field: Field)
    requires Typed(row, fields) && field in fields
    ensures ReadAs(row, field, fields[field])
  {
  }

  lemma StyleStepCells(r: StepRow)
    ensures var out := OfStyleStep(r);
            && out.Keys == FieldsOf(StyleProcesses).Keys
            && out[ConfigurationId] == Words(r.id) && out[StyleId] == Words(r.huohao)
            && out[StyleCode] == Words(r.huohaoname) && out[ProcessId] == Words(r.wt) && out[Name] == Words(r.wtname)
            && out[TypeId] == Words(r.sctype) && out[TypeName] == Words(r.sctypename)
            && out[SortOrder] == Number(r.sort) && out[Active] == Flag(r.usingState != 0)
            && out[LastProcess] == Flag(r.zhgx != 0)
  {
  }

  lemma BillStepCells(r: StepRow)
    ensures var out := OfBillStep(r);
            && out.Keys == FieldsOf(BillProcesses).Keys
            && out[ConfigurationId] == Words(r.id) && out[BillCode] == Words(r.dh) && out[StyleId] == Words(r.huohao)
            && out[StyleCode] == Words(r.huohaoname) && out[ProcessId] == Words(r.wt) && out[Name] == Words(r.wtname)
            && out[TypeId] == Words(r.sctype) && out[TypeName] == Words(r.sctypename)
            && out[SortOrder] == Number(r.sort) && out[LastProcess] == Flag(r.zhgx != 0)
  {
  }

  lemma StyleStepTyped(row: Row)
    requires Typed(row, FieldsOf(StyleProcesses))
    ensures OfStyleStep(StepRead(row)) == row
  {
    var out := OfStyleStep(StepRead(row));
    StyleStepCells(StepRead(row));
    forall f | f in row
      ensures out[f] == row[f]
    {
      TypedReads(row, FieldsOf(StyleProcesses), f);
    }
    SameFields(out, row);
  }

  lemma BillStepTyped(row: Row)
    requires Typed(row, FieldsOf(BillProcesses))
    ensures OfBillStep(StepRead(row)) == row
  {
    var out := OfBillStep(StepRead(row));
    BillStepCells(StepRead(row));
    forall f | f in row
      ensures out[f] == row[f]
    {
      TypedReads(row, FieldsOf(BillProcesses), f);
    }
    SameFields(out, row);
  }

  function Back<T>(rows: seq<Row>, read: Row -> T): seq<T> {
    seq(|rows|, i requires 0 <= i < |rows| => read(rows[i]))
  }

  lemma BackAgain<T>(rows: seq<Row>, dataset: Dataset, f: T -> Row, read: Row -> T)
    requires RowsTyped(dataset, rows) && forall row :: Typed(row, FieldsOf(dataset)) ==> f(read(row)) == row
    ensures Each(Back(rows, read), f) == rows
  {
    forall i | 0 <= i < |rows|
      ensures Each(Back(rows, read), f)[i] == rows[i]
    {
    }
  }

  // ---------------------------------------------------------------- what is readable

  ghost predicate Counts(c: Collections, dataset: Dataset) {
    dataset in c && c[dataset].total == |c[dataset].rows| && RowsTyped(dataset, c[dataset].rows)
  }

  /** The response that the rows of one dataset could have come from. */
  lemma SourceOfOne(c: Collections, family: Family) returns (reply: Reply)
    requires family in {ProductionTypeList, ProcessList, StyleProcessList, BillProcessList}
    requires c.Keys == (set name | name in DatasetsOf(family)) && Counts(c, DatasetsOf(family)[0])
    ensures FamilyOf(reply) == family && Projected(reply) == c
  {
    var dataset := DatasetsOf(family)[0];
    var rows := c[dataset].rows;
    assert c == map[dataset := Collection(rows, |rows|)];
    match family
    case ProductionTypeList =>
      forall row | Typed(row, FieldsOf(dataset))
        ensures OfProduction(ProductionRead(row)) == row
      {
        ProductionTyped(row);
      }
      BackAgain(rows, dataset, OfProduction, ProductionRead);
      reply := ProductionTypeReply(Back(rows, ProductionRead), |rows|);
    case ProcessList =>
      forall row | Typed(row, FieldsOf(dataset))
        ensures OfProcess(ProcessRead(row)) == row
      {
        ProcessTyped(row);
      }
      BackAgain(rows, dataset, OfProcess, ProcessRead);
      reply := ProcessReply(Back(rows, ProcessRead), |rows|);
    case StyleProcessList =>
      forall row | Typed(row, FieldsOf(dataset))
        ensures OfStyleStep(StepRead(row)) == row
      {
        StyleStepTyped(row);
      }
      BackAgain(rows, dataset, OfStyleStep, StepRead);
      reply := StyleProcessReply(Back(rows, StepRead), |rows|);
    case BillProcessList =>
      forall row | Typed(row, FieldsOf(dataset))
        ensures OfBillStep(StepRead(row)) == row
      {
        BillStepTyped(row);
      }
      BackAgain(rows, dataset, OfBillStep, StepRead);
      reply := BillProcessReply(Back(rows, StepRead), |rows|);
  }

  lemma SourceOfDirectory(c: Collections) returns (reply: Reply)
    requires c.Keys == {Styles, StyleTypes} && Counts(c, Styles) && Counts(c, StyleTypes)
    ensures FamilyOf(reply) == StyleDirectory && Projected(reply) == c
  {
    var styles, types := c[Styles].rows, c[StyleTypes].rows;
    assert c == map[Styles := Collection(styles, |styles|), StyleTypes := Collection(types, |types|)];
    forall row | Typed(row, FieldsOf(Styles))
      ensures OfStyle(StyleRead(row)) == row
    {
      StyleTyped(row);
    }
    forall row | Typed(row, FieldsOf(StyleTypes))
      ensures OfType(TypeRead(row)) == row
    {
      TypeTyped(row);
    }
    BackAgain(styles, Styles, OfStyle, StyleRead);
    BackAgain(types, StyleTypes, OfType, TypeRead);
    reply := StyleDirectoryReply(Back(styles, StyleRead), |styles|, Back(types, TypeRead), |types|);
  }

  lemma SourceOfForm(c: Collections) returns (reply: Reply)
    requires c.Keys == {Styles, StyleColors, StyleSizes}
    requires Counts(c, Styles) && Counts(c, StyleColors) && Counts(c, StyleSizes)
    ensures FamilyOf(reply) == StyleForm && Projected(reply) == c
  {
    var styles, colors, sizes := c[Styles].rows, c[StyleColors].rows, c[StyleSizes].rows;
    assert c == map[Styles := Collection(styles, |styles|), StyleColors := Collection(colors, |colors|),
                    StyleSizes := Collection(sizes, |sizes|)];
    forall row | Typed(row, FieldsOf(Styles))
      ensures OfStyle(StyleRead(row)) == row
    {
      StyleTyped(row);
    }
    forall row | Typed(row, FieldsOf(StyleColors))
      ensures OfColor(ColorRead(row)) == row
    {
      ColorTyped(row);
    }
    forall row | Typed(row, FieldsOf(StyleSizes))
      ensures OfSize(SizeRead(row)) == row
    {
      SizeTyped(row);
    }
    BackAgain(styles, Styles, OfStyle, StyleRead);
    BackAgain(colors, StyleColors, OfColor, ColorRead);
    BackAgain(sizes, StyleSizes, OfSize, SizeRead);
    reply := StyleFormReply(Back(styles, StyleRead), |styles|, Back(colors, ColorRead), |colors|,
                            Back(sizes, SizeRead), |sizes|);
  }

  /** Any stored directory that passes the reader's tests is what some response was projected to. */
  lemma SourceOf(c: Collections, at: Address, maxRows: nat) returns (reply: Reply)
    requires Readable(c, at, maxRows) && at.family != HangingLineList
    ensures FamilyOf(reply) == at.family && Projected(reply) == c
  {
    assert forall dataset :: dataset in c <==> dataset in DatasetsOf(at.family);
    if at.family == StyleDirectory {
      assert c.Keys == {Styles, StyleTypes};
      reply := SourceOfDirectory(c);
    } else if at.family == StyleForm {
      assert c.Keys == {Styles, StyleColors, StyleSizes};
      reply := SourceOfForm(c);
    } else {
      assert DatasetsOf(at.family)[0] in c;
      reply := SourceOfOne(c, at.family);
    }
  }

  lemma {:induction false} SameSums(c: Collections, names: seq<Dataset>)
    requires forall dataset :: dataset in c ==> c[dataset].total == |c[dataset].rows|
    ensures RowCount(c, names) == SumOf(c, names)
  {
    if names != [] {
      SameSums(c, names[1..]);
    }
  }

  /** The reader accepts exactly what a whole response of the family is stored as. */
  lemma ReadableExactly(c: Collections, at: Address, maxRows: nat)
    requires at.family != HangingLineList
    ensures Readable(c, at, maxRows) <==>
            exists reply :: FamilyOf(reply) == at.family && Assess(reply, at.entity, maxRows) == Whole(c)
  {
    if Readable(c, at, maxRows) {
      var reply := SourceOf(c, at, maxRows);
      SameSums(c, DatasetsOf(at.family));
      assert Assess(reply, at.entity, maxRows) == Whole(c);
    }
    if reply :| FamilyOf(reply) == at.family && Assess(reply, at.entity, maxRows) == Whole(c) {
      ProjectedIsTyped(reply);
    }
  }

  function LineRead(row: Row): Line {
    Line(Said(row, ConfigurationId), Said(row, SystemName), Said(row, LineCode), Said(row, GroupName))
  }

  lemma LineTyped(row: Row)
    requires Typed(row, FieldsOf(HangingLines))
    ensures OfLine(LineRead(row)) == row
  {
    SameFields(OfLine(LineRead(row)), row);
  }

  /** The same for the lines of the hanging system. */
  lemma ReadableLines(c: Collections, at: Address, maxRows: nat)
    requires at.family == HangingLineList && at.entity == ""
    ensures Readable(c, at, maxRows) <==>
            exists rows :: c == OfLines(rows) && |rows| <= maxRows && DistinctIds(rows) && Stable(rows)
  {
    assert [HangingLines][1..] == [];
    if Readable(c, at, maxRows) {
      assert HangingLines in DatasetsOf(at.family) && HangingLines in c;
      var rows := c[HangingLines].rows;
      forall row | Typed(row, FieldsOf(HangingLines))
        ensures OfLine(LineRead(row)) == row
      {
        LineTyped(row);
      }
      BackAgain(rows, HangingLines, OfLine, LineRead);
      var lines := Back(rows, LineRead);
      assert forall dataset :: dataset in c <==> dataset == HangingLines;
      assert c == OfLines(lines);
      LinesRelated(lines);
      assert SumOf(c, [HangingLines]) == c[HangingLines].total + SumOf(c, []);
    }
    if rows :| c == OfLines(rows) && |rows| <= maxRows && DistinctIds(rows) && Stable(rows) {
      LinesRelated(rows);
      PlainRowsTyped([], [], rows);
      assert SumOf(c, [HangingLines]) == c[HangingLines].total + SumOf(c, []);
    }
  }

  /** An entry is read exactly at its own address, in the current version, for a day, and if its rows are readable. */
  lemma ReadExactly(e: Entry, at: Address, now: int, maxRows: nat)
    ensures Decode(e, at, now, maxRows).Some? <==>
            && e.version == 1 && e.address == at && e.generatedAt <= now < e.generatedAt + 24 * 60 * 60
            && Readable(e.collections, at, maxRows)
    ensures Decode(e, at, now, maxRows).Some? ==>
              Decode(e, at, now, maxRows).value == Snapshot(e.collections, e.generatedAt)
  {
  }

  /** A response is short exactly if a list is not as long as announced, or they exceed the budget together. */
  lemma ShortExactly(reply: Reply, entity: string, maxRows: nat)
    ensures var c := Projected(reply);
            Assess(reply, entity, maxRows).Short? <==>
            || (exists dataset :: dataset in c && |c[dataset].rows| != c[dataset].total)
            || SumOf(c, DatasetsOf(FamilyOf(reply))) > maxRows
  {
    var c := Projected(reply);
    if Counted(c) {
      SameSums(c, DatasetsOf(FamilyOf(reply)));
    }
  }
}
