/**
  What the executor refuses outright, and when a grouped reply of the customer system may be used,
  on the names of parameters and columns.
*/
module ExecutorRules {
  import opened Wrappers
  import opened Table
  import opened RawRows
  import opened Progress
  import opened View
  import opened Visibility
  import opened SnapshotCodec
  import opened SnapshotGate
  import opened ResultCache
  import opened SnapshotExecutor

  /** A question that supplies a credential or a scope among its parameters is refused, and no other. */
  lemma ForbiddenExactly(params: Params)
    ensures Forbidden(params) <==>
            exists key :: key in params.other &&
                          (Scoping(key) || exists name :: name in SecretNames && Spells(key, name))
  {
    assert CredentialFields == SecretNames;
    forall key: string
      ensures Lower(key) in ScopeParams <==> Scoping(key)
      ensures Lower(key) in CredentialFields <==> exists name :: name in SecretNames && Spells(key, name)
    {
      ScopingMeans(key);
      SpellsLower(key, Lower(key));
      forall name | name in SecretNames && Spells(key, name)
        ensures Lower(key) == name
      {
        SpellsLower(key, name);
      }
    }
  }

  predicate SameGroup(a: Row, b: Row, groupby: seq<string>) {
    forall c :: c in groupby ==> Written(a, c) == Written(b, c)
  }

  /**
    A grouped reply of the customer system is used only if every filter in force looks at columns
    that are grouped by, so that it keeps or drops whole groups of the detail.
  */
  lemma NativeKeepsWholeGroups(q: Request, a: Row, b: Row)
    requires q.op == ProgressOp && q.Params().groupby != [] && NativeHasFilters(q)
    requires SameGroup(a, b, q.Params().groupby)
    ensures Entitled(a, q.caller.filters, q.caller.role) <==> Entitled(b, q.caller.filters, q.caller.role)
    ensures AskedFor(a, q.op, q.caller.filters, q.Params().groupby) <==>
            AskedFor(b, q.op, q.caller.filters, q.Params().groupby)
  {
  }

  /** The cell is there and not blank. */
  predicate Filled(row: Row, column: string) { column in row && (row[column].Text? ==> row[column].s != "") }

  /** It is not used if a row grouped by sheet has no date, or lacks the bed column a filter asks for. */
  lemma NativeColumns(rows: seq<Row>, q: Request)
    ensures LosesColumns(rows, q) <==>
            || ("dh" in q.Params().groupby && exists row :: row in rows && !Filled(row, "rq"))
            || (q.caller.filters.bedCodes.Some? && exists row :: row in rows && "chuanghao" !in row)
  {
    forall i | 0 <= i < |rows|
      ensures rows[i] in rows && (IsBlank(Get(rows[i], DateColumn)) <==> !Filled(rows[i], "rq"))
    {
    }
    if row :| row in rows && !Filled(row, "rq") {
      var i :| 0 <= i < |rows| && rows[i] == row;
    }
    if row :| row in rows && "chuanghao" !in row {
      var i :| 0 <= i < |rows| && rows[i] == row;
    }
  }

  /** Writing back needs an owner's complete, ungrouped reply to a question that narrows nothing. */
  lemma WriteBackExactly(q: Request, complete: bool, mode: Mode)
    requires !Forbidden(q.Params())
    ensures MayWriteBack(q, complete, mode) <==>
            && (mode == ReadWrite || mode == Shadow) && complete && q.caller.role == Owner && q.Params().groupby == []
            && q.caller.filters ==
               Filters(None, q.caller.filters.deptIds, None, None, None, None, None, None)
  {
    if "uid" in q.Params().other || "Uid" in q.Params().other {
      NoEmployeeNamed(q.Params());
    }
  }

  /** A parameter that names an employee is refused before. */
  lemma NoEmployeeNamed(params: Params)
    requires "uid" in params.other || "Uid" in params.other
    ensures Forbidden(params)
  {
    SpellsLower("uid", "uid");
    SpellsLower("Uid", "uid");
    assert Spells("Uid", "uid") && Spells("uid", "uid");
  }
}
