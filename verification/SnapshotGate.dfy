/**
  What may enter the snapshot store and what may leave it, on the names, texts and cells of the
  payloads; and which entries a lookup tries, in which order and for how long.
*/
module SnapshotGate {
  import opened Wrappers
  import opened TextOrder
  import opened Table
  import opened RawRows
  import opened Progress
  import opened ProgressGroups
  import opened Footer
  import opened FooterFigures
  import opened PayrollView
  import opened View
  import opened Transparency
  import opened Visibility
  import opened SnapshotCodec
  import opened ResultCache

  // ---------------------------------------------------------------- forbidden names

  /** The name in lower case is the given one, which is in lower case itself. */
  predicate Spells(key: string, name: string) {
    |key| == |name| && forall i :: 0 <= i < |key| ==> SameLetter(key[i], name[i])
  }

  /** Capitals stand for their small letters, and so does the Kelvin sign. */
  predicate SameLetter(c: char, small: char) {
    if 'A' <= c <= 'Z' then small as int == c as int + 32 else if c == '\U{212A}' then small == 'k' else c == small
  }

  const SecretNames: set<string> := {"app_key", "accesstoken", "sign", "movepassword"}

  /** The name of a credential, by itself or as a footer key. */
  ghost predicate Secret(key: string) {
    exists name :: name in SecretNames && (Spells(key, name) || Spells(key, name + "_total"))
  }

  /** A parameter that would name a scope. */
  predicate Scoping(key: string) {
    || Spells(key, "timestamp") || Spells(key, "uid") || Spells(key, "dept") || Spells(key, "tenant_id")
    || Spells(key, "employee_ids") || Spells(key, "dept_ids")
  }

  lemma SpellsLower(key: string, name: string)
    ensures Spells(key, name) <==> Lower(key) == name
  {
    if Lower(key) == name {
      forall i | 0 <= i < |key|
        ensures SameLetter(key[i], name[i])
      {
        assert Lower(key)[i] == LowerChar(key[i]);
      }
    }
  }

  lemma BareSpells(key: string, name: string)
    requires |name| < 6 || name[|name| - 6..] != "_total"
    ensures Bare(key) == name <==> Lower(key) == name || Lower(key) == name + "_total"
  {
    var low := Lower(key);
    if low == name + "_total" {
      TotalKeyColumn(name);
    }
    if ColumnOfKey(low).Some? {
      assert low == ColumnOfKey(low).value + "_total";
    }
  }

  lemma OneSecret(key: string, name: string)
    requires |name| < 6 || name[|name| - 6..] != "_total"
    ensures Bare(key) == name <==> Spells(key, name) || Spells(key, name + "_total")
  {
    BareSpells(key, name);
    SpellsLower(key, name);
    SpellsLower(key, name + "_total");
  }

  lemma SecretNameEnds(name: string)
    requires name in SecretNames
    ensures |name| < 6 || name[|name| - 6..] != "_total"
  {
    assert |"app_key"| == 7 && "app_key"[1] == 'p' && |"accesstoken"| == 11 && "accesstoken"[5] == 's';
    assert |"sign"| == 4 && |"movepassword"| == 12 && "movepassword"[6] == 's';
    assert "_total"[0] == '_';
  }

  lemma SecretMeans(key: string)
    ensures Credential(key) <==> Secret(key)
  {
    assert CredentialFields == SecretNames;
    forall name | name in SecretNames
      ensures Bare(key) == name <==> Spells(key, name) || Spells(key, name + "_total")
    {
      SecretNameEnds(name);
      OneSecret(key, name);
    }
  }

  lemma ScopingMeans(key: string)
    ensures Lower(key) in ScopeParams <==> Scoping(key)
  {
    SpellsLower(key, "timestamp");
    SpellsLower(key, "uid");
    SpellsLower(key, "dept");
    SpellsLower(key, "tenant_id");
    SpellsLower(key, "employee_ids");
    SpellsLower(key, "dept_ids");
  }

  lemma NoSecrets(keys: set<string>)
    ensures NoCredentials(keys) <==> forall key :: key in keys ==> !Secret(key)
  {
    forall key
      ensures Credential(key) <==> Secret(key)
    {
      SecretMeans(key);
    }
  }

  // ---------------------------------------------------------------- writing

  /** No parameter names a credential or a scope, and no grouping is asked for. */
  ghost predicate Harmless(params: Params) {
    params.groupby == [] && forall key :: key in params.other ==> !Secret(key) && !Scoping(key)
  }

  lemma CleanMeans(params: Params)
    ensures CleanRequest(params) <==> Harmless(params)
  {
    NoSecrets(params.other.Keys);
    forall key
      ensures Lower(key) in ScopeParams <==> Scoping(key)
    {
      ScopingMeans(key);
    }
  }

  ghost predicate RowsHarmless(rows: seq<Row>) { forall row, c :: row in rows && c in row ==> !Secret(c) }

  lemma RowsHarmlessMeans(rows: seq<Row>)
    ensures NoCredentials(ColumnsOf(rows)) <==> RowsHarmless(rows)
  {
    NoSecrets(ColumnsOf(rows));
    if NoCredentials(ColumnsOf(rows)) {
      forall row, c | row in rows && c in row
        ensures !Secret(c)
      {
        var i :| 0 <= i < |rows| && rows[i] == row;
        assert c in ColumnsOf(rows);
      }
    }
    if RowsHarmless(rows) {
      forall c | c in ColumnsOf(rows)
        ensures !Secret(c)
      {
        var i :| 0 <= i < |rows| && c in rows[i];
        assert rows[i] in rows;
      }
    }
  }

  ghost predicate Timed(rows: seq<Row>, op: Operation, params: Params) {
    && Detail(rows, op).Some?
    && forall row :: row in Detail(rows, op).value ==> DayIn(row, DateColumnOf(op, params)).Some?
  }

  /**
    What is written: ungrouped, free of credentials and scopes in parameters, rows and footer, with
    a footer that holds, a date on every progress row and a day in every row's date column.
  */
  lemma GateExactly(op: Operation, rows: seq<Row>, footer: FooterMap, params: Params, tolerance: real)
    ensures Gate(op, rows, footer, params, tolerance) <==>
            && Harmless(params) && RowsHarmless(rows) && (forall key :: key in footer ==> !Secret(key))
            && Reconciles(rows, footer, tolerance) && Timed(rows, op, params)
  {
    CleanMeans(params);
    RowsHarmlessMeans(rows);
    NoSecrets(footer.Keys);
    if Detail(rows, op).Some? {
      AnchoredMeant(Detail(rows, op).value, op, params);
    }
  }

  // ---------------------------------------------------------------- reading

  predicate Once(columns: seq<string>) { forall i, j :: 0 <= i < j < |columns| ==> columns[i] != columns[j] }

  /** A payload with rows of its columns' width and without credentials. */
  ghost predicate Sound(p: Payload) {
    && p.version == 4 && Once(p.columns)
    && (forall i :: 0 <= i < |p.rows| ==> |p.rows[i]| == |p.columns|)
    && (forall i :: 0 <= i < |p.columns| ==> !Secret(p.columns[i])) && (forall key :: key in p.footer ==> !Secret(key))
  }

  /** The row has a calendar day in its date column. */
  predicate DayCell(p: Payload, i: nat)
    requires i < |p.rows| && |p.rows[i]| == |p.columns|
  {
    exists k :: 0 <= k < |p.columns| && p.columns[k] == "rq" && p.rows[i][k].Day?
  }

  lemma {:induction false} ZipAt(columns: seq<string>, cells: seq<Cell>, k: nat)
    requires |columns| == |cells| && Once(columns) && k < |columns|
    ensures columns[k] in Zip(columns, cells) && Zip(columns, cells)[columns[k]] == cells[k]
  {
    var n := |columns| - 1;
    if k < n {
      ZipAt(columns[..n], cells[..n], k);
    }
  }

  lemma {:induction false} ZipOnly(columns: seq<string>, cells: seq<Cell>, c: string)
    requires |columns| == |cells|
    ensures c in Zip(columns, cells) <==> c in columns
  {
    if columns != [] {
      var n := |columns| - 1;
      ZipOnly(columns[..n], cells[..n], c);
      assert columns == columns[..n] + [columns[n]];
    }
  }

  /** Decoding puts each cell under its column. */
  lemma DecodeExactly(p: Payload)
    ensures Decode(p).Some? <==> Sound(p)
    ensures Decode(p).Some? ==>
              && |Decode(p).value| == |p.rows|
              && forall i, k :: 0 <= i < |p.rows| && 0 <= k < |p.columns| ==>
                p.columns[k] in Decode(p).value[i] && Decode(p).value[i][p.columns[k]] == p.rows[i][k]
    ensures Decode(p).Some? ==> forall i, c :: 0 <= i < |p.rows| ==> (c in Decode(p).value[i] <==> c in p.columns)
  {
    NoSecrets(set c | c in p.columns);
    NoSecrets(p.footer.Keys);
    assert forall i :: 0 <= i < |p.columns| ==> p.columns[i] in p.columns;
    if Sound(p) {
      forall c | c in p.columns
        ensures !Secret(c)
      {
        var i :| 0 <= i < |p.columns| && p.columns[i] == c;
      }
      forall i, k | 0 <= i < |p.rows| && 0 <= k < |p.columns|
        ensures p.columns[k] in Zip(p.columns, p.rows[i]) && Zip(p.columns, p.rows[i])[p.columns[k]] == p.rows[i][k]
      {
        ZipAt(p.columns, p.rows[i], k);
      }
      forall i, c | 0 <= i < |p.rows|
        ensures c in Zip(p.columns, p.rows[i]) <==> c in p.columns
      {
        ZipOnly(p.columns, p.rows[i], c);
      }
    }
  }

  /** A snapshot is used exactly if it is sound, of the very question and ungrouped, and its progress rows are dated. */
  lemma AcceptsExactly(p: Payload, op: Operation, params: map<string, string>, window: Window)
    ensures Accepts(p, op, params, window) <==>
            && Sound(p) && p.op == op && p.params == params && !p.grouped && p.window == window
            && (op == ProgressOp ==> forall i :: 0 <= i < |p.rows| ==> DayCell(p, i))
  {
    DecodeExactly(p);
    if Decode(p).Some? {
      forall i | 0 <= i < |p.rows|
        ensures Get(Decode(p).value[i], DateColumn).Day? <==> DayCell(p, i)
      {
        if DateColumn in Decode(p).value[i] {
          assert DateColumn in p.columns;
          var k :| 0 <= k < |p.columns| && p.columns[k] == DateColumn;
          assert Decode(p).value[i][p.columns[k]] == p.rows[i][k];
        }
      }
    }
  }

  // ---------------------------------------------------------------- looking up

  /** Every day of the inner window is a day of the outer one. */
  ghost predicate Spans(outer: Window, inner: Window) { forall day :: Holds(inner, day) ==> Holds(outer, day) }

  predicate Holds(window: Window, day: int) { window.from <= day <= window.to }

  /**
    The windows tried, in order: the prefetch of today, up to yesterday, and that of yesterday, both
    only if they hold the question; then the question's own. None is tried twice.
  */
  lemma TriedInOrder(today: int, policy: Policy, question: Window)
    requires question.from <= question.to
    ensures var n, tried := policy.backtrackDays, Candidates(today, policy, question);
            var current, previous := Window(today - n, today - 1), Window(today - 1 - n, today - 2);
            && (Spans(current, question) ==> tried[0] == current)
            && (Spans(current, question) && Spans(previous, question) ==> |tried| >= 2 && tried[1] == previous)
            && (previous in tried ==> previous == question || (Spans(current, question) && Spans(previous, question)))
            && (current in tried ==> current == question || Spans(current, question))
            && (forall w :: w in tried ==> w in {current, previous, question})
            && question in tried
  {
    var n := policy.backtrackDays;
    SpansCovers(Window(today - n, today - 1), question);
    SpansCovers(Window(today - 1 - n, today - 2), question);
  }

  lemma SpansCovers(outer: Window, inner: Window)
    requires inner.from <= inner.to
    ensures Spans(outer, inner) <==> Covers(outer, inner)
  {
    if Spans(outer, inner) {
      assert Holds(inner, inner.from) && Holds(inner, inner.to);
    }
  }

  /** A lookup answers from the first usable entry among the windows tried. */
  lemma {:induction false} LookupIsFirst(store: map<ResultCache.Key, Slot>, tenant: string, op: Operation,
                                         params: Params, windows: seq<Window>, now: int)
    ensures var hit := Lookup(store, tenant, op, params, windows, now);
            hit.Some? ==> exists i :: 0 <= i < |windows| && FirstUsable(store, tenant, op, params, windows, now, i) &&
                                      hit.value == HitOf(store, KeyFor(tenant, op, params, windows[i]), now)
  {
    if windows != [] && !Usable(store, KeyFor(tenant, op, params, windows[0]), now) {
      LookupIsFirst(store, tenant, op, params, windows[1..], now);
      var hit := Lookup(store, tenant, op, params, windows, now);
      if hit.Some? {
        var i :| 0 <= i < |windows[1..]| && FirstUsable(store, tenant, op, params, windows[1..], now, i) &&
          hit.value == HitOf(store, KeyFor(tenant, op, params, windows[1..][i]), now);
        assert forall j :: 0 < j < |windows| ==> windows[j] == windows[1..][j - 1];
        assert FirstUsable(store, tenant, op, params, windows, now, i + 1);
      }
    } else if windows != [] {
      assert FirstUsable(store, tenant, op, params, windows, now, 0);
    }
  }

  ghost predicate FirstUsable(store: map<ResultCache.Key, Slot>, tenant: string, op: Operation, params: Params,
                              windows: seq<Window>, now: int, i: nat)
    requires i < |windows|
  {
    && Usable(store, KeyFor(tenant, op, params, windows[i]), now)
    && forall j :: 0 <= j < i ==> !Usable(store, KeyFor(tenant, op, params, windows[j]), now)
  }

  /** What passed the gate can be read back until it expires, and only under parameters that name no grouping. */
  lemma UsableUntilExpiry(store: map<ResultCache.Key, Slot>, key: ResultCache.Key, rows: seq<Row>, footer: FooterMap,
                          params: Params, tolerance: real, expires: int, now: int)
    requires Gate(key.op, rows, footer, params, tolerance)
    requires key in store &&
             store[key] == Slot(Encode(key.op, Detail(rows, key.op).value, footer, key.window, key.params), expires)
    ensures Usable(store, key, now) <==>
            now < expires && !("groupby" in key.params && key.params["groupby"] != "")
  {
    WrittenReadsBack(key.op, rows, footer, params, key.window, tolerance, key.params);
  }
}
