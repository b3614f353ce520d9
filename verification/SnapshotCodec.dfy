/**
  The stored form of a snapshot: a columnar payload, the gate it must pass to be written, and the
  checks it must pass to be read.
*/
module SnapshotCodec {
  import opened Wrappers
  import opened Sorting
  import opened TextOrder
  import opened Table
  import opened Progress
  import opened Footer
  import opened PayrollView
  import opened View
  import opened Transparency

  const PayloadVersion := 4

  datatype Payload = Payload(
    version: nat, op: Operation, params: map<string, string>, grouped: bool, window: Window,
    columns: seq<string>, rows: seq<seq<Cell>>, footer: FooterMap)

  // ---------------------------------------------------------------- forbidden names

  const CredentialFields: set<string> := {"app_key", "accesstoken", "sign", "movepassword"}

  const ScopeParams: set<string> := {"timestamp", "uid", "dept", "tenant_id", "employee_ids", "dept_ids"}

  /** ASCII capitals, and the one other character whose small letter is an ASCII one. */
  function LowerChar(c: char): char {
    if 'A' <= c <= 'Z' then (c as int + 32) as char else if c == '\U{212A}' then 'k' else c
  }

  function Lower(s: string): string { seq(|s|, i requires 0 <= i < |s| => LowerChar(s[i])) }

  function Bare(key: string): string {
    match ColumnOfKey(Lower(key))
    case None => Lower(key)
    case Some(column) => column
  }

  predicate Credential(key: string) { Bare(key) in CredentialFields }

  predicate NoCredentials(keys: set<string>) { forall key :: key in keys ==> !Credential(key) }

  // ---------------------------------------------------------------- columns

  ghost function Enumerate(s: set<string>): seq<string> {
    if s == {} then [] else var x :| x in s; [x] + Enumerate(s - {x})
  }

  lemma {:induction false} EnumerateMembers(s: set<string>)
    ensures forall x :: x in Enumerate(s) <==> x in s
    ensures Distinct(Enumerate(s))
    decreases s
  {
    if s != {} {
      var x :| x in s && Enumerate(s) == [x] + Enumerate(s - {x});
      EnumerateMembers(s - {x});
    }
  }

  /** The union of the rows' columns, sorted. */
  ghost function SortedColumns(rows: seq<Row>): seq<string> { Sort(Enumerate(ColumnsOf(rows)), TextLe) }

  lemma SortedColumnsMembers(rows: seq<Row>)
    ensures forall c :: c in SortedColumns(rows) <==> c in ColumnsOf(rows)
    ensures Distinct(SortedColumns(rows))
  {
    var plain := Enumerate(ColumnsOf(rows));
    EnumerateMembers(ColumnsOf(rows));
    SortKeeps(plain, TextLe);
    forall c
      ensures c in SortedColumns(rows) <==> c in plain
    {
      assert c in SortedColumns(rows) <==> c in multiset(plain);
    }
    PermutedDistinct(plain, SortedColumns(rows));
  }

  lemma {:induction false} CountDistinct(xs: seq<string>, x: string)
    requires Distinct(xs)
    ensures multiset(xs)[x] <= 1
  {
    if xs != [] {
      CountDistinct(xs[1..], x);
      assert xs == [xs[0]] + xs[1..];
      assert xs[0] !in xs[1..];
    }
  }

  lemma PermutedDistinct(xs: seq<string>, ys: seq<string>)
    requires Distinct(xs) && multiset(xs) == multiset(ys)
    ensures Distinct(ys)
  {
    forall i, j | 0 <= i < j < |ys|
      ensures ys[i] != ys[j]
    {
      CountDistinct(xs, ys[i]);
      assert ys == ys[..i] + [ys[i]] + ys[i + 1..];
      assert ys[i + 1..][j - i - 1] == ys[j];
      assert multiset(ys)[ys[i]] <= 1;
    }
  }

  // ---------------------------------------------------------------- encoding and decoding

  function EncodeRow(row: Row, columns: seq<string>): seq<Cell> {
    seq(|columns|, i requires 0 <= i < |columns| => Get(row, columns[i]))
  }

  function EncodeRows(rows: seq<Row>, columns: seq<string>): seq<seq<Cell>> {
    seq(|rows|, i requires 0 <= i < |rows| => EncodeRow(rows[i], columns))
  }

  predicate NamesGrouping(params: map<string, string>) { "groupby" in params && params["groupby"] != "" }

  ghost function Encode(op: Operation, rows: seq<Row>, footer: FooterMap, window: Window,
                        params: map<string, string>): Payload {
    var columns := SortedColumns(rows);
    Payload(PayloadVersion, op, params, NamesGrouping(params), window, columns, EncodeRows(rows, columns), footer)
  }

  lemma TextIsOrdered()
    ensures TotalPreorder(TextLe) && Antisymmetric(TextLe)
  {
    forall a: string, b: string
      ensures TextLe(a, b) || TextLe(b, a)
    {
      TextTotal(a, b);
    }
    forall a: string, b: string, c: string | TextLe(a, b) && TextLe(b, c)
      ensures TextLe(a, c)
    {
      TextTransitive(a, b, c);
    }
    forall a: string, b: string | TextLe(a, b) && TextLe(b, a)
      ensures a == b
    {
      TextAntisymmetric(a, b);
    }
  }

  lemma {:induction false} SameMembers(xs: seq<string>, ys: seq<string>)
    requires Distinct(xs) && Distinct(ys) && forall x :: x in xs <==> x in ys
    ensures multiset(xs) == multiset(ys)
  {
    forall x
      ensures multiset(xs)[x] == multiset(ys)[x]
    {
      CountDistinct(xs, x);
      CountDistinct(ys, x);
      assert multiset(xs)[x] > 0 <==> x in xs;
      assert multiset(ys)[x] > 0 <==> x in ys;
    }
  }

  /** However the columns are listed, sorting them gives the same header. */
  lemma HeaderIsUnique(names: seq<string>, rows: seq<Row>)
    requires Distinct(names) && forall c :: c in names <==> c in ColumnsOf(rows)
    ensures Sort(names, TextLe) == SortedColumns(rows)
  {
    var plain := Enumerate(ColumnsOf(rows));
    EnumerateMembers(ColumnsOf(rows));
    SameMembers(names, plain);
    SortKeeps(names, TextLe);
    SortKeeps(plain, TextLe);
    TextIsOrdered();
    SortSorts(names, TextLe);
    SortSorts(plain, TextLe);
    SortedIsUnique(Sort(names, TextLe), Sort(plain, TextLe), TextLe);
  }

  method EncodePayload(op: Operation, rows: seq<Row>, footer: FooterMap, window: Window, params: map<string, string>)
    returns (p: Payload)
    ensures p == Encode(op, rows, footer, window, params)
  {
    var names: seq<string> := [];
    var todo := ColumnsOf(rows);
    while todo != {}
      invariant Distinct(names) && todo <= ColumnsOf(rows)
      invariant forall c :: c in names <==> c in ColumnsOf(rows) && c !in todo
      decreases |todo|
    {
      var c :| c in todo;
      names, todo := names + [c], todo - {c};
    }
    HeaderIsUnique(names, rows);
    var columns := Sort(names, TextLe);
    p := Payload(PayloadVersion, op, params, NamesGrouping(params), window, columns, EncodeRows(rows, columns), footer);
  }

  function Zip(columns: seq<string>, cells: seq<Cell>): Row
    requires |columns| == |cells|
  {
    if columns == [] then map[]
    else
      var n := |columns| - 1;
      Zip(columns[..n], cells[..n])[columns[n] := cells[n]]
  }

  predicate WellShaped(p: Payload) {
    && p.version == PayloadVersion
    && Distinct(p.columns)
    && NoCredentials(set c | c in p.columns) && NoCredentials(p.footer.Keys)
    && forall i :: 0 <= i < |p.rows| ==> |p.rows[i]| == |p.columns|
  }

  function Decode(p: Payload): Option<seq<Row>> {
    if WellShaped(p) then Some(seq(|p.rows|, i requires 0 <= i < |p.rows| => Zip(p.columns, p.rows[i]))) else None
  }

  lemma {:induction false} ZipEncoded(row: Row, columns: seq<string>)
    ensures Zip(columns, EncodeRow(row, columns)) == PadRow(row, set c | c in columns)
  {
    if columns != [] {
      var n := |columns| - 1;
      ZipEncoded(row, columns[..n]);
      assert EncodeRow(row, columns)[..n] == EncodeRow(row, columns[..n]);
      assert columns == columns[..n] + [columns[n]];
    }
  }

  /** Decoding an encoding restores the rows, padded with blanks to the union of their columns. */
  lemma CodecRoundTrip(op: Operation, rows: seq<Row>, footer: FooterMap, window: Window, params: map<string, string>)
    requires NoCredentials(ColumnsOf(rows)) && NoCredentials(footer.Keys)
    ensures Decode(Encode(op, rows, footer, window, params)) == Some(Pad(rows, ColumnsOf(rows)))
  {
    var p := Encode(op, rows, footer, window, params);
    SortedColumnsMembers(rows);
    var columns := set c | c in p.columns;
    assert columns == ColumnsOf(rows);
    forall i | 0 <= i < |rows|
      ensures Zip(p.columns, p.rows[i]) == PadRow(rows[i], ColumnsOf(rows))
    {
      ZipEncoded(rows[i], p.columns);
    }
    assert Decode(p).value == Pad(rows, ColumnsOf(rows));
  }

  // ---------------------------------------------------------------- the write gate

  /** No grouping, and no credential or scope parameter anywhere. */
  predicate CleanRequest(params: Params) {
    && params.groupby == []
    && NoCredentials(params.other.Keys)
    && forall key :: key in params.other ==> Lower(key) !in ScopeParams
  }

  predicate Gate(op: Operation, rows: seq<Row>, footer: FooterMap, params: Params, tolerance: real) {
    && CleanRequest(params)
    && NoCredentials(ColumnsOf(rows)) && NoCredentials(footer.Keys)
    && Reconciles(rows, footer, tolerance)
    && Detail(rows, op).Some? && Anchored(Detail(rows, op).value, op, params)
  }

  /** The checks a candidate must pass before its rows are used. */
  predicate Accepts(p: Payload, op: Operation, params: map<string, string>, window: Window) {
    && Decode(p).Some?
    && p.op == op && p.params == params && !p.grouped && p.window == window
    && (op.ProgressOp? ==> NormalDates(Decode(p).value))
  }

  predicate NormalDates(rows: seq<Row>) { forall i :: 0 <= i < |rows| ==> Get(rows[i], DateColumn).Day? }

  lemma DeriveColumns(rows: seq<Row>, op: Operation)
    requires Detail(rows, op).Some? && NoCredentials(ColumnsOf(rows))
    ensures NoCredentials(ColumnsOf(Detail(rows, op).value))
  {
    if op.ProgressOp? {
      var detail := Derive(rows).value;
      DeriveRowwise(rows);
      forall c | c in ColumnsOf(detail)
        ensures !Credential(c)
      {
        var i :| 0 <= i < |detail| && c in detail[i];
        assert DeriveRow(rows[i]) == Some(detail[i]);
        if c == DateColumn {
          DateIsNoCredential();
        } else {
          assert c in rows[i] && c in ColumnsOf(rows);
        }
      }
    }
  }

  lemma DateIsNoCredential()
    ensures !Credential(DateColumn)
  {
    assert |Lower(DateColumn)| == 2;
    assert Bare(DateColumn) == Lower(DateColumn);
  }

  lemma PaddedDates(rows: seq<Row>)
    requires NormalRows(rows)
    ensures NormalDates(Pad(rows, ColumnsOf(rows)))
  {
    var columns := ColumnsOf(rows);
    forall i | 0 <= i < |rows|
      ensures Get(Pad(rows, columns)[i], DateColumn).Day?
    {
      assert Normal(rows[i]) && DateColumn in columns;
    }
  }

  /** Clean, normalised detail is accepted again, unless its parameters name a grouping. */
  lemma EncodedIsAccepted(op: Operation, detail: seq<Row>, footer: FooterMap, window: Window, key: map<string, string>)
    requires NoCredentials(ColumnsOf(detail)) && NoCredentials(footer.Keys)
    requires op.ProgressOp? ==> NormalRows(detail)
    ensures var p := Encode(op, detail, footer, window, key);
            && Decode(p) == Some(Pad(detail, ColumnsOf(detail)))
            && (Accepts(p, op, key, window) <==> !NamesGrouping(key))
  {
    CodecRoundTrip(op, detail, footer, window, key);
    if op.ProgressOp? {
      PaddedDates(detail);
    }
  }

  /**
    What passes the gate reads back under its own key as its normalised rows padded to their common
    columns, unless the request smuggles in a parameter named `groupby`: then the payload is
    stored, and never accepted.
  */
  lemma WrittenReadsBack(op: Operation, rows: seq<Row>, footer: FooterMap, params: Params, window: Window,
                         tolerance: real, key: map<string, string>)
    requires Gate(op, rows, footer, params, tolerance)
    ensures var detail := Detail(rows, op).value;
            var p := Encode(op, detail, footer, window, key);
            && Decode(p) == Some(Pad(detail, ColumnsOf(detail)))
            && (Accepts(p, op, key, window) <==> !NamesGrouping(key))
  {
    DeriveColumns(rows, op);
    if op.ProgressOp? {
      DeriveNormal(rows);
    }
    EncodedIsAccepted(op, Detail(rows, op).value, footer, window, key);
  }
}
