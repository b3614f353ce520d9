/**
  Cells, rows and sums over rows. A `Text` is what the customer system returned, together with what
  the program's readings make of it: the finite decimal it denotes, the business date of the whole
  text, and the calendar day of its first ten characters. `Amount` is a text the program prints
  itself, kept as the value printed. A `Day` is an ISO date of exactly ten characters in a date
  column, whether the program printed it or the customer system returned it; every other customer
  value is a `Text`.
*/
module Table {
  import opened Wrappers
  import opened Sorting

  datatype Cell =
    | Text(s: string, number: Option<real>, stamp: Option<int>, prefix: Option<int>)
    | Amount(v: real)
    | Day(d: int)

  type Row = map<string, Cell>

  const Blank: Cell := Text("", None, None, None)

  predicate IsBlank(c: Cell) { c.Text? && c.s == "" }

  /** `row.get(column) or ""` */
  function Get(row: Row, column: string): Cell { if column in row then row[column] else Blank }

  /** The columns that occur in the rows. */
  function ColumnsOf(rows: seq<Row>): set<string> { set i, c | 0 <= i < |rows| && c in rows[i] :: c }

  function TextOf(c: Cell): string { if c.Text? then c.s else "" }

  function NumberOf(c: Cell): Option<real> {
    match c
    case Text(_, number, _, _) => number
    case Amount(v) => Some(v)
    case Day(_) => None
  }

  /** The day of a business date: a date, or a date and a time of day. */
  function BusinessDay(c: Cell): Option<int> {
    match c
    case Text(_, _, stamp, _) => stamp
    case Amount(_) => None
    case Day(d) => Some(d)
  }

  /** The day in the first ten characters, as the time slice reads it. */
  function AnchorDay(c: Cell): Option<int> {
    match c
    case Text(_, _, _, prefix) => prefix
    case Amount(_) => None
    case Day(d) => Some(d)
  }

  /** One text has one reading in each column. */
  ghost predicate ReadAlike(a: Row, b: Row) {
    forall c :: c in a && c in b && a[c].Text? && b[c].Text? && a[c].s == b[c].s ==> a[c] == b[c]
  }

  ghost predicate Legible(rows: seq<Row>) {
    forall i, j :: 0 <= i < |rows| && 0 <= j < |rows| ==> ReadAlike(rows[i], rows[j])
  }

  // ---------------------------------------------------------------- sums over rows

  function Sum(rows: seq<Row>, weigh: Row -> real): real {
    if rows == [] then 0.0 else weigh(rows[0]) + Sum(rows[1..], weigh)
  }

  lemma {:induction false} SumConcat(xs: seq<Row>, ys: seq<Row>, weigh: Row -> real)
    ensures Sum(xs + ys, weigh) == Sum(xs, weigh) + Sum(ys, weigh)
  {
    if xs == [] {
      assert xs + ys == ys;
    } else {
      assert (xs + ys)[1..] == xs[1..] + ys;
      SumConcat(xs[1..], ys, weigh);
    }
  }

  /** A sum does not depend on the order of the rows. */
  lemma {:induction false} SumPermutes(xs: seq<Row>, ys: seq<Row>, weigh: Row -> real)
    requires multiset(xs) == multiset(ys)
    ensures Sum(xs, weigh) == Sum(ys, weigh)
  {
    if xs == [] {
      assert |multiset(ys)| == |ys| == 0;
    } else {
      var j := FindHead(xs, ys);
      var before, after := ys[..j], ys[j + 1..];
      assert ys == before + ([ys[j]] + after);
      SumPermutes(xs[1..], before + after, weigh);
      SumConcat(before, after, weigh);
      SumConcat(before, [ys[j]] + after, weigh);
      assert ([ys[j]] + after)[1..] == after;
    }
  }

  lemma {:induction false} SumAgrees(rows: seq<Row>, f: Row -> real, g: Row -> real)
    requires forall r :: r in rows ==> f(r) == g(r)
    ensures Sum(rows, f) == Sum(rows, g)
  {
    if rows != [] {
      SumAgrees(rows[1..], f, g);
    }
  }

  ghost predicate Linear(scale: real -> real) {
    scale(0.0) == 0.0 && forall x, y, z :: z == x + y ==> scale(z) == scale(x) + scale(y)
  }

  /** If each row's received is within two multiples of its issued, so are the sums. */
  lemma {:induction false} SumsWithin(rows: seq<Row>, f: Row -> real, s: Row -> real, lo: real -> real,
                                      hi: real -> real)
    requires Linear(lo) && Linear(hi)
    requires forall i :: 0 <= i < |rows| ==> lo(f(rows[i])) <= s(rows[i]) <= hi(f(rows[i]))
    ensures lo(Sum(rows, f)) <= Sum(rows, s) <= hi(Sum(rows, f))
  {
    if rows != [] {
      SumsWithin(rows[1..], f, s, lo, hi);
    }
  }

  function Times(a: real): real -> real { (x: real) => a * x }

  lemma Distribute(a: real, x: real, y: real)
    ensures a * (x + y) == a * x + a * y
  {
  }

  lemma TimesSum(a: real, x: real, y: real)
    ensures Times(a)(x + y) == Times(a)(x) + Times(a)(y)
  {
    Distribute(a, x, y);
  }

  lemma ScalingIsLinear(a: real)
    ensures Linear(Times(a))
  {
    var scale := Times(a);
    assert scale(0.0) == 0.0;
    forall x: real, y: real, z: real | z == x + y
      ensures scale(z) == scale(x) + scale(y)
    {
      TimesSum(a, x, y);
    }
  }

  // ---------------------------------------------------------------- percentages

  /** Nearest hundredth, halves away from zero. */
  function HalfUp(x: real): real {
    if x >= 0.0 then ((x * 100.0 + 0.5).Floor as real) / 100.0 else -(((-x) * 100.0 + 0.5).Floor as real) / 100.0
  }

  /** Received over issued as a percentage; zero when nothing was issued. */
  function Percentage(received: real, issued: real): real {
    if issued == 0.0 then 0.0 else received / issued * 100.0
  }

  /** Rounding to hundredths moves a value by at most half a hundredth, and leaves hundredths alone. */
  lemma HalfUpRounds(x: real)
    ensures -0.005 <= HalfUp(x) - x <= 0.005
    ensures HalfUp(HalfUp(x)) == HalfUp(x)
  {
    var y := if x >= 0.0 then x else -x;
    var n := (y * 100.0 + 0.5).Floor;
    HundredthsStay(n);
    if x < 0.0 && n > 0 {
      assert HalfUp(x) == -((n as real) / 100.0);
    }
  }

  lemma HundredthsStay(n: int)
    requires n >= 0
    ensures HalfUp((n as real) / 100.0) == (n as real) / 100.0
  {
    assert (n as real) / 100.0 * 100.0 + 0.5 == n as real + 0.5;
    assert (n as real + 0.5).Floor == n;
  }
}
