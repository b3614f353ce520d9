/** Python's order on strings and on tuples of strings, and its white space. */
module TextOrder {

  predicate TextLe(a: string, b: string) {
    a == [] || (b != [] && (a[0] < b[0] || (a[0] == b[0] && TextLe(a[1..], b[1..]))))
  }

  lemma {:induction false} TextTotal(a: string, b: string)
    ensures TextLe(a, b) || TextLe(b, a)
  {
    if a != [] && b != [] {
      TextTotal(a[1..], b[1..]);
    }
  }

  lemma {:induction false} TextAntisymmetric(a: string, b: string)
    requires TextLe(a, b) && TextLe(b, a)
    ensures a == b
  {
    if a != [] && b != [] {
      TextAntisymmetric(a[1..], b[1..]);
      assert a == [a[0]] + a[1..] && b == [b[0]] + b[1..];
    }
  }

  lemma {:induction false} TextTransitive(a: string, b: string, c: string)
    requires TextLe(a, b) && TextLe(b, c)
    ensures TextLe(a, c)
  {
    if a != [] && b != [] && c != [] && a[0] == b[0] == c[0] {
      TextTransitive(a[1..], b[1..], c[1..]);
    }
  }

  /** At the first place where they differ, the one text has ended or has the smaller character. */
  ghost predicate Before(a: string, b: string) {
    exists n :: 0 <= n <= |a| && n < |b| && Departs(a, b, n)
  }

  predicate Departs(a: string, b: string, n: nat)
    requires n <= |a| && n < |b|
  {
    a[..n] == b[..n] && (n == |a| || a[n] < b[n])
  }

  lemma NotBeforeItself(a: string)
    ensures !Before(a, a)
  {
  }

  lemma BeforeStep(a: string, b: string)
    requires a != [] && b != [] && a[0] == b[0]
    ensures Before(a, b) <==> Before(a[1..], b[1..])
  {
    if n :| 0 <= n <= |a| && n < |b| && Departs(a, b, n) {
      assert n > 0 && a[1..][..n - 1] == a[..n][1..] && b[1..][..n - 1] == b[..n][1..];
      assert Departs(a[1..], b[1..], n - 1);
    }
    if n :| 0 <= n <= |a[1..]| && n < |b[1..]| && Departs(a[1..], b[1..], n) {
      assert a[..n + 1] == [a[0]] + a[1..][..n] && b[..n + 1] == [b[0]] + b[1..][..n];
      assert Departs(a, b, n + 1);
    }
  }

  /** The order of texts is that of the first difference. */
  lemma {:induction false} TextLeMeans(a: string, b: string)
    ensures TextLe(a, b) <==> a == b || Before(a, b)
  {
    if a != [] && b != [] && a[0] == b[0] {
      TextLeMeans(a[1..], b[1..]);
      BeforeStep(a, b);
      assert a == [a[0]] + a[1..] && b == [b[0]] + b[1..];
    } else if b != [] {
      assert (a == [] || a[0] < b[0]) ==> Departs(a, b, 0);
    }
  }

  /** Tuples of one length compare by their first differing component. */
  predicate TupleLe(a: seq<string>, b: seq<string>) {
    a == [] || (b != [] && (if a[0] == b[0] then TupleLe(a[1..], b[1..]) else TextLe(a[0], b[0])))
  }

  /** The components before the given one agree, and that one is before its counterpart. */
  ghost predicate TupleDeparts(a: seq<string>, b: seq<string>, n: nat)
    requires n < |a| == |b|
  {
    a[..n] == b[..n] && Before(a[n], b[n])
  }

  /** The order of tuples of one length is that of the first component in which they differ. */
  lemma {:induction false} TupleLeMeans(a: seq<string>, b: seq<string>)
    requires |a| == |b|
    ensures TupleLe(a, b) <==> a == b || exists n :: 0 <= n < |a| && TupleDeparts(a, b, n)
  {
    if a != [] {
      TextLeMeans(a[0], b[0]);
      NotBeforeItself(a[0]);
      if a[0] == b[0] {
        TupleLeMeans(a[1..], b[1..]);
        assert a == [a[0]] + a[1..] && b == [b[0]] + b[1..];
        if n :| 0 <= n < |a[1..]| && TupleDeparts(a[1..], b[1..], n) {
          assert a[..n + 1] == [a[0]] + a[1..][..n] && b[..n + 1] == [b[0]] + b[1..][..n];
          assert TupleDeparts(a, b, n + 1);
        }
        if n :| 0 <= n < |a| && TupleDeparts(a, b, n) {
          assert n > 0 && a[1..][..n - 1] == a[..n][1..] && b[1..][..n - 1] == b[..n][1..];
          assert TupleDeparts(a[1..], b[1..], n - 1);
        }
      } else {
        if Before(a[0], b[0]) {
          assert TupleDeparts(a, b, 0);
        }
        if n :| 0 <= n < |a| && TupleDeparts(a, b, n) {
          assert n > 0 ==> a[..n][0] == b[..n][0];
        }
      }
    }
  }

  lemma {:induction false} TupleTotal(a: seq<string>, b: seq<string>)
    ensures TupleLe(a, b) || TupleLe(b, a)
  {
    if a != [] && b != [] {
      TextTotal(a[0], b[0]);
      TupleTotal(a[1..], b[1..]);
    }
  }

  lemma {:induction false} TupleAntisymmetric(a: seq<string>, b: seq<string>)
    requires TupleLe(a, b) && TupleLe(b, a)
    ensures a == b
  {
    if a != [] && b != [] {
      if a[0] == b[0] {
        TupleAntisymmetric(a[1..], b[1..]);
        assert a == [a[0]] + a[1..] && b == [b[0]] + b[1..];
      } else {
        TextAntisymmetric(a[0], b[0]);
      }
    }
  }

  lemma {:induction false} TupleTransitive(a: seq<string>, b: seq<string>, c: seq<string>)
    requires TupleLe(a, b) && TupleLe(b, c)
    ensures TupleLe(a, c)
  {
    if a != [] && b != [] && c != [] {
      if a[0] == b[0] == c[0] {
        TupleTransitive(a[1..], b[1..], c[1..]);
      } else if a[0] != b[0] && b[0] != c[0] {
        TextTransitive(a[0], b[0], c[0]);
        if a[0] == c[0] {
          TextAntisymmetric(a[0], b[0]);
        }
      }
    }
  }

  // ---------------------------------------------------------------- white space

  /** The characters that `str.strip` removes. */
  predicate Space(c: char) {
    || c == ' ' || '\t' <= c <= '\r' || '\U{1C}' <= c <= '\U{1F}' || c == '\U{85}' || c == '\U{A0}' || c == '\U{1680}'
    || '\U{2000}' <= c <= '\U{200A}' || c == '\U{2028}' || c == '\U{2029}' || c == '\U{202F}' || c == '\U{205F}'
    || c == '\U{3000}'
  }

  const SpacePoints: set<int> := {
    9, 10, 11, 12, 13, 28, 29, 30, 31, 32, 133, 160, 5760, 8192, 8193, 8194, 8195, 8196, 8197, 8198, 8199, 8200, 8201,
    8202, 8232, 8233, 8239, 8287, 12288
  }

  /** Python counts these code points as white space. */
  lemma SpacesListed(c: char)
    ensures Space(c) <==> c as int in SpacePoints
  {
  }

  function Strip(s: string): string {
    if s != "" && Space(s[0]) then Strip(s[1..])
    else if s != "" && Space(s[|s| - 1]) then Strip(s[..|s| - 1])
    else s
  }
}
