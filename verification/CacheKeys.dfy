/**
  Which questions share a snapshot: those of one tenant, operation and window whose parameters
  differ in nothing but how the view is asked for and how the enumerated types are listed.
*/
module CacheKeys {
  import opened Wrappers
  import opened Sorting
  import opened TextOrder
  import opened Table
  import opened Progress
  import opened PayrollView
  import opened View
  import opened SnapshotCodec
  import opened ResultCache

  // ---------------------------------------------------------------- the parts of an enumeration

  /** The stretch between two commas, or between a comma and an end. */
  predicate Piece(s: string, i: nat, j: nat)
    requires i <= j <= |s|
  {
    && (i == 0 || s[i - 1] == ',') && (j == |s| || s[j] == ',')
    && forall k :: i <= k < j ==> s[k] != ','
  }

  ghost predicate Lists(s: string, part: string) {
    exists i, j :: 0 <= i <= j <= |s| && Piece(s, i, j) && s[i..j] == part
  }

  /** The same values are enumerated, in whatever order and however often. */
  ghost predicate SameTypes(a: string, b: string) { forall part :: part != "" ==> (Lists(a, part) <==> Lists(b, part)) }

  /** The same rows are asked for. */
  ghost predicate SameAsked(a: map<string, string>, b: map<string, string>) {
    forall key :: key !in {"dates", "datee", "orderbyFields", "orderByType"} ==>
      && (key in a <==> key in b)
      && (key in a ==> if key == "Type" then SameTypes(a[key], b[key]) else a[key] == b[key])
  }

  // ---------------------------------------------------------------- splitting and joining

  predicate Commaless(part: string) { ',' !in part }

  lemma {:induction false} SplitShape(s: string)
    ensures Split(s) != [] && forall k :: 0 <= k < |Split(s)| ==> Commaless(Split(s)[k])
  {
    if s != "" {
      SplitShape(s[1..]);
    }
  }

  /** Stretches that start later are those of the rest. */
  lemma Shift(s: string, i: nat, j: nat)
    requires s != "" && 0 < i <= j <= |s|
    ensures s[i..j] == s[1..][i - 1..j - 1]
    ensures Piece(s, i, j) <==> Piece(s[1..], i - 1, j - 1) && (i == 1 ==> s[0] == ',')
  {
    assert forall k :: 0 < k < |s| ==> s[k] == s[1..][k - 1];
  }

  /** The first stretch of a text that starts with no comma is that of the rest with the character before it. */
  lemma Extend(s: string, j: nat)
    requires s != "" && s[0] != ',' && 0 < j <= |s|
    ensures s[0..j] == [s[0]] + s[1..][0..j - 1]
    ensures Piece(s, 0, j) <==> Piece(s[1..], 0, j - 1)
  {
    assert forall k :: 0 < k < |s| ==> s[k] == s[1..][k - 1];
    if Piece(s, 0, j) {
      forall k | 0 <= k < j - 1
        ensures s[1..][k] != ','
      {
        assert s[k + 1] != ',';
      }
    }
  }

  lemma SplitStep(s: string, k: nat)
    requires s != "" && k < |Split(s)|
    ensures Split(s[1..]) != []
    ensures s[0] == ',' ==> Split(s)[k] == if k == 0 then "" else Split(s[1..])[k - 1]
    ensures s[0] != ',' ==> k < |Split(s[1..])|
    ensures s[0] != ',' ==> Split(s)[k] == if k == 0 then [s[0]] + Split(s[1..])[0] else Split(s[1..])[k]
  {
    SplitShape(s[1..]);
  }

  /** Every part is a piece. */
  lemma {:induction false} PartIsPiece(s: string, k: nat) returns (i: nat, j: nat)
    requires k < |Split(s)|
    ensures i <= j <= |s| && Piece(s, i, j) && s[i..j] == Split(s)[k] && (i == 0 <==> k == 0)
  {
    if s == "" {
      i, j := 0, 0;
    } else {
      SplitStep(s, k);
      if s[0] == ',' && k == 0 {
        i, j := 0, 0;
      } else {
        i, j := PartIsPiece(s[1..], if s[0] == ',' then k - 1 else k);
        if s[0] != ',' && k == 0 {
          j := j + 1;
          Extend(s, j);
        } else {
          i, j := i + 1, j + 1;
          Shift(s, i, j);
        }
      }
    }
  }

  /** Every piece is a part. */
  lemma {:induction false} PieceIsPart(s: string, i: nat, j: nat) returns (k: nat)
    requires i <= j <= |s| && Piece(s, i, j)
    ensures k < |Split(s)| && s[i..j] == Split(s)[k] && (i == 0 <==> k == 0)
  {
    SplitShape(s);
    if s == "" || (s[0] == ',' && i == 0) {
      k := 0;
      if s != "" {
        SplitStep(s, 0);
      }
    } else if i == 0 {
      Extend(s, j);
      k := PieceIsPart(s[1..], 0, j - 1);
      SplitStep(s, k);
    } else {
      Shift(s, i, j);
      k := PieceIsPart(s[1..], i - 1, j - 1);
      SplitShape(s[1..]);
      k := if s[0] == ',' then k + 1 else k;
      SplitStep(s, k);
    }
  }

  lemma SplitLists(s: string, part: string)
    ensures part in Split(s) <==> Lists(s, part)
  {
    if part in Split(s) {
      var k :| 0 <= k < |Split(s)| && Split(s)[k] == part;
      var i, j := PartIsPiece(s, k);
    }
    if i, j :| 0 <= i <= j <= |s| && Piece(s, i, j) && s[i..j] == part {
      var k := PieceIsPart(s, i, j);
    }
  }

  predicate Parts(parts: seq<string>) { forall k :: 0 <= k < |parts| ==> parts[k] != "" && Commaless(parts[k]) }

  lemma {:induction false} SplitAppend(a: string, b: string)
    requires Commaless(a)
    ensures Split(a + "," + b) == [a] + Split(b)
  {
    if a == "" {
      assert (a + "," + b)[1..] == b;
    } else {
      assert (a + "," + b)[1..] == a[1..] + "," + b;
      assert forall c :: c in a[1..] ==> c in a;
      SplitAppend(a[1..], b);
      assert [a[0]] + a[1..] == a;
      assert ([a[1..]] + Split(b))[1..] == Split(b);
    }
  }

  lemma {:induction false} SplitOne(a: string)
    requires Commaless(a)
    ensures Split(a) == [a]
  {
    if a != "" {
      assert forall c :: c in a[1..] ==> c in a;
      SplitOne(a[1..]);
      assert [a[0]] + a[1..] == a;
    }
  }

  /** Splitting what was joined gives the parts back. */
  lemma {:induction false} SplitJoined(parts: seq<string>)
    requires parts != [] && Parts(parts)
    ensures Split(Join(parts)) == parts
  {
    if |parts| == 1 {
      SplitOne(parts[0]);
    } else {
      SplitJoined(parts[1..]);
      SplitAppend(parts[0], Join(parts[1..]));
      assert parts == [parts[0]] + parts[1..];
    }
  }

  lemma {:induction false} WithoutNothing(parts: seq<string>)
    requires Parts(parts)
    ensures Without(parts, {""}) == parts
  {
    if parts != [] {
      WithoutNothing(parts[1..]);
      assert parts == [parts[0]] + parts[1..];
    }
  }

  lemma JoinedParts(parts: seq<string>)
    requires Parts(parts)
    ensures Without(Split(Join(parts)), {""}) == parts
  {
    if parts == [] {
      assert Without([""], {""}) == Without([""][1..], {""});
    } else {
      SplitJoined(parts);
      WithoutNothing(parts);
    }
  }

  // ---------------------------------------------------------------- normalised enumerations

  function Enumerated(s: string): seq<string> { Sort(Dedup(Without(Split(s), {""})), TextLe) }

  lemma {:induction false} DedupKeeps(xs: seq<string>, x: string)
    ensures x in Dedup(xs) <==> x in xs
    ensures Distinct(Dedup(xs))
  {
    if xs != [] {
      var n := |xs| - 1;
      DedupKeeps(xs[..n], x);
      DedupKeeps(xs[..n], xs[n]);
      assert xs == xs[..n] + [xs[n]];
    }
  }

  lemma EnumeratedMembers(s: string, part: string)
    ensures part in Enumerated(s) <==> part != "" && Lists(s, part)
    ensures Distinct(Dedup(Without(Split(s), {""})))
  {
    var plain := Without(Split(s), {""});
    SplitLists(s, part);
    WithoutMembers(Split(s), {""}, part);
    DedupKeeps(plain, part);
    SortKeeps(Dedup(plain), TextLe);
    assert part in Enumerated(s) <==> part in multiset(Dedup(plain));
  }

  lemma EnumeratedParts(s: string)
    ensures Parts(Enumerated(s))
  {
    forall k | 0 <= k < |Enumerated(s)|
      ensures Enumerated(s)[k] != "" && Commaless(Enumerated(s)[k])
    {
      var part := Enumerated(s)[k];
      EnumeratedMembers(s, part);
      SplitLists(s, part);
      SplitShape(s);
      var i :| 0 <= i < |Split(s)| && Split(s)[i] == part;
    }
  }

  /** Normalised enumerations are equal exactly when the same values are enumerated. */
  lemma NormalTypeMeans(a: string, b: string)
    ensures NormalType(a) == NormalType(b) <==> SameTypes(a, b)
  {
    EnumeratedParts(a);
    EnumeratedParts(b);
    JoinedParts(Enumerated(a));
    JoinedParts(Enumerated(b));
    if NormalType(a) == NormalType(b) {
      forall part | part != ""
        ensures Lists(a, part) <==> Lists(b, part)
      {
        EnumeratedMembers(a, part);
        EnumeratedMembers(b, part);
      }
    }
    if SameTypes(a, b) {
      SameEnumerated(a, b);
    }
  }

  lemma SameEnumerated(a: string, b: string)
    requires SameTypes(a, b)
    ensures Enumerated(a) == Enumerated(b)
  {
    var x, y := Dedup(Without(Split(a), {""})), Dedup(Without(Split(b), {""}));
    EnumeratedMembers(a, "");
    EnumeratedMembers(b, "");
    forall part
      ensures part in x <==> part in y
    {
      EnumeratedMembers(a, part);
      EnumeratedMembers(b, part);
      SortKeeps(x, TextLe);
      SortKeeps(y, TextLe);
      assert part in x <==> part in multiset(Enumerated(a));
      assert part in y <==> part in multiset(Enumerated(b));
    }
    SnapshotCodec.SameMembers(x, y);
    SortKeeps(x, TextLe);
    SortKeeps(y, TextLe);
    TextIsOrdered();
    SortSorts(x, TextLe);
    SortSorts(y, TextLe);
    SortedIsUnique(Enumerated(a), Enumerated(b), TextLe);
  }

  /** A normalised enumeration enumerates the same values. */
  lemma NormalTypeKeeps(a: string)
    ensures SameTypes(NormalType(a), a)
  {
    EnumeratedParts(a);
    JoinedParts(Enumerated(a));
    forall part | part != ""
      ensures Lists(NormalType(a), part) <==> Lists(a, part)
    {
      SplitLists(NormalType(a), part);
      WithoutMembers(Split(NormalType(a)), {""}, part);
      EnumeratedMembers(a, part);
    }
  }

  // ---------------------------------------------------------------- keys

  lemma NormalParamsMeans(a: map<string, string>, b: map<string, string>)
    ensures NormalParams(a) == NormalParams(b) <==> SameAsked(a, b)
  {
    if "Type" in a && "Type" in b {
      NormalTypeMeans(a["Type"], b["Type"]);
    }
    var x, y := NormalParams(a), NormalParams(b);
    forall key
      ensures key in x <==> key in a && key !in {"dates", "datee", "orderbyFields", "orderByType"}
      ensures key in y <==> key in b && key !in {"dates", "datee", "orderbyFields", "orderByType"}
    {
    }
    if x == y {
      forall key | key !in {"dates", "datee", "orderbyFields", "orderByType"}
        ensures key in a <==> key in b
        ensures key in a ==> if key == "Type" then SameTypes(a[key], b[key]) else a[key] == b[key]
      {
        assert key in x <==> key in y;
        assert key in x ==> x[key] == y[key];
      }
    }
    if SameAsked(a, b) {
      forall key
        ensures key in x <==> key in y
        ensures key in x ==> x[key] == y[key]
      {
      }
    }
  }

  /** Normalising parameters asks for the same rows. */
  lemma NormalParamsKeep(a: map<string, string>)
    ensures SameAsked(NormalParams(a), a)
  {
    if "Type" in a {
      NormalTypeKeeps(a["Type"]);
    }
  }

  /**
    Two questions share a snapshot if and only if they are of one tenant, operation and window and
    their parameters agree in all but presentation, with the types compared as sets.
  */
  lemma SameKeyExactly(tenant: string, op: Operation, a: View.Params, window: Window, tenant': string, op': Operation,
                       b: View.Params, window': Window)
    ensures KeyFor(tenant, op, a, window) == KeyFor(tenant', op', b, window') <==>
            tenant == tenant' && op == op' && window == window' && SameAsked(a.other, b.other)
  {
    NormalParamsMeans(a.other, b.other);
  }
}
