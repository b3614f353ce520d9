/**
  JSON inside a script element: two replacements keep the text from ending the element or opening
  a comment, and neither changes what the text denotes. Strings are decoded as in section 7 of
  RFC 8259.
*/
module ScriptEmbed {
  import opened Wrappers

  // ---------------------------------------------------------------- replacement

  predicate Starts(text: string, needle: string) { |needle| <= |text| && text[..|needle|] == needle }

  /** Every occurrence, from left to right and without overlap. */
  function Replace(text: string, needle: string, replacement: string): string
    requires needle != ""
    decreases |text|
  {
    if text == "" then ""
    else if Starts(text, needle) then replacement + Replace(text[|needle|..], needle, replacement)
    else [text[0]] + Replace(text[1..], needle, replacement)
  }

  const CloseTag := "</"
  const SafeCloseTag := "<\\/"
  const OpenComment := "<!--"
  const SafeOpenComment := "\\u003c!--"

  const Escapes: seq<(string, string)> := [(CloseTag, SafeCloseTag), (OpenComment, SafeOpenComment)]

  function WithoutCloseTags(text: string): string { Replace(text, CloseTag, SafeCloseTag) }

  function WithoutComments(text: string): string { Replace(text, OpenComment, SafeOpenComment) }

  function Embedded(text: string): string { WithoutComments(WithoutCloseTags(text)) }

  method EmbedJson(json: string) returns (text: string)
    ensures text == Embedded(json)
  {
    text := json;
    for i := 0 to |Escapes|
      invariant i == 0 ==> text == json
      invariant i == 1 ==> text == WithoutCloseTags(json)
      invariant i == 2 ==> text == Embedded(json)
    {
      assert i == 0 || i == 1;
      text := Replace(text, Escapes[i].0, Escapes[i].1);
    }
  }

  // ---------------------------------------------------------------- no tag, no comment

  predicate ClosesAt(text: string, i: int) { 0 <= i && i + 1 < |text| && text[i] == '<' && text[i + 1] == '/' }

  predicate CommentsAt(text: string, i: int) {
    0 <= i && i + 3 < |text| && text[i] == '<' && text[i + 1] == '!' && text[i + 2] == '-' && text[i + 3] == '-'
  }

  ghost predicate Safe(text: string) { forall i :: !ClosesAt(text, i) && !CommentsAt(text, i) }

  lemma StartsClose(text: string)
    ensures Starts(text, CloseTag) <==> ClosesAt(text, 0)
  {
    if ClosesAt(text, 0) {
      assert text[..2] == CloseTag;
    }
  }

  lemma StartsComment(text: string)
    ensures Starts(text, OpenComment) <==> CommentsAt(text, 0)
  {
    if CommentsAt(text, 0) {
      assert text[..4] == OpenComment;
    }
  }

  /** The first replacement never changes the first character. */
  lemma FirstStays(text: string)
    ensures text == "" <==> WithoutCloseTags(text) == ""
    ensures text != "" ==> WithoutCloseTags(text)[0] == text[0]
  {
  }

  lemma {:induction false} NoCloseTag(text: string)
    ensures forall i :: !ClosesAt(WithoutCloseTags(text), i)
    decreases |text|
  {
    if text != "" {
      StartsClose(text);
      if Starts(text, CloseTag) {
        NoCloseTag(text[2..]);
        AfterEscapedTag(WithoutCloseTags(text[2..]));
      } else {
        NoCloseTag(text[1..]);
        FirstStays(text[1..]);
        AfterOne(text[0], WithoutCloseTags(text[1..]));
      }
    }
  }

  lemma AfterEscapedTag(rest: string)
    requires forall i :: !ClosesAt(rest, i)
    ensures forall i :: !ClosesAt(SafeCloseTag + rest, i)
  {
    var all := SafeCloseTag + rest;
    forall i
      ensures !ClosesAt(all, i)
    {
      assert !ClosesAt(rest, i - 3);
      assert all[0] == '<' && all[1] == '\\' && all[2] == '/';
    }
  }

  lemma AfterOne(c: char, rest: string)
    requires forall i :: !ClosesAt(rest, i)
    requires !(c == '<' && rest != "" && rest[0] == '/')
    ensures forall i :: !ClosesAt([c] + rest, i)
  {
    forall i
      ensures !ClosesAt([c] + rest, i)
    {
      assert !ClosesAt(rest, i - 1);
    }
  }

  /** The second replacement puts nothing but a backslash where it changes the first character. */
  lemma FirstOrBackslash(text: string)
    ensures WithoutComments(text) != "" ==> text != ""
    ensures WithoutComments(text) != "" && WithoutComments(text)[0] != '\\' ==>
              WithoutComments(text) == [text[0]] + WithoutComments(text[1..])
  {
    if text != "" && Starts(text, OpenComment) {
      assert WithoutComments(text) == SafeOpenComment + WithoutComments(text[4..]);
      assert (SafeOpenComment + WithoutComments(text[4..]))[0] == '\\';
    }
  }

  lemma {:induction false} StillNoCloseTag(text: string)
    requires forall i :: !ClosesAt(text, i)
    ensures forall i :: !ClosesAt(WithoutComments(text), i)
    decreases |text|
  {
    if text != "" {
      if Starts(text, OpenComment) {
        SuffixSafe(text, 4);
        StillNoCloseTag(text[4..]);
        AfterEscapedComment(WithoutComments(text[4..]));
      } else {
        SuffixSafe(text, 1);
        StillNoCloseTag(text[1..]);
        FirstOrBackslash(text[1..]);
        assert !ClosesAt(text, 0);
        AfterOne(text[0], WithoutComments(text[1..]));
      }
    }
  }

  lemma SuffixSafe(text: string, k: nat)
    requires k <= |text| && forall i :: !ClosesAt(text, i)
    ensures forall i :: !ClosesAt(text[k..], i)
  {
    forall i
      ensures !ClosesAt(text[k..], i)
    {
      assert !ClosesAt(text, i + k);
    }
  }

  lemma AfterEscapedComment(rest: string)
    requires forall i :: !ClosesAt(rest, i)
    ensures forall i :: !ClosesAt(SafeOpenComment + rest, i)
  {
    var all := SafeOpenComment + rest;
    forall i
      ensures !ClosesAt(all, i)
    {
      assert !ClosesAt(rest, i - 9);
      assert 0 <= i < 9 ==> all[i] == SafeOpenComment[i];
    }
  }

  /** Up to its first backslash the result is the text. */
  lemma {:induction false} PlainPrefix(text: string, k: nat)
    requires k <= |WithoutComments(text)| && forall i :: 0 <= i < k ==> WithoutComments(text)[i] != '\\'
    ensures k <= |text| && WithoutComments(text)[..k] == text[..k]
  {
    if k > 0 {
      FirstOrBackslash(text);
      assert forall i :: 0 <= i < k - 1 ==> WithoutComments(text[1..])[i] == WithoutComments(text)[i + 1];
      PlainPrefix(text[1..], k - 1);
      assert text[..k] == [text[0]] + text[1..][..k - 1];
    }
  }

  lemma CommentFront(text: string)
    requires !Starts(text, OpenComment)
    ensures !CommentsAt(WithoutComments(text), 0)
  {
    var out := WithoutComments(text);
    StartsComment(text);
    if 4 <= |out| && forall i :: 0 <= i < 4 ==> out[i] != '\\' {
      PlainPrefix(text, 4);
      assert forall i :: 0 <= i < 4 ==> out[..4][i] == text[..4][i];
    }
  }

  lemma {:induction false} NoComment(text: string)
    ensures forall i :: !CommentsAt(WithoutComments(text), i)
    decreases |text|
  {
    if text != "" {
      var k := if Starts(text, OpenComment) then 4 else 1;
      var head := if k == 4 then SafeOpenComment else [text[0]];
      NoComment(text[k..]);
      var rest := WithoutComments(text[k..]);
      assert WithoutComments(text) == head + rest;
      forall i
        ensures !CommentsAt(head + rest, i)
      {
        assert !CommentsAt(rest, i - |head|);
        if i == 0 && k == 1 {
          CommentFront(text);
        }
        assert 0 <= i < |head| ==> (head + rest)[i] == head[i];
      }
    }
  }

  /** Whatever the text, its embedded form neither ends the script element nor opens a comment. */
  lemma EmbeddedIsSafe(text: string)
    ensures Safe(Embedded(text))
  {
    NoCloseTag(text);
    StillNoCloseTag(WithoutCloseTags(text));
    NoComment(WithoutCloseTags(text));
  }

  // ---------------------------------------------------------------- the same values

  /** A character between strings, a delimiter of a string, or a code unit of one. */
  datatype Item = Mark(c: char) | Open | Close | Unit(code: int)

  function Single(c: char): Option<int> {
    match c
    case '"' => Some(34)
    case '\\' => Some(92)
    case '/' => Some(47)
    case 'b' => Some(8)
    case 'f' => Some(12)
    case 'n' => Some(10)
    case 'r' => Some(13)
    case 't' => Some(9)
    case _ => None
  }

  function Hex(c: char): Option<int> {
    if '0' <= c <= '9' then Some(c as int - '0' as int)
    else if 'a' <= c <= 'f' then Some(c as int - 'a' as int + 10)
    else if 'A' <= c <= 'F' then Some(c as int - 'A' as int + 10)
    else None
  }

  function FourHex(text: string): Option<int>
    requires |text| >= 6
  {
    match (Hex(text[2]), Hex(text[3]), Hex(text[4]), Hex(text[5]))
    case (Some(a), Some(b), Some(c), Some(d)) => Some(((a * 16 + b) * 16 + c) * 16 + d)
    case _ => None
  }

  /** The escape at the front of the text: its code unit and its length. */
  function Escape(text: string): Option<(int, nat)>
    requires text != ""
  {
    if |text| >= 2 && Single(text[1]).Some? then Some((Single(text[1]).value, 2))
    else if |text| >= 6 && text[1] == 'u' && FourHex(text).Some? then Some((FourHex(text).value, 6))
    else None
  }

  function Cons(item: Item, rest: Option<seq<Item>>): Option<seq<Item>> {
    if rest.Some? then Some([item] + rest.value) else None
  }

  /** Decodes every string of the text; `None` if a string is malformed or does not end. */
  function Lex(text: string, inside: bool): Option<seq<Item>>
    decreases |text|
  {
    if text == "" then if inside then None else Some([])
    else if !inside then
      if text[0] == '"' then Cons(Open, Lex(text[1..], true)) else Cons(Mark(text[0]), Lex(text[1..], false))
    else if text[0] == '"' then Cons(Close, Lex(text[1..], false))
    else if text[0] == '\\' then
      match Escape(text)
      case None => None
      case Some((code, n)) => if n <= |text| then Cons(Unit(code), Lex(text[n..], true)) else None
    else if text[0] < ' ' then None
    else Cons(Unit(text[0] as int), Lex(text[1..], true))
  }

  /** JSON has no angle bracket between strings. */
  ghost predicate Bracketless(items: seq<Item>) { Mark('<') !in items }

  ghost predicate Lexes(text: string, inside: bool) { Lex(text, inside).Some? && Bracketless(Lex(text, inside).value) }

  lemma OtherFirst(text: string, needle: string)
    requires needle != "" && text != "" && text[0] != needle[0]
    ensures !Starts(text, needle)
  {
    assert |needle| <= |text| ==> text[..|needle|][0] == text[0];
  }

  lemma Shifted(text: string, k: nat)
    requires 0 < k <= |text|
    ensures text[1..][k - 1..] == text[k..] && text[..k] == [text[0]] + text[1..][..k - 1]
  {
  }

  lemma Regrouped(c: char, a: string, b: string)
    ensures [c] + (a + b) == ([c] + a) + b
  {
  }

  lemma {:induction false} Passes(text: string, needle: string, replacement: string, k: nat)
    requires needle != "" && needle[0] == '<' && k <= |text| && forall i :: 0 <= i < k ==> text[i] != '<'
    ensures Replace(text, needle, replacement) == text[..k] + Replace(text[k..], needle, replacement)
  {
    if k == 0 {
      assert text[0..] == text;
    } else {
      var rest := text[1..];
      OtherFirst(text, needle);
      Passes(rest, needle, replacement, k - 1);
      Shifted(text, k);
      Regrouped(text[0], rest[..k - 1], Replace(text[k..], needle, replacement));
    }
  }

  /** How many characters the lexer takes at once. */
  function Stride(text: string, inside: bool): nat
    requires text != ""
  {
    if inside && text[0] == '\\' && Escape(text).Some? then Escape(text).value.1 else 1
  }

  /** Where the replacements have nothing to do, they and the lexer go forward together. */
  lemma NoBracketInStride(text: string, inside: bool)
    requires Lexes(text, inside) && text != "" && (text[0] != '<' || !inside)
    ensures Stride(text, inside) <= |text| && forall i :: 0 <= i < Stride(text, inside) ==> text[i] != '<'
  {
    if !inside && text[0] != '"' {
      assert Lex(text, inside).value[0] == Mark(text[0]);
    }
  }

  function Next(text: string, inside: bool): bool
    requires text != ""
  {
    if text[0] == '"' then !inside else inside
  }

  lemma Tail(text: string, inside: bool)
    requires Lexes(text, inside) && text != ""
    ensures Stride(text, inside) <= |text| && Lexes(text[Stride(text, inside)..], Next(text, inside))
  {
  }

  /** The same front and rests that lex alike lex alike. */
  lemma SameFront(text: string, out: string, inside: bool, rest: string)
    requires Lexes(text, inside) && text != "" && Stride(text, inside) <= |text|
    requires out == text[..Stride(text, inside)] + rest
    requires Lex(rest, Next(text, inside)) == Lex(text[Stride(text, inside)..], Next(text, inside))
    ensures Lex(out, inside) == Lex(text, inside)
  {
    var n := Stride(text, inside);
    assert out[n..] == rest && out[0] == text[0];
    if inside && text[0] == '\\' {
      SameEscape(text, out, n);
    }
  }

  lemma SameEscape(text: string, out: string, n: nat)
    requires text != "" && Escape(text).Some? && Escape(text).value.1 == n <= |text|
    requires n <= |out| && out[..n] == text[..n]
    ensures Escape(out) == Escape(text)
  {
    assert forall i :: 0 <= i < n ==> out[i] == out[..n][i] == text[..n][i] == text[i];
  }

  lemma EscapedTagLexes(rest: string)
    ensures Lex(SafeCloseTag + rest, true) == Cons(Unit(60), Cons(Unit(47), Lex(rest, true)))
  {
    var all := SafeCloseTag + rest;
    var tail := all[1..];
    assert all[0] == '<' && tail[0] == '\\' && tail[1] == '/' && tail[2..] == rest;
    assert Lex(tail, true) == Cons(Unit(47), Lex(rest, true));
  }

  lemma PlainLexes(c: char, rest: string)
    requires c >= ' ' && c != '"' && c != '\\'
    ensures Lex([c] + rest, true) == Cons(Unit(c as int), Lex(rest, true))
  {
    assert ([c] + rest)[1..] == rest;
  }

  lemma TagLexes(text: string)
    requires Starts(text, CloseTag)
    ensures Lex(text, true) == Cons(Unit(60), Cons(Unit(47), Lex(text[2..], true)))
  {
    StartsClose(text);
    PlainLexes('/', text[2..]);
    PlainLexes('<', ['/'] + text[2..]);
    assert text == ['<'] + (['/'] + text[2..]);
  }

  lemma ConsOf(item: Item, rest: Option<seq<Item>>)
    requires Cons(item, rest).Some? && Bracketless(Cons(item, rest).value)
    ensures rest.Some? && Bracketless(rest.value)
  {
    assert forall x :: x in rest.value ==> x in [item] + rest.value;
  }

  lemma {:induction false} CloseTagsKeepValues(text: string, inside: bool)
    requires Lexes(text, inside)
    ensures Lex(WithoutCloseTags(text), inside) == Lex(text, inside)
    decreases |text|
  {
    if text != "" {
      if inside && Starts(text, CloseTag) {
        TagLexes(text);
        var rest := Lex(text[2..], true);
        ConsOf(Unit(60), Cons(Unit(47), rest));
        ConsOf(Unit(47), rest);
        CloseTagsKeepValues(text[2..], true);
        EscapedTagLexes(WithoutCloseTags(text[2..]));
      } else {
        var n := Stride(text, inside);
        Tail(text, inside);
        CloseTagsKeepValues(text[n..], Next(text, inside));
        if inside && text[0] == '<' {
          assert text[..1] == [text[0]];
        } else {
          NoBracketInStride(text, inside);
          Passes(text, CloseTag, SafeCloseTag, n);
        }
        SameFront(text, WithoutCloseTags(text), inside, WithoutCloseTags(text[n..]));
      }
    }
  }

  lemma CommentLexes(text: string)
    requires Starts(text, OpenComment)
    ensures Lex(text, true) == Cons(Unit(60), Lex(text[1..], true))
    ensures Lex(text[1..], true) == Cons(Unit(33), Lex(text[2..], true))
    ensures Lex(text[2..], true) == Cons(Unit(45), Lex(text[3..], true))
    ensures Lex(text[3..], true) == Cons(Unit(45), Lex(text[4..], true))
  {
    StartsComment(text);
    PlainLexes('<', text[1..]);
    PlainLexes('!', text[2..]);
    PlainLexes('-', text[3..]);
    PlainLexes('-', text[4..]);
    assert text == ['<'] + text[1..] && text[1..] == ['!'] + text[2..] && text[2..] == ['-'] + text[3..] &&
           text[3..] == ['-'] + text[4..];
  }

  lemma EscapedCommentLexes(rest: string)
    ensures Lex(SafeOpenComment + rest, true) ==
            Cons(Unit(60), Cons(Unit(33), Cons(Unit(45), Cons(Unit(45), Lex(rest, true)))))
  {
    var all := SafeOpenComment + rest;
    PlainLexes('-', rest);
    PlainLexes('-', ['-'] + rest);
    PlainLexes('!', ['-'] + (['-'] + rest));
    assert all[6..] == ['!'] + (['-'] + (['-'] + rest));
    BracketEscape(all);
  }

  lemma BracketHex(text: string)
    requires |text| >= 6 && text[2] == '0' && text[3] == '0' && text[4] == '3' && text[5] == 'c'
    ensures FourHex(text) == Some(60)
  {
    assert Hex('0') == Some(0) && Hex('3') == Some(3) && Hex('c') == Some(12);
  }

  lemma BracketEscape(text: string)
    requires |text| >= 6 && text[0] == '\\' && text[1] == 'u' && text[2] == '0' && text[3] == '0' && text[4] == '3' &&
             text[5] == 'c'
    ensures Lex(text, true) == Cons(Unit(60), Lex(text[6..], true))
  {
    BracketHex(text);
    assert Single('u').None?;
    assert Escape(text) == Some((60, 6));
  }

  lemma {:induction false} CommentsKeepValues(text: string, inside: bool)
    requires Lexes(text, inside)
    ensures Lex(WithoutComments(text), inside) == Lex(text, inside)
    decreases |text|
  {
    if text != "" {
      if inside && Starts(text, OpenComment) {
        CommentLexes(text);
        ConsOf(Unit(60), Lex(text[1..], true));
        ConsOf(Unit(33), Lex(text[2..], true));
        ConsOf(Unit(45), Lex(text[3..], true));
        ConsOf(Unit(45), Lex(text[4..], true));
        CommentsKeepValues(text[4..], true);
        EscapedCommentLexes(WithoutComments(text[4..]));
      } else {
        var n := Stride(text, inside);
        Tail(text, inside);
        CommentsKeepValues(text[n..], Next(text, inside));
        if inside && text[0] == '<' {
          assert text[..1] == [text[0]];
        } else {
          NoBracketInStride(text, inside);
          Passes(text, OpenComment, SafeOpenComment, n);
        }
        SameFront(text, WithoutComments(text), inside, WithoutComments(text[n..]));
      }
    }
  }

  /**
    For every text whose strings are well formed and which has no angle bracket between them, as no
    JSON text has, the embedded form is safe and decodes to the same strings in the same places.
  */
  lemma EmbeddingIsInvisible(text: string)
    requires Lexes(text, false)
    ensures Lex(Embedded(text), false) == Lex(text, false)
    ensures Safe(Embedded(text))
  {
    CloseTagsKeepValues(text, false);
    CommentsKeepValues(WithoutCloseTags(text), false);
    EmbeddedIsSafe(text);
  }
}
