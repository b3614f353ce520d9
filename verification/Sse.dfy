/**
  Server-sent events: the server's printer, the client's parser and the client's reconnection.
  Section 9.2 of the HTML Living Standard. A payload is kept as its JSON text; what the client
  takes for a JSON object is a `Reader`.
*/
module Sse {
  import opened Wrappers
  import opened TextOrder

  datatype Event = Event(name: string, sequence: int, data: string)

  /** Whether a text is a JSON object. */
  datatype Reader = Reader(isObject: string -> bool)

  datatype ProtocolError = InvalidEvent | TooLarge

  /** What the consumer saw before the end of the stream, or before the error. */
  datatype Outcome = Outcome(events: seq<Event>, error: Option<ProtocolError>)

  const MaxEventChars: nat := 16 * 1024 * 1024

  // ---------------------------------------------------------------- printing

  function Digits(n: nat): string {
    if n < 10 then [(n + '0' as int) as char] else Digits(n / 10) + [(n % 10 + '0' as int) as char]
  }

  // ---------------------------------------------------------------- reading numbers

  function DigitOf(c: char): Option<nat> { if '0' <= c <= '9' then Some(c as int - '0' as int) else None }

  /** Decimal digits, in which single underscores may stand between two digits. */
  function ReadUnsigned(s: string): Option<nat> {
    if s == "" then None
    else if |s| == 1 then DigitOf(s[0])
    else
      var n := |s| - 1;
      var front := if s[n - 1] == '_' then s[..n - 1] else s[..n];
      match (ReadUnsigned(front), DigitOf(s[n]))
      case (Some(v), Some(d)) => Some(10 * v + d)
      case _ => None
  }

  function Negated(n: Option<nat>): Option<int> { if n.Some? then Some(0 - n.value) else None }

  /** The integer a text denotes, with an optional sign. */
  function ReadInt(s: string): Option<int> {
    var t := Strip(s);
    if t != "" && t[0] == '-' then
      Negated(ReadUnsigned(t[1..]))
    else
      var n := ReadUnsigned(if t != "" && t[0] == '+' then t[1..] else t);
      if n.Some? then Some(n.value) else None
  }

  lemma {:induction false} DigitsAreDigits(n: nat)
    ensures Digits(n) != "" && forall i :: 0 <= i < |Digits(n)| ==> '0' <= Digits(n)[i] <= '9'
  {
    if n >= 10 {
      DigitsAreDigits(n / 10);
    }
  }

  lemma {:induction false} DigitsReadBack(n: nat)
    ensures ReadUnsigned(Digits(n)) == Some(n)
  {
    if n >= 10 {
      DigitsReadBack(n / 10);
      DigitsAreDigits(n / 10);
      var s := Digits(n);
      assert s[..|s| - 1] == Digits(n / 10);
      assert s[|s| - 2] == Digits(n / 10)[|s| - 2];
      assert DigitOf(s[|s| - 1]) == Some(n % 10);
    }
  }

  /** Printing a number and reading it gives the number back. */
  lemma NumberRoundTrip(n: nat)
    ensures ReadInt(Digits(n)) == Some(n)
  {
    DigitsAreDigits(n);
    DigitsReadBack(n);
    var s := Digits(n);
    assert !Space(s[0]) && !Space(s[|s| - 1]);
  }

  function Field(key: string, value: string): string { key + ": " + value }

  function IdLine(e: Event): string
    requires e.sequence >= 0
  {
    Field("id", Digits(e.sequence))
  }

  function EventLine(e: Event): string { Field("event", e.name) }

  function DataLine(e: Event): string { Field("data", e.data) }

  function Ended(line: string, rest: string): string { line + "\n" + rest }

  /** Three fields and a blank line. */
  function EncodeEvent(e: Event): string
    requires e.sequence >= 0
  {
    Ended(IdLine(e), Ended(EventLine(e), Ended(DataLine(e), Ended("", ""))))
  }

  ghost predicate Numbered(es: seq<Event>) { forall i :: 0 <= i < |es| ==> es[i].sequence >= 0 }

  function EncodeAll(es: seq<Event>): string
    requires Numbered(es)
  {
    if es == [] then "" else EncodeEvent(es[0]) + EncodeAll(es[1..])
  }

  // ---------------------------------------------------------------- lines

  /** The line boundaries of the client's line iterator, which are those of `str.splitlines`. */
  predicate Break(c: char) {
    c == '\n' || c == '\r' || c == '\U{B}' || c == '\U{C}' || ('\U{1C}' <= c <= '\U{1E}') || c == '\U{85}' ||
      c == '\U{2028}' || c == '\U{2029}'
  }

  predicate Unbroken(s: string) { forall i :: 0 <= i < |s| ==> !Break(s[i]) }

  function FirstBreak(s: string): (k: nat)
    ensures k <= |s|
  {
    if s == "" || Break(s[0]) then 0 else 1 + FirstBreak(s[1..])
  }

  function BreakWidth(s: string, k: nat): nat { if k + 1 < |s| && s[k] == '\r' && s[k + 1] == '\n' then 2 else 1 }

  /** A last line without a boundary counts, an empty one does not. */
  function SplitLines(s: string): seq<string>
    decreases |s|
  {
    if s == "" then []
    else
      var k := FirstBreak(s);
      if k == |s| then [s] else [s[..k]] + SplitLines(s[k + BreakWidth(s, k)..])
  }

  lemma {:induction false} BreakIs(s: string, k: nat)
    requires k <= |s| && (forall i :: 0 <= i < k ==> !Break(s[i])) && (k < |s| ==> Break(s[k]))
    ensures FirstBreak(s) == k
  {
    if k > 0 {
      BreakIs(s[1..], k - 1);
    }
  }

  lemma {:induction false} BeforeBreak(s: string)
    ensures Unbroken(s[..FirstBreak(s)])
  {
    if s != "" && !Break(s[0]) {
      BeforeBreak(s[1..]);
      assert s[..FirstBreak(s)] == [s[0]] + s[1..][..FirstBreak(s[1..])];
    }
  }

  lemma SplitLine(line: string, rest: string)
    requires Unbroken(line)
    ensures SplitLines(Ended(line, rest)) == [line] + SplitLines(rest)
  {
    var s := Ended(line, rest);
    forall i | 0 <= i < |line|
      ensures s[i] == line[i]
    {
    }
    assert s[|line|] == '\n';
    BreakIs(s, |line|);
    assert s[..|line|] == line && s[|line| + 1..] == rest;
  }

  lemma SplitLast(line: string)
    requires Unbroken(line)
    ensures SplitLines(line) == if line == "" then [] else [line]
  {
    if line != "" {
      BreakIs(line, |line|);
    }
  }

  lemma {:induction false} LinesAreUnbroken(s: string)
    ensures forall i :: 0 <= i < |SplitLines(s)| ==> Unbroken(SplitLines(s)[i])
    decreases |s|
  {
    if s != "" {
      var k := FirstBreak(s);
      BeforeBreak(s);
      if k == |s| {
        assert s[..k] == s;
      } else {
        LinesAreUnbroken(s[k + BreakWidth(s, k)..]);
      }
    }
  }

  // ---------------------------------------------------------------- parsing

  function Colon(line: string): (k: nat)
    ensures k <= |line|
  {
    if line == "" || line[0] == ':' then 0 else 1 + Colon(line[1..])
  }

  function KeyOf(line: string): string { line[..Colon(line)] }

  function AfterColon(line: string): string { if Colon(line) < |line| then line[Colon(line) + 1..] else "" }

  function ValueOf(line: string): string {
    var value := AfterColon(line);
    if value != "" && value[0] == ' ' then value[1..] else value
  }

  datatype Parser = Parser(name: string, sequence: string, data: seq<string>, size: nat)

  const Fresh := Parser("message", "0", [], 0)

  function Joined(lines: seq<string>): string {
    if lines == [] then "" else if |lines| == 1 then lines[0] else lines[0] + "\n" + Joined(lines[1..])
  }

  function Built(p: Parser, reader: Reader): Option<Event> {
    var n, text := ReadInt(p.sequence), Joined(p.data);
    if n.Some? && n.value >= 0 && reader.isObject(text) then Some(Event(p.name, n.value, text)) else None
  }

  function Taken(p: Parser, key: string, value: string): Parser {
    var q := p.(size := p.size + |value|);
    if key == "event" then q.(name := value)
    else if key == "id" then q.(sequence := value)
    else if key == "data" then q.(data := p.data + [value])
    else q
  }

  function Emit(e: Event, o: Outcome): Outcome { Outcome([e] + o.events, o.error) }

  /** What the rest of the stream yields to a parser in the given state. */
  function Parse(lines: seq<string>, p: Parser, reader: Reader): Outcome {
    if lines == [] then Outcome([], None)
    else
      var line, rest := lines[0], lines[1..];
      if line == "" then
        if p.data == [] then Parse(rest, Fresh, reader)
        else
          match Built(p, reader)
          case None => Outcome([], Some(InvalidEvent))
          case Some(e) => Emit(e, Parse(rest, Fresh, reader))
      else if line[0] == ':' then Parse(rest, p, reader)
      else if p.size + |ValueOf(line)| > MaxEventChars then Outcome([], Some(TooLarge))
      else Parse(rest, Taken(p, KeyOf(line), ValueOf(line)), reader)
  }

  function Before(events: seq<Event>, o: Outcome): Outcome { Outcome(events + o.events, o.error) }

  method ParseEvents(lines: seq<string>, reader: Reader) returns (o: Outcome)
    ensures o == Parse(lines, Fresh, reader)
  {
    var events: seq<Event> := [];
    var p := Fresh;
    for i := 0 to |lines|
      invariant Parse(lines, Fresh, reader) == Before(events, Parse(lines[i..], p, reader))
    {
      var line := lines[i];
      assert lines[i..][0] == line && lines[i..][1..] == lines[i + 1..];
      if line == "" {
        if p.data != [] {
          var built := Built(p, reader);
          if built.None? {
            return Outcome(events, Some(InvalidEvent));
          }
          assert events + ([built.value] + Parse(lines[i + 1..], Fresh, reader).events) ==
                 (events + [built.value]) + Parse(lines[i + 1..], Fresh, reader).events;
          events := events + [built.value];
        }
        p := Fresh;
      } else if line[0] != ':' {
        var key, value := KeyOf(line), ValueOf(line);
        if p.size + |value| > MaxEventChars {
          return Outcome(events, Some(TooLarge));
        }
        p := Taken(p, key, value);
      }
    }
    return Outcome(events, None);
  }

  // ---------------------------------------------------------------- frames are read back

  predicate Fits(e: Event)
    requires e.sequence >= 0
  {
    |Digits(e.sequence)| + |e.name| + |e.data| <= MaxEventChars
  }

  lemma {:induction false} DigitsUnbroken(n: nat)
    ensures Unbroken(Digits(n)) && Digits(n) != ""
  {
    if n >= 10 {
      DigitsUnbroken(n / 10);
    }
  }

  lemma FieldLine(key: string, value: string)
    requires forall i :: 0 <= i < |key| ==> key[i] != ':'
    ensures KeyOf(Field(key, value)) == key && ValueOf(Field(key, value)) == value
  {
    var line := Field(key, value);
    ColonAt(line, |key|);
    assert line[..|key|] == key;
    assert line[|key| + 1..] == " " + value;
    assert (" " + value)[1..] == value;
  }

  lemma {:induction false} ColonAt(line: string, k: nat)
    requires k < |line| && line[k] == ':' && forall i :: 0 <= i < k ==> line[i] != ':'
    ensures Colon(line) == k
  {
    if k > 0 {
      ColonAt(line[1..], k - 1);
    }
  }

  lemma ThreeFields(e: Event)
    requires e.sequence >= 0
    ensures KeyOf(IdLine(e)) == "id" && ValueOf(IdLine(e)) == Digits(e.sequence)
    ensures KeyOf(EventLine(e)) == "event" && ValueOf(EventLine(e)) == e.name
    ensures KeyOf(DataLine(e)) == "data" && ValueOf(DataLine(e)) == e.data
  {
    FieldLine("id", Digits(e.sequence));
    FieldLine("event", e.name);
    FieldLine("data", e.data);
  }

  /** One line that carries a field. */
  lemma FieldStep(line: string, rest: seq<string>, p: Parser, reader: Reader)
    requires line != "" && line[0] != ':'
    ensures Parse([line] + rest, p, reader) ==
            if p.size + |ValueOf(line)| > MaxEventChars then Outcome([], Some(TooLarge))
            else Parse(rest, Taken(p, KeyOf(line), ValueOf(line)), reader)
  {
    assert ([line] + rest)[1..] == rest;
  }

  /** A frame yields its event if it fits, and ends the stream if it does not. */
  lemma FrameParses(e: Event, rest: seq<string>, reader: Reader)
    requires e.sequence >= 0 && reader.isObject(e.data)
    ensures Parse([IdLine(e)] + ([EventLine(e)] + ([DataLine(e)] + ([""] + rest))), Fresh, reader) ==
            if Fits(e) then Emit(e, Parse(rest, Fresh, reader)) else Outcome([], Some(TooLarge))
  {
    ThreeFields(e);
    var n := |Digits(e.sequence)|;
    var p1 := Parser("message", Digits(e.sequence), [], n);
    var p2 := Parser(e.name, Digits(e.sequence), [], n + |e.name|);
    var p3 := Parser(e.name, Digits(e.sequence), [e.data], n + |e.name| + |e.data|);
    FieldStep(IdLine(e), [EventLine(e)] + ([DataLine(e)] + ([""] + rest)), Fresh, reader);
    if n <= MaxEventChars {
      FieldStep(EventLine(e), [DataLine(e)] + ([""] + rest), p1, reader);
      if n + |e.name| <= MaxEventChars {
        FieldStep(DataLine(e), [""] + rest, p2, reader);
        EndOfFrame(e, rest, p3, reader);
      }
    }
  }

  lemma EndOfFrame(e: Event, rest: seq<string>, p: Parser, reader: Reader)
    requires e.sequence >= 0 && reader.isObject(e.data)
    requires p.name == e.name && p.sequence == Digits(e.sequence) && p.data == [e.data]
    ensures Parse([""] + rest, p, reader) == Emit(e, Parse(rest, Fresh, reader))
  {
    assert ([""] + rest)[1..] == rest;
    NumberRoundTrip(e.sequence);
    assert Built(p, reader) == Some(e);
  }

  lemma FieldUnbroken(key: string, value: string)
    requires Unbroken(key) && Unbroken(value)
    ensures Unbroken(Field(key, value))
  {
  }

  lemma LinesUnbroken(e: Event)
    requires e.sequence >= 0 && Unbroken(e.name) && Unbroken(e.data)
    ensures Unbroken(IdLine(e)) && Unbroken(EventLine(e)) && Unbroken(DataLine(e))
  {
    DigitsUnbroken(e.sequence);
    FieldUnbroken("id", Digits(e.sequence));
    FieldUnbroken("event", e.name);
    FieldUnbroken("data", e.data);
  }

  lemma EndedConcat(line: string, a: string, b: string)
    ensures Ended(line, a) + b == Ended(line, a + b)
  {
  }

  lemma FrameText(e: Event, rest: string)
    requires e.sequence >= 0
    ensures EncodeEvent(e) + rest == Ended(IdLine(e), Ended(EventLine(e), Ended(DataLine(e), Ended("", rest))))
  {
    var blank := Ended("", "");
    EndedConcat(IdLine(e), Ended(EventLine(e), Ended(DataLine(e), blank)), rest);
    EndedConcat(EventLine(e), Ended(DataLine(e), blank), rest);
    EndedConcat(DataLine(e), blank, rest);
    assert blank + rest == Ended("", rest);
  }

  lemma FrameSplits(e: Event, rest: string)
    requires e.sequence >= 0 && Unbroken(e.name) && Unbroken(e.data)
    ensures SplitLines(EncodeEvent(e) + rest) ==
            [IdLine(e)] + ([EventLine(e)] + ([DataLine(e)] + ([""] + SplitLines(rest))))
  {
    LinesUnbroken(e);
    FrameText(e, rest);
    SplitLine("", rest);
    SplitLine(DataLine(e), Ended("", rest));
    SplitLine(EventLine(e), Ended(DataLine(e), Ended("", rest)));
    SplitLine(IdLine(e), Ended(EventLine(e), Ended(DataLine(e), Ended("", rest))));
  }

  ghost predicate Sent(es: seq<Event>, reader: Reader) {
    forall i :: 0 <= i < |es| ==> es[i].sequence >= 0 && reader.isObject(es[i].data) && Printed(es[i].data)
  }

  /** JSON text has no control characters. */
  predicate Printed(s: string) { forall i :: 0 <= i < |s| ==> s[i] >= ' ' }

  ghost predicate Whole(e: Event) { Unbroken(e.name) && Unbroken(e.data) }

  ghost predicate AllFit(es: seq<Event>)
    requires Numbered(es)
  {
    forall i :: 0 <= i < |es| ==> Fits(es[i])
  }

  /** Unbroken frames, followed by anything: their events come first if all fit, else the stream ends in an error. */
  lemma {:induction false} FramesParse(es: seq<Event>, rest: string, reader: Reader)
    requires Numbered(es) && Sent(es, reader) && forall i :: 0 <= i < |es| ==> Whole(es[i])
    ensures var o := Parse(SplitLines(EncodeAll(es) + rest), Fresh, reader);
            if AllFit(es) then o == Before(es, Parse(SplitLines(rest), Fresh, reader)) else o.error == Some(TooLarge)
  {
    if es == [] {
      assert EncodeAll(es) + rest == rest;
      assert [] + Parse(SplitLines(rest), Fresh, reader).events == Parse(SplitLines(rest), Fresh, reader).events;
    } else {
      var more := EncodeAll(es[1..]) + rest;
      assert EncodeAll(es) + rest == EncodeEvent(es[0]) + more;
      FrameSplits(es[0], more);
      FrameParses(es[0], SplitLines(more), reader);
      FramesParse(es[1..], rest, reader);
      FitHead(es);
      if AllFit(es) {
        BeforeHead(es, Parse(SplitLines(rest), Fresh, reader));
      }
    }
  }

  lemma FitHead(es: seq<Event>)
    requires es != [] && Numbered(es)
    ensures AllFit(es) <==> Fits(es[0]) && AllFit(es[1..])
  {
    if Fits(es[0]) && AllFit(es[1..]) {
      forall i | 0 <= i < |es|
        ensures Fits(es[i])
      {
        assert i > 0 ==> es[i] == es[1..][i - 1];
      }
    }
  }

  lemma BeforeHead(es: seq<Event>, o: Outcome)
    requires es != []
    ensures Emit(es[0], Before(es[1..], o)) == Before(es, o)
  {
    assert [es[0]] + (es[1..] + o.events) == es + o.events;
  }

  // ---------------------------------------------------------------- exactly which streams are read back

  /** A parsed payload is joined from lines, so it has no line boundary but the joining newline. */
  predicate Tame(s: string) { forall i :: 0 <= i < |s| && Break(s[i]) ==> s[i] == '\n' }

  lemma {:induction false} JoinedIsTame(lines: seq<string>)
    requires forall i :: 0 <= i < |lines| ==> Unbroken(lines[i])
    ensures Tame(Joined(lines))
  {
    if |lines| > 1 {
      JoinedIsTame(lines[1..]);
    }
  }

  lemma ValueUnbroken(line: string)
    requires Unbroken(line)
    ensures Unbroken(ValueOf(line))
  {
    assert forall i :: 0 <= i < |AfterColon(line)| ==> AfterColon(line)[i] == line[Colon(line) + 1 + i];
  }

  ghost predicate CleanParser(p: Parser) { Unbroken(p.name) && forall i :: 0 <= i < |p.data| ==> Unbroken(p.data[i]) }

  ghost predicate CleanEvents(es: seq<Event>) { forall i :: 0 <= i < |es| ==> Unbroken(es[i].name) && Tame(es[i].data) }

  lemma EmitClean(e: Event, o: Outcome)
    requires Unbroken(e.name) && Tame(e.data) && CleanEvents(o.events)
    ensures CleanEvents(Emit(e, o).events)
  {
  }

  lemma {:induction false} EventsAreClean(lines: seq<string>, p: Parser, reader: Reader)
    requires CleanParser(p) && forall i :: 0 <= i < |lines| ==> Unbroken(lines[i])
    ensures CleanEvents(Parse(lines, p, reader).events)
    decreases |lines|
  {
    if lines != [] {
      var line, rest := lines[0], lines[1..];
      if line == "" {
        EventsAreClean(rest, Fresh, reader);
        if p.data != [] && Built(p, reader).Some? {
          JoinedIsTame(p.data);
          EmitClean(Built(p, reader).value, Parse(rest, Fresh, reader));
        }
      } else if line[0] == ':' {
        EventsAreClean(rest, p, reader);
      } else {
        ValueUnbroken(line);
        EventsAreClean(rest, Taken(p, KeyOf(line), ValueOf(line)), reader);
      }
    }
  }

  ghost predicate AllWhole(es: seq<Event>) { forall i :: 0 <= i < |es| ==> Whole(es[i]) }

  /** Events that came out of the parser and whose payloads are JSON text are whole. */
  lemma ReadBackIsWhole(es: seq<Event>, text: string, reader: Reader)
    requires Sent(es, reader) && Parse(SplitLines(text), Fresh, reader).events == es
    ensures AllWhole(es)
  {
    LinesAreUnbroken(text);
    EventsAreClean(SplitLines(text), Fresh, reader);
  }

  /**
    The printed stream is read back as the same events, in order and without error, if and only if
    no name or payload contains a line boundary and every event is within the size limit. JSON
    text leaves exactly three boundaries unescaped: U+0085, U+2028 and U+2029.
  */
  lemma RoundTrip(es: seq<Event>, reader: Reader)
    requires Numbered(es) && Sent(es, reader)
    ensures Parse(SplitLines(EncodeAll(es)), Fresh, reader) == Outcome(es, None) <==> AllWhole(es) && AllFit(es)
  {
    var text := EncodeAll(es);
    assert text + "" == text;
    if AllWhole(es) {
      FramesParse(es, "", reader);
      assert es + [] == es;
    } else if Parse(SplitLines(text), Fresh, reader).events == es {
      ReadBackIsWhole(es, text, reader);
    }
  }

  lemma OpenBoundaries(s: string, i: nat)
    requires Printed(s) && i < |s| && Break(s[i])
    ensures s[i] in {'\U{85}', '\U{2028}', '\U{2029}'}
  {
  }

  // ---------------------------------------------------------------- truncated streams

  function Sizes(lines: seq<string>): nat { if lines == [] then 0 else |ValueOf(lines[0])| + Sizes(lines[1..]) }

  /** Lines without a blank one yield nothing, whatever they say. */
  lemma {:induction false} NoBlankNoEvent(lines: seq<string>, p: Parser, reader: Reader)
    requires "" !in lines && p.size + Sizes(lines) <= MaxEventChars
    ensures Parse(lines, p, reader) == Outcome([], None)
    decreases |lines|
  {
    if lines != [] {
      var line, rest := lines[0], lines[1..];
      if line[0] == ':' {
        NoBlankNoEvent(rest, p, reader);
      } else {
        NoBlankNoEvent(rest, Taken(p, KeyOf(line), ValueOf(line)), reader);
      }
    }
  }

  lemma {:induction false} ColonOfPrefix(line: string, k: nat)
    requires k <= |line|
    ensures Colon(line[..k]) == if Colon(line) < k then Colon(line) else k
  {
    if k > 0 && line[0] != ':' {
      assert line[..k][1..] == line[1..][..k - 1];
      ColonOfPrefix(line[1..], k - 1);
    }
  }

  /** A line that is cut short carries no more than the whole line. */
  lemma PrefixValue(line: string, k: nat)
    requires k <= |line|
    ensures |ValueOf(line[..k])| <= |ValueOf(line)|
  {
    ColonOfPrefix(line, k);
  }

  lemma PrefixUnbroken(line: string, k: nat)
    requires k <= |line| && Unbroken(line)
    ensures Unbroken(line[..k])
  {
  }

  /** Cutting a text inside its first line, or after it. */
  lemma CutEnded(line: string, rest: string, k: nat)
    requires k <= |Ended(line, rest)|
    ensures k <= |line| ==> Ended(line, rest)[..k] == line[..k]
    ensures k > |line| ==> Ended(line, rest)[..k] == Ended(line, rest[..k - |line| - 1])
  {
  }

  /** Lines of a cut text: nothing blank, and no more than was there. */
  ghost predicate Harmless(lines: seq<string>, limit: nat) { "" !in lines && Sizes(lines) <= limit }

  lemma CutLine(line: string, rest: string, k: nat, limit: nat)
    requires Unbroken(line) && line != "" && k <= |Ended(line, rest)|
    requires k > |line| ==> Harmless(SplitLines(rest[..k - |line| - 1]), limit)
    ensures Harmless(SplitLines(Ended(line, rest)[..k]), |ValueOf(line)| + limit)
  {
    CutEnded(line, rest, k);
    if k <= |line| {
      PrefixUnbroken(line, k);
      SplitLast(line[..k]);
      PrefixValue(line, k);
      assert k > 0 ==> Sizes([line[..k]]) == |ValueOf(line[..k])| + Sizes([line[..k]][1..]);
    } else {
      var tail := rest[..k - |line| - 1];
      SplitLine(line, tail);
      assert ([line] + SplitLines(tail))[1..] == SplitLines(tail);
    }
  }

  /** A text of which every proper cut is harmless. */
  ghost predicate SafeToCut(text: string, limit: nat) {
    forall k :: 0 <= k < |text| ==> Harmless(SplitLines(text[..k]), limit)
  }

  lemma SafeEnded(line: string, rest: string, limit: nat)
    requires Unbroken(line) && line != "" && rest != "" && SafeToCut(rest, limit)
    ensures SafeToCut(Ended(line, rest), |ValueOf(line)| + limit)
  {
    forall k | 0 <= k < |Ended(line, rest)|
      ensures Harmless(SplitLines(Ended(line, rest)[..k]), |ValueOf(line)| + limit)
    {
      if k > |line| {
        assert Harmless(SplitLines(rest[..k - |line| - 1]), limit);
      }
      CutLine(line, rest, k, limit);
    }
  }

  lemma SafeFrame(e: Event)
    requires e.sequence >= 0 && Whole(e)
    ensures SafeToCut(EncodeEvent(e), |Digits(e.sequence)| + |e.name| + |e.data|)
  {
    LinesUnbroken(e);
    ThreeFields(e);
    var blank := Ended("", "");
    forall k | 0 <= k < |blank|
      ensures Harmless(SplitLines(blank[..k]), 0)
    {
      assert blank[..k] == "";
    }
    SafeEnded(DataLine(e), blank, 0);
    SafeEnded(EventLine(e), Ended(DataLine(e), blank), |e.data|);
    SafeEnded(IdLine(e), Ended(EventLine(e), Ended(DataLine(e), blank)), |e.name| + |e.data|);
  }

  /** A stream cut anywhere inside a frame yields the events before it, and nothing of the frame. */
  lemma TruncatedFrameYieldsNothing(es: seq<Event>, e: Event, k: nat, reader: Reader)
    requires Numbered(es) && Sent(es, reader) && AllWhole(es) && AllFit(es)
    requires e.sequence >= 0 && Whole(e) && Fits(e) && k < |EncodeEvent(e)|
    ensures Parse(SplitLines(EncodeAll(es) + EncodeEvent(e)[..k]), Fresh, reader) == Outcome(es, None)
  {
    SafeFrame(e);
    NoBlankNoEvent(SplitLines(EncodeEvent(e)[..k]), Fresh, reader);
    FramesParse(es, EncodeEvent(e)[..k], reader);
    assert es + [] == es;
  }

  // ---------------------------------------------------------------- reconnection

  const Heartbeat := "interaction.heartbeat"

  const Terminals: set<string> := {"interaction.completed", "interaction.failed", "interaction.cancelled"}

  /** What the client keeps across connections. */
  datatype Client = Client(sequence: int, applied: seq<Event>, done: bool)

  function Larger(a: int, b: int): int { if a < b then b else a }

  function Receive(c: Client, e: Event): Client {
    if c.done || (e.sequence <= c.sequence && e.name != Heartbeat) then c
    else Client(Larger(c.sequence, e.sequence), c.applied + [e], e.name in Terminals)
  }

  function Follow(c: Client, stream: seq<Event>): Client {
    if stream == [] then c
    else
      var n := |stream| - 1;
      Receive(Follow(c, stream[..n]), stream[n])
  }

  function Reconnect(c: Client, streams: seq<seq<Event>>): Client {
    if streams == [] then c
    else
      var n := |streams| - 1;
      Follow(Reconnect(c, streams[..n]), streams[n])
  }

  const NewClient := Client(0, [], false)

  lemma {:induction false} DoneStays(c: Client, stream: seq<Event>)
    requires c.done
    ensures Follow(c, stream) == c
  {
    if stream != [] {
      DoneStays(c, stream[..|stream| - 1]);
    }
  }

  lemma {:induction false} FollowConcat(c: Client, a: seq<Event>, b: seq<Event>)
    ensures Follow(c, a + b) == Follow(Follow(c, a), b)
  {
    if b == [] {
      assert a + b == a;
    } else {
      var n := |b| - 1;
      assert (a + b)[..|a| + n] == a + b[..n];
      FollowConcat(c, a, b[..n]);
    }
  }

  lemma FollowStops(c: Client, stream: seq<Event>, j: nat)
    requires j <= |stream| && Follow(c, stream[..j]).done
    ensures Follow(c, stream) == Follow(c, stream[..j])
  {
    assert stream == stream[..j] + stream[j..];
    FollowConcat(c, stream[..j], stream[j..]);
    DoneStays(Follow(c, stream[..j]), stream[j..]);
  }

  lemma {:induction false} ReconnectStops(c: Client, streams: seq<seq<Event>>, i: nat)
    requires i <= |streams| && Reconnect(c, streams[..i]).done
    ensures Reconnect(c, streams) == Reconnect(c, streams[..i])
  {
    var n := |streams| - 1;
    if i <= n {
      assert streams[..n][..i] == streams[..i];
      ReconnectStops(c, streams[..n], i);
      DoneStays(Reconnect(c, streams[..n]), streams[n]);
    } else {
      assert streams[..i] == streams;
    }
  }

  method ReadStream(c: Client, stream: seq<Event>) returns (after: Client)
    requires !c.done
    ensures after == Follow(c, stream)
  {
    var sequence, applied := c.sequence, c.applied;
    for j := 0 to |stream|
      invariant Client(sequence, applied, false) == Follow(c, stream[..j])
    {
      var event := stream[j];
      assert stream[..j + 1][..j] == stream[..j];
      if event.sequence > sequence || event.name == Heartbeat {
        sequence := Larger(sequence, event.sequence);
        applied := applied + [event];
        if event.name in Terminals {
          FollowStops(c, stream, j + 1);
          return Client(sequence, applied, true);
        }
      }
    }
    assert stream[..|stream|] == stream;
    return Client(sequence, applied, false);
  }

  /** The client's loop: connections until a terminal event, each ending wherever it breaks. */
  method RunCase(streams: seq<seq<Event>>) returns (c: Client)
    ensures c == Reconnect(NewClient, streams)
  {
    c := NewClient;
    for i := 0 to |streams|
      invariant c == Reconnect(NewClient, streams[..i]) && !c.done
    {
      assert streams[..i + 1][..i] == streams[..i];
      c := ReadStream(c, streams[i]);
      if c.done {
        ReconnectStops(NewClient, streams, i + 1);
        return;
      }
    }
    assert streams[..|streams|] == streams;
  }

  // ---------------------------------------------------------------- exactly once, in order

  function Durable(es: seq<Event>): seq<Event> {
    if es == [] then []
    else
      var n := |es| - 1;
      if es[n].name == Heartbeat then Durable(es[..n]) else Durable(es[..n]) + [es[n]]
  }

  /** A log: sequence numbers grow from one, no heartbeats, and a terminal event only at the end. */
  ghost predicate Log(log: seq<Event>) {
    && (forall i :: 0 <= i < |log| ==> log[i].sequence > 0 && log[i].name != Heartbeat)
    && (forall i, j :: 0 <= i < j < |log| ==> log[i].sequence < log[j].sequence)
    && (forall i :: 0 <= i < |log| && log[i].name in Terminals ==> i == |log| - 1)
  }

  function Mark(log: seq<Event>, n: nat): int
    requires n <= |log|
  {
    if n == 0 then 0 else log[n - 1].sequence
  }

  /** The client has applied exactly the first `n` events of the log. */
  ghost predicate At(c: Client, log: seq<Event>, n: nat) {
    && n <= |log| && Durable(c.applied) == log[..n] && c.sequence == Mark(log, n)
    && (c.done <==> n == |log| && n > 0 && log[n - 1].name in Terminals)
  }

  /**
    A connection: log events from `a` on, in order, with heartbeats that carry no number the client
    has not reached. `b` is how far it got before it broke.
  */
  ghost predicate Serves(stream: seq<Event>, log: seq<Event>, start: int, a: nat, b: nat)
    decreases |stream|
  {
    && a <= b <= |log|
    && if stream == [] then a == b
       else
         var n := |stream| - 1;
         if stream[n].name == Heartbeat then stream[n].sequence <= Larger(start, Mark(log, b)) &&
           Serves(stream[..n], log, start, a, b)
         else a < b && stream[n] == log[b - 1] && Serves(stream[..n], log, start, a, b - 1)
  }

  function Further(a: nat, b: nat): nat { if a < b then b else a }

  lemma MarkOrder(log: seq<Event>, m: nat, n: nat)
    requires Log(log) && m <= |log| && n <= |log|
    ensures Mark(log, m) <= Mark(log, n) <==> m <= n
    ensures Mark(log, m) >= 0
  {
  }

  /** One log event, old or next in line. */
  lemma ReceiveLogged(c: Client, log: seq<Event>, n: nat, b: nat)
    requires Log(log) && At(c, log, n) && b < |log| && b <= n
    ensures At(Receive(c, log[b]), log, Further(n, b + 1))
  {
    MarkOrder(log, b + 1, n);
    if b == n {
      assert (c.applied + [log[b]])[..|c.applied|] == c.applied;
      assert log[..n + 1] == log[..n] + [log[n]];
    }
  }

  lemma ReceiveBeat(c: Client, log: seq<Event>, n: nat, e: Event)
    requires Log(log) && At(c, log, n) && e.name == Heartbeat && e.sequence <= c.sequence
    ensures At(Receive(c, e), log, n)
  {
    assert (c.applied + [e])[..|c.applied|] == c.applied;
    HeartbeatIsNotTerminal();
  }

  lemma HeartbeatIsNotTerminal()
    ensures Heartbeat !in Terminals
  {
    assert |Heartbeat| == 21 && |"interaction.completed"| == 21;
    assert Heartbeat[12] == 'h' && "interaction.completed"[12] == 'c';
  }

  lemma BeatAdvances(c: Client, log: seq<Event>, n: nat, start: int, b: nat, e: Event)
    requires Log(log) && n <= |log| && b <= |log| && start == Mark(log, n)
    requires At(c, log, Further(n, b)) && e.name == Heartbeat && e.sequence <= Larger(start, Mark(log, b))
    ensures At(Receive(c, e), log, Further(n, b))
  {
    MarkOrder(log, n, b);
    ReceiveBeat(c, log, Further(n, b), e);
  }

  lemma LoggedAdvances(c: Client, log: seq<Event>, n: nat, a: nat, b: nat)
    requires Log(log) && a < b <= |log| && a <= n && At(c, log, Further(n, b - 1))
    ensures At(Receive(c, log[b - 1]), log, Further(n, b))
  {
    ReceiveLogged(c, log, Further(n, b - 1), b - 1);
  }

  lemma FollowLast(c: Client, stream: seq<Event>)
    requires stream != []
    ensures Follow(c, stream) == Receive(Follow(c, stream[..|stream| - 1]), stream[|stream| - 1])
  {
  }

  /** A connection that starts no later than where the client stands leaves no gap and repeats nothing. */
  lemma {:induction false} StreamAdvances(c: Client, log: seq<Event>, n: nat, stream: seq<Event>, start: int, a: nat,
                                          b: nat)
    requires Log(log) && At(c, log, n) && start == Mark(log, n) && Serves(stream, log, start, a, b) && a <= n
    ensures At(Follow(c, stream), log, Further(n, b))
    decreases |stream|
  {
    if stream != [] {
      var k := |stream| - 1;
      if stream[k].name == Heartbeat {
        StreamAdvances(c, log, n, stream[..k], start, a, b);
        BeatAdvances(Follow(c, stream[..k]), log, n, start, b, stream[k]);
      } else {
        StreamAdvances(c, log, n, stream[..k], start, a, b - 1);
        LoggedAdvances(Follow(c, stream[..k]), log, n, a, b);
      }
      FollowLast(c, stream);
    }
  }

  /** Each connection replays the log from the client's Last-Event-ID, or from earlier. */
  ghost predicate ReplaysOne(c: Client, stream: seq<Event>, log: seq<Event>, from: nat, to: nat) {
    from <= |Durable(c.applied)| && Serves(stream, log, c.sequence, from, to)
  }

  ghost predicate Replays(streams: seq<seq<Event>>, log: seq<Event>, froms: seq<nat>, tos: seq<nat>) {
    |froms| == |streams| == |tos| &&
    (streams == [] ||
     var n := |streams| - 1;
     Replays(streams[..n], log, froms[..n], tos[..n]) &&
       ReplaysOne(Reconnect(NewClient, streams[..n]), streams[n], log, froms[n], tos[n]))
  }

  function Furthest(tos: seq<nat>): nat {
    if tos == [] then 0 else Further(Furthest(tos[..|tos| - 1]), tos[|tos| - 1])
  }

  /**
    Wherever the connections break, the events applied are exactly the log up to the furthest point
    any connection reached: each once, in order, none missing.
  */
  lemma {:induction false} ResumeIsExact(streams: seq<seq<Event>>, log: seq<Event>, froms: seq<nat>, tos: seq<nat>)
    requires Log(log) && Replays(streams, log, froms, tos)
    ensures At(Reconnect(NewClient, streams), log, Furthest(tos))
  {
    if streams != [] {
      var n := |streams| - 1;
      ResumeIsExact(streams[..n], log, froms[..n], tos[..n]);
      OneMore(Reconnect(NewClient, streams[..n]), streams[n], log, Furthest(tos[..n]), froms[n], tos[n]);
    } else {
      assert log[..0] == [];
    }
  }

  lemma OneMore(c: Client, stream: seq<Event>, log: seq<Event>, n: nat, from: nat, to: nat)
    requires Log(log) && At(c, log, n) && ReplaysOne(c, stream, log, from, to)
    ensures At(Follow(c, stream), log, Further(n, to))
  {
    StreamAdvances(c, log, n, stream, c.sequence, from, to);
  }

  ghost predicate Skipped(c: Client, log: seq<Event>, n: nat, a: nat, b: nat) {
    && n <= a <= b <= |log| && Durable(c.applied) == log[..n] + log[a..b]
    && c.sequence <= Mark(log, b) && (c.done ==> b == |log|)
  }

  lemma SkipBeat(c: Client, log: seq<Event>, n: nat, a: nat, b: nat, e: Event)
    requires Skipped(c, log, n, a, b) && e.name == Heartbeat && e.sequence <= Mark(log, b)
    ensures Skipped(Receive(c, e), log, n, a, b)
  {
    assert (c.applied + [e])[..|c.applied|] == c.applied;
    HeartbeatIsNotTerminal();
  }

  lemma SkipLogged(c: Client, log: seq<Event>, n: nat, a: nat, b: nat)
    requires Log(log) && Skipped(c, log, n, a, b) && b < |log|
    ensures Skipped(Receive(c, log[b]), log, n, a, b + 1)
  {
    MarkOrder(log, b + 1, b);
    assert (c.applied + [log[b]])[..|c.applied|] == c.applied;
    assert log[a..b + 1] == log[a..b] + [log[b]];
  }

  lemma NothingSkipped(c: Client, log: seq<Event>, n: nat, a: nat)
    requires Log(log) && At(c, log, n) && n < a <= |log|
    ensures Skipped(c, log, n, a, a)
  {
    MarkOrder(log, n, a);
    assert log[..n] + log[a..a] == log[..n];
  }

  lemma LateMark(log: seq<Event>, start: int, n: nat, b: nat)
    requires Log(log) && n <= b <= |log| && start == Mark(log, n)
    ensures Larger(start, Mark(log, b)) == Mark(log, b)
  {
    MarkOrder(log, n, b);
  }

  /** A connection that starts past the client's place applies what it brings and loses what it left out. */
  lemma {:induction false} StreamSkips(c: Client, log: seq<Event>, n: nat, stream: seq<Event>, start: int, a: nat,
                                       b: nat)
    requires Log(log) && At(c, log, n) && start == Mark(log, n) && Serves(stream, log, start, a, b) && n < a
    ensures Skipped(Follow(c, stream), log, n, a, b)
    decreases |stream|
  {
    if stream == [] {
      NothingSkipped(c, log, n, a);
    } else {
      var k := |stream| - 1;
      if stream[k].name == Heartbeat {
        StreamSkips(c, log, n, stream[..k], start, a, b);
        LateMark(log, start, n, b);
        SkipBeat(Follow(c, stream[..k]), log, n, a, b, stream[k]);
      } else {
        StreamSkips(c, log, n, stream[..k], start, a, b - 1);
        SkipLogged(Follow(c, stream[..k]), log, n, a, b - 1);
      }
      FollowLast(c, stream);
    }
  }

  ghost predicate Prefix(es: seq<Event>, log: seq<Event>) { |es| <= |log| && es == log[..|es|] }

  /**
    The events applied stay a prefix of the log exactly when the replay starts no later than the
    client's place, or brings nothing.
  */
  lemma GapIsLoss(c: Client, log: seq<Event>, n: nat, stream: seq<Event>, a: nat, b: nat)
    requires Log(log) && At(c, log, n) && Serves(stream, log, c.sequence, a, b)
    ensures Prefix(Durable(Follow(c, stream).applied), log) <==> a <= n || a == b
  {
    if a <= n {
      StreamAdvances(c, log, n, stream, c.sequence, a, b);
    } else {
      StreamSkips(c, log, n, stream, c.sequence, a, b);
      var got := log[..n] + log[a..b];
      if a == b {
        assert got == log[..n];
      } else {
        assert got[n] == log[a] && log[n].sequence < log[a].sequence;
      }
    }
  }

  /** The server's reading of the header the client sends: anything but a number starts from the beginning. */
  function LastEventId(raw: Option<string>): int {
    if raw.None? || ReadInt(Strip(raw.value)).None? then 0 else Larger(0, ReadInt(Strip(raw.value)).value)
  }

  /** The place a client names when it reconnects is the place the server replays from. */
  lemma HeaderRoundTrip(n: nat)
    ensures LastEventId(Some(Digits(n))) == n
  {
    DigitsAreDigits(n);
    var s := Digits(n);
    assert !Space(s[0]) && !Space(s[|s| - 1]);
    assert Strip(s) == s;
    NumberRoundTrip(n);
  }
}
