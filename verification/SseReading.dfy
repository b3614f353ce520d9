/**
  How an event stream is read: where lines end, what a field is, what a frame of fields amounts to,
  and what a client makes of an event and a server of the header, on the characters themselves.
*/
module SseReading {
  import opened Wrappers
  import opened TextOrder
  import opened Sse

  // ---------------------------------------------------------------- lines

  const Boundaries: set<int> := {10, 11, 12, 13, 28, 29, 30, 133, 8232, 8233}

  /** The code points that end a line. */
  lemma BreaksListed(c: char)
    ensures Break(c) <==> c as int in Boundaries
  {
  }

  lemma FirstEnd(line: string, rest: string)
    requires Unbroken(line) && rest != "" && Break(rest[0])
    ensures FirstBreak(line + rest) == |line|
  {
    var s := line + rest;
    forall i | 0 <= i < |line|
      ensures s[i] == line[i]
    {
    }
    assert s[|line|] == rest[0];
    BreakIs(s, |line|);
  }

  lemma OneEnds(line: string, c: char, rest: string)
    requires Unbroken(line) && Break(c) && !(c == '\r' && rest != "" && rest[0] == '\n')
    ensures SplitLines(line + [c] + rest) == [line] + SplitLines(rest)
  {
    var s := line + [c] + rest;
    assert s == line + ([c] + rest);
    FirstEnd(line, [c] + rest);
    assert s[..|line|] == line && s[|line| + 1..] == rest && s[|line|] == c;
    if rest != "" {
      assert s[|line| + 1] == rest[0];
    }
  }

  lemma TwoEnd(line: string, rest: string)
    requires Unbroken(line)
    ensures SplitLines(line + ['\r', '\n'] + rest) == [line] + SplitLines(rest)
  {
    var s := line + ['\r', '\n'] + rest;
    assert s == line + (['\r', '\n'] + rest);
    FirstEnd(line, ['\r', '\n'] + rest);
    assert s[..|line|] == line && s[|line| + 2..] == rest && s[|line|] == '\r' && s[|line| + 1] == '\n';
  }

  /** A line ends at each boundary, but a carriage return and the line feed after it are one. */
  lemma LinesEnd(line: string, c: char, rest: string)
    requires Unbroken(line) && Break(c)
    ensures !(c == '\r' && rest != "" && rest[0] == '\n') ==>
              SplitLines(line + [c] + rest) == [line] + SplitLines(rest)
    ensures SplitLines(line + ['\r', '\n'] + rest) == [line] + SplitLines(rest)
    ensures line != "" ==> SplitLines(line) == [line]
    ensures SplitLines("") == []
  {
    SplitLast(line);
    TwoEnd(line, rest);
    if !(c == '\r' && rest != "" && rest[0] == '\n') {
      OneEnds(line, c, rest);
    }
  }

  // ---------------------------------------------------------------- fields

  lemma {:induction false} ColonAt(key: string, rest: string)
    requires ':' !in key && (rest == "" || rest[0] == ':')
    ensures Colon(key + rest) == |key|
  {
    if key == "" {
      assert key + rest == rest;
    } else {
      assert (key + rest)[1..] == key[1..] + rest;
      assert forall c :: c in key[1..] ==> c in key;
      ColonAt(key[1..], rest);
    }
  }

  /** A field is named up to its first colon; one space after that is no part of its value. */
  lemma FieldMeans(key: string, value: string)
    requires ':' !in key
    ensures KeyOf(key + ":" + value) == key
    ensures ValueOf(key + ":" + value) == if value != "" && value[0] == ' ' then value[1..] else value
    ensures KeyOf(key) == key && ValueOf(key) == ""
  {
    ColonAt(key, ":" + value);
    ColonAt(key, "");
    assert key + ":" + value == key + (":" + value);
    assert key + "" == key;
    var line := key + ":" + value;
    assert line[|key| + 1..] == value && line[..|key|] == key;
  }

  // ---------------------------------------------------------------- frames

  predicate Comment(line: string) { line != "" && line[0] == ':' }

  /** The value of the last field of the name. */
  function LastValue(frame: seq<string>, key: string, default: string): string {
    if frame == [] then default
    else
      var n := |frame| - 1;
      if !Comment(frame[n]) && KeyOf(frame[n]) == key then ValueOf(frame[n]) else LastValue(frame[..n], key, default)
  }

  /** The values of the data fields, in order. */
  function DataValues(frame: seq<string>): seq<string> {
    if frame == [] then []
    else
      var n := |frame| - 1;
      DataValues(frame[..n]) +
        (if !Comment(frame[n]) && KeyOf(frame[n]) == "data" then [ValueOf(frame[n])] else [])
  }

  /** The characters of all values. */
  function FrameSize(frame: seq<string>): nat {
    if frame == [] then 0
    else
      var n := |frame| - 1;
      FrameSize(frame[..n]) + if Comment(frame[n]) then 0 else |ValueOf(frame[n])|
  }

  /** Texts one below the other. */
  function Stacked(texts: seq<string>): string {
    if texts == [] then ""
    else if |texts| == 1 then texts[0]
    else Stacked(texts[..|texts| - 1]) + "\n" + texts[|texts| - 1]
  }

  lemma {:induction false} JoinedAppend(texts: seq<string>, last: string)
    requires texts != []
    ensures Joined(texts + [last]) == Joined(texts) + "\n" + last
  {
    if |texts| == 1 {
      assert (texts + [last])[1..] == [last];
    } else {
      assert (texts + [last])[1..] == texts[1..] + [last];
      JoinedAppend(texts[1..], last);
    }
  }

  lemma {:induction false} JoinedIsStacked(texts: seq<string>)
    ensures Joined(texts) == Stacked(texts)
  {
    if |texts| > 1 {
      var n := |texts| - 1;
      JoinedIsStacked(texts[..n]);
      JoinedAppend(texts[..n], texts[n]);
      assert texts == texts[..n] + [texts[n]];
    }
  }

  /** A parser that has read the frame so far. */
  function ReadSoFar(frame: seq<string>): Parser {
    Parser(LastValue(frame, "event", "message"), LastValue(frame, "id", "0"), DataValues(frame), FrameSize(frame))
  }

  lemma FieldTaken(frame: seq<string>, line: string)
    requires line != ""
    ensures ReadSoFar(frame + [line]) ==
            if Comment(line) then ReadSoFar(frame) else Taken(ReadSoFar(frame), KeyOf(line), ValueOf(line))
  {
    assert (frame + [line])[..|frame|] == frame;
  }

  lemma {:induction false} SizeGrows(frame: seq<string>, n: nat)
    requires n <= |frame|
    ensures FrameSize(frame[..n]) <= FrameSize(frame)
  {
    if n < |frame| {
      assert frame[..|frame| - 1][..n] == frame[..n];
      SizeGrows(frame[..|frame| - 1], n);
    } else {
      assert frame[..n] == frame;
    }
  }

  /** Fields of a frame, read from the given one on, up to the limit. */
  lemma {:induction false} FieldsRead(frame: seq<string>, k: nat, rest: seq<string>, reader: Reader)
    requires k <= |frame| && "" !in frame && FrameSize(frame[..k]) <= 16777216
    ensures Parse(frame[k..] + rest, ReadSoFar(frame[..k]), reader) ==
            if FrameSize(frame) > 16777216 then Outcome([], Some(TooLarge)) else Parse(rest, ReadSoFar(frame), reader)
    decreases |frame| - k
  {
    if k == |frame| {
      assert frame[..k] == frame && frame[k..] + rest == rest;
    } else {
      var line, lines := frame[k], frame[k..] + rest;
      assert line in frame;
      assert lines[0] == line && lines[1..] == frame[k + 1..] + rest;
      assert frame[..k + 1] == frame[..k] + [line];
      FieldTaken(frame[..k], line);
      SizeGrows(frame, k + 1);
      SizeStep(frame, k);
      if FrameSize(frame[..k + 1]) <= 16777216 {
        FieldsRead(frame, k + 1, rest, reader);
      }
    }
  }

  lemma SizeStep(frame: seq<string>, k: nat)
    requires k < |frame|
    ensures FrameSize(frame[..k + 1]) == FrameSize(frame[..k]) + if Comment(frame[k]) then 0 else |ValueOf(frame[k])|
  {
    assert frame[..k + 1][..k] == frame[..k];
  }

  /**
    A frame of lines before a blank one: too large if its values exceed sixteen mebicharacters;
    nothing without data; else the event named by its last event field, or `message`, with the
    number of its last id field, or zero, and its data fields one below the other; and an error if
    that number is none or negative, or those data no object.
  */
  lemma FrameReads(frame: seq<string>, rest: seq<string>, reader: Reader)
    requires "" !in frame
    ensures Parse(frame + [""] + rest, Fresh, reader) ==
            var number, text := ReadInt(LastValue(frame, "id", "0")), Stacked(DataValues(frame));
            if FrameSize(frame) > 16777216 then Outcome([], Some(TooLarge))
            else if DataValues(frame) == [] then Parse(rest, Fresh, reader)
            else if number.None? || number.value < 0 || !reader.isObject(text) then Outcome([], Some(InvalidEvent))
            else
              var tail := Parse(rest, Fresh, reader);
              Outcome([Event(LastValue(frame, "event", "message"), number.value, text)] + tail.events, tail.error)
  {
    assert frame[..0] == [] && frame[0..] == frame;
    assert frame + [""] + rest == frame + ([""] + rest);
    FieldsRead(frame, 0, [""] + rest, reader);
    assert ([""] + rest)[1..] == rest;
    JoinedIsStacked(DataValues(frame));
  }

  // ---------------------------------------------------------------- numbers and the header

  /** Signs before the digits count, and white space around them does not. */
  lemma SignedReads(n: nat)
    ensures ReadInt("-" + Digits(n)) == Some(0 - n) && ReadInt("+" + Digits(n)) == Some(n)
  {
    DigitsAreDigits(n);
    DigitsReadBack(n);
    var minus, plus := "-" + Digits(n), "+" + Digits(n);
    assert !Space(minus[0]) && !Space(minus[|minus| - 1]) && minus[1..] == Digits(n);
    assert !Space(plus[0]) && !Space(plus[|plus| - 1]) && plus[1..] == Digits(n);
    assert Strip(minus) == minus && Strip(plus) == plus;
  }

  lemma {:induction false} StripTwice(s: string)
    ensures Strip(Strip(s)) == Strip(s)
    decreases |s|
  {
    if s != "" && Space(s[0]) {
      StripTwice(s[1..]);
    } else if s != "" && Space(s[|s| - 1]) {
      StripTwice(s[..|s| - 1]);
    }
  }

  /** A missing, malformed or negative header starts from the beginning; any other from its number. */
  lemma HeaderMeans(raw: string)
    ensures LastEventId(None) == 0
    ensures ReadInt(raw).None? ==> LastEventId(Some(raw)) == 0
    ensures ReadInt(raw).Some? && ReadInt(raw).value <= 0 ==> LastEventId(Some(raw)) == 0
    ensures ReadInt(raw).Some? && ReadInt(raw).value > 0 ==> LastEventId(Some(raw)) == ReadInt(raw).value
  {
    StripTwice(raw);
  }

  // ---------------------------------------------------------------- the client

  /** Until it is done the client applies what is new to it, and every heartbeat, and advances to it. */
  lemma ReceiveMeans(c: Client, e: Event)
    ensures !c.done && (e.sequence > c.sequence || e.name == "interaction.heartbeat") ==>
              && Receive(c, e).applied == c.applied + [e]
              && Receive(c, e).sequence == (if e.sequence > c.sequence then e.sequence else c.sequence)
              && (Receive(c, e).done <==> e.name == "interaction.completed" || e.name == "interaction.failed" ||
                                          e.name == "interaction.cancelled")
    ensures c.done || (e.sequence <= c.sequence && e.name != "interaction.heartbeat") ==> Receive(c, e) == c
  {
  }
}
