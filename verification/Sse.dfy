/** The parser of the server-sent event tail. Each chunk of bytes is decoded by itself, and the
    text is read line by line. */
module Sse {
  import opened Wrappers
  import opened Bytes
  import opened Utf8

  datatype Frame = Frame(id: Option<string>, event: Option<string>, data: seq<string>)

  const NO_FIELDS := Frame(None, None, [])

  /** The characters Unicode calls white space. */
  predicate IsSpace(c: char) {
    var n := c as int;
    || 9 <= n <= 13 || n == 0x20 || n == 0x85 || n == 0xA0 || n == 0x1680 || 0x2000 <= n <= 0x200A
    || n == 0x2028 || n == 0x2029 || n == 0x202F || n == 0x205F || n == 0x3000
  }

  function TrimStart(s: string): (t: string)
    ensures |t| <= |s| && (t != [] ==> !IsSpace(t[0]))
  {
    if s != [] && IsSpace(s[0]) then TrimStart(s[1..]) else s
  }

  function TrimEnd(s: string): (t: string)
    ensures t <= s && (t != [] ==> !IsSpace(t[|t| - 1]))
  {
    if s != [] && IsSpace(s[|s| - 1]) then TrimEnd(s[..|s| - 1]) else s
  }

  function Trim(s: string): string { TrimEnd(TrimStart(s)) }

  // ---- One character at a time -------------------------------------------------------------------

  datatype State = State(buf: string, frame: Frame, out: seq<Frame>)

  function DropReturn(line: string): string {
    if line != [] && line[|line| - 1] == '\r' then line[..|line| - 1] else line
  }

  /** One line: a blank one ends the frame, a field is set or added, anything else is passed
      over. */
  function TakeLine(line: string, frame: Frame, out: seq<Frame>): (Frame, seq<Frame>) {
    var l := DropReturn(line);
    if l == [] then (NO_FIELDS, out + [frame])
    else if "id:" <= l then (frame.(id := Some(Trim(l[3..]))), out)
    else if "event:" <= l then (frame.(event := Some(Trim(l[6..]))), out)
    else if "data:" <= l then (frame.(data := frame.data + [TrimStart(l[5..])]), out)
    else (frame, out)
  }

  lemma ReturnDropped(name: string, v: string)
    requires name != [] && name[|name| - 1] == ':'
    ensures DropReturn(name + v) == name + DropReturn(v) && (name + DropReturn(v))[|name|..] == DropReturn(v)
    ensures name <= name + DropReturn(v)
  {
  }

  /** A field name and its colon set the field to the rest, also when nothing follows. */
  lemma FieldLines(v: string, frame: Frame, out: seq<Frame>)
    ensures TakeLine("id:" + v, frame, out) == (frame.(id := Some(Trim(DropReturn(v)))), out)
    ensures TakeLine("event:" + v, frame, out) == (frame.(event := Some(Trim(DropReturn(v)))), out)
    ensures TakeLine("data:" + v, frame, out) == (frame.(data := frame.data + [TrimStart(DropReturn(v))]), out)
  {
    hide Trim, TrimStart, DropReturn;
    ReturnDropped("id:", v);
    ReturnDropped("event:", v);
    ReturnDropped("data:", v);
  }

  function Read(s: State, c: char): State {
    if c != '\n' then s.(buf := s.buf + [c])
    else
      var (frame, out) := TakeLine(s.buf, s.frame, s.out);
      State([], frame, out)
  }

  function ReadAll(s: State, text: string): State {
    if text == [] then s else Read(ReadAll(s, text[..|text| - 1]), text[|text| - 1])
  }

  lemma {:induction false} ReadConcat(s: State, a: string, b: string)
    ensures ReadAll(s, a + b) == ReadAll(ReadAll(s, a), b)
    decreases |b|
  {
    if b == [] {
      assert a + b == a;
    } else {
      ReadConcat(s, a, b[..|b| - 1]);
      assert (a + b)[..|a + b| - 1] == a + b[..|b| - 1];
    }
  }

  /** Text without a newline only fills the buffer. */
  lemma {:induction false} ReadPlain(s: State, text: string)
    requires '\n' !in text
    ensures ReadAll(s, text) == s.(buf := s.buf + text)
  {
    if text != [] {
      ReadPlain(s, text[..|text| - 1]);
      assert s.buf + text == (s.buf + text[..|text| - 1]) + [text[|text| - 1]];
    } else {
      assert s.buf + text == s.buf;
    }
  }

  /** A line read into an empty buffer leaves it empty. */
  lemma ReadLine(s: State, line: string)
    requires s.buf == [] && '\n' !in line
    ensures ReadAll(s, line + ['\n']) == State([], TakeLine(line, s.frame, s.out).0, TakeLine(line, s.frame, s.out).1)
  {
    ReadPlain(s, line);
    assert (line + ['\n'])[..|line|] == line;
    assert s.buf + line == line;
  }

  lemma ReadBuffered(frame: Frame, out: seq<Frame>, buf: string)
    requires '\n' !in buf
    ensures ReadAll(State([], frame, out), buf) == State(buf, frame, out)
  {
    ReadPlain(State([], frame, out), buf);
    assert [] + buf == buf;
  }

  /** The first line off the front of a text. */
  lemma ReadFirstLine(frame: Frame, out: seq<Frame>, text: string, at: nat)
    requires at < |text| && text[at] == '\n' && '\n' !in text[..at]
    ensures var taken := TakeLine(text[..at], frame, out);
            ReadAll(State([], frame, out), text) == ReadAll(State([], taken.0, taken.1), text[at + 1..])
  {
    hide ReadAll, TakeLine;
    var line := text[..at];
    ReadLine(State([], frame, out), line);
    ReadConcat(State([], frame, out), line + ['\n'], text[at + 1..]);
    assert text == (line + ['\n']) + text[at + 1..];
  }

  // ---- The parser -----------------------------------------------------------------------------------

  method FindNewline(s: string) returns (at: Option<nat>)
    ensures at.None? <==> '\n' !in s
    ensures at.Some? ==> at.value < |s| && s[at.value] == '\n' && '\n' !in s[..at.value]
  {
    for i := 0 to |s|
      invariant '\n' !in s[..i]
    {
      if s[i] == '\n' {
        return Some(i);
      }
    }
    at := None;
  }

  class Parser {
    var buf: string
    var frame: Frame
    var out: seq<Frame>

    constructor ()
      ensures Valid() && Machine() == State([], NO_FIELDS, [])
    {
      buf, frame, out := [], NO_FIELDS, [];
    }

    ghost predicate Valid()
      reads this
    {
      '\n' !in buf
    }

    ghost function Machine(): State
      reads this
    {
      State(buf, frame, out)
    }

    /** Takes every whole line out of the buffer: what reading the decoded chunk character by
        character would leave. */
    method Feed(chunk: Bytes)
      requires Valid()
      modifies this
      ensures Valid() && Machine() == ReadAll(old(Machine()), Lossy(chunk))
    {
      var text := Lossy(chunk);
      ghost var goal := ReadAll(Machine(), text);
      hide ReadAll, TakeLine, Lossy;
      ReadBuffered(frame, out, buf);
      ReadConcat(State([], frame, out), buf, text);
      buf := buf + text;
      var newline: Option<nat> := FindNewline(buf);
      while newline.Some?
        invariant newline.None? <==> '\n' !in buf
        invariant newline.Some? ==> newline.value < |buf| && buf[newline.value] == '\n' && '\n' !in buf[..newline.value]
        invariant ReadAll(State([], frame, out), buf) == goal
        decreases |buf|
      {
        ReadFirstLine(frame, out, buf, newline.value);
        var line := buf[..newline.value];
        buf := buf[newline.value + 1..];
        var taken := TakeLine(line, frame, out);
        frame, out := taken.0, taken.1;
        newline := FindNewline(buf);
      }
      ReadBuffered(frame, out, buf);
    }

    method NextFrame() returns (next: Option<Frame>)
      requires Valid()
      modifies this
      ensures Valid() && buf == old(buf) && frame == old(frame)
      ensures old(out) == [] ==> next.None? && out == []
      ensures old(out) != [] ==> next == Some(old(out)[0]) && out == old(out)[1..]
    {
      if out == [] {
        return None;
      }
      next := Some(out[0]);
      out := out[1..];
    }
  }

  const START := State([], NO_FIELDS, [])

  /** Feeding pieces gives the frames and leftover of their decoded text, and so of the text of
      the whole exactly where every cut is clean. */
  method FeedAll(pieces: seq<Bytes>) returns (machine: State)
    ensures machine == ReadAll(START, Decoded(pieces))
    ensures CleanCuts(pieces) ==> machine == ReadAll(START, Lossy(Flatten(pieces)))
  {
    DecodedIff(pieces);
    hide Lossy, ReadAll, Flatten, CleanCuts;
    var parser := new Parser();
    assert pieces[..0] == [];
    NothingRead();
    for k := 0 to |pieces|
      invariant parser.Valid() && parser.Machine() == ReadAll(START, Decoded(pieces[..k]))
      invariant fresh(parser)
    {
      assert pieces[..k + 1] == pieces[..k] + [pieces[k]];
      DecodedSnoc(pieces[..k], pieces[k]);
      ReadConcat(START, Decoded(pieces[..k]), Lossy(pieces[k]));
      parser.Feed(pieces[k]);
    }
    assert pieces[..|pieces|] == pieces;
    machine := State(parser.buf, parser.frame, parser.out);
  }

  lemma NothingRead()
    ensures ReadAll(START, Decoded([])) == START
  {
  }

  // ---- Printing and parsing back ----------------------------------------------------------------------

  function PrintField(prefix: string, value: Option<string>): string {
    if value.None? then [] else prefix + value.value + ['\n']
  }

  function DataLine(v: string): string { "data: " + v + ['\n'] }

  function PrintData(data: seq<string>): string {
    if data == [] then [] else PrintData(data[..|data| - 1]) + DataLine(data[|data| - 1])
  }

  function Print(f: Frame): string {
    PrintField("id: ", f.id) + PrintField("event: ", f.event) + PrintData(f.data) + ['\n']
  }

  function PrintAll(frames: seq<Frame>): string {
    if frames == [] then [] else PrintAll(frames[..|frames| - 1]) + Print(frames[|frames| - 1])
  }

  predicate Trimmed(v: string) { '\n' !in v && Trim(v) == v }

  /** No newline, no white space in front, no carriage return at the end. */
  predicate CleanData(v: string) {
    '\n' !in v && (v != [] ==> !IsSpace(v[0]) && v[|v| - 1] != '\r')
  }

  ghost predicate Printable(f: Frame) {
    && (f.id.Some? ==> Trimmed(f.id.value)) && (f.event.Some? ==> Trimmed(f.event.value))
    && forall i | 0 <= i < |f.data| :: CleanData(f.data[i])
  }

  /** A newline-free value survives a data line exactly when it is clean. */
  lemma DataLineIff(v: string, frame: Frame, out: seq<Frame>)
    requires '\n' !in v
    ensures TakeLine("data: " + v, frame, out) == (frame.(data := frame.data + [v]), out) <==> CleanData(v)
  {
    var line := "data: " + v;
    var l := DropReturn(line);
    assert "data:" <= l;
    assert l[0] == 'd';
    assert TrimStart(l[5..]) == TrimStart(l[6..]) by { assert l[5..][1..] == l[6..]; }
    if v != [] && v[|v| - 1] == '\r' {
      assert l[6..] == v[..|v| - 1];
    } else {
      assert l == line && l[6..] == v;
    }
    assert (frame.data + [TrimStart(l[5..])])[|frame.data|] == TrimStart(l[5..]);
    assert (frame.data + [v])[|frame.data|] == v;
  }

  lemma TrimSpaced(v: string)
    ensures Trim([' '] + v) == Trim(v)
    ensures Trim(v) == v && v != [] ==> !IsSpace(v[|v| - 1])
  {
    assert ([' '] + v)[1..] == v;
  }

  /** A field line ends in its value, or in the blank before it, and so in no carriage return. */
  lemma FieldLine(prefix: string, v: string)
    requires prefix != [] && prefix[|prefix| - 1] == ' ' && Trimmed(v)
    ensures DropReturn(prefix + v) == prefix + v
  {
    TrimSpaced(v);
    var line := prefix + v;
    assert line[|line| - 1] == if v == [] then ' ' else v[|v| - 1];
  }

  lemma IdLine(v: string, frame: Frame, out: seq<Frame>)
    requires Trimmed(v)
    ensures TakeLine("id: " + v, frame, out) == (frame.(id := Some(v)), out)
  {
    FieldLine("id: ", v);
    TrimSpaced(v);
    var line := "id: " + v;
    assert line[0] == 'i' && "id:" <= line && line[3..] == [' '] + v;
    hide Trim, DropReturn;
  }

  lemma EventLine(v: string, frame: Frame, out: seq<Frame>)
    requires Trimmed(v)
    ensures TakeLine("event: " + v, frame, out) == (frame.(event := Some(v)), out)
  {
    FieldLine("event: ", v);
    TrimSpaced(v);
    var line := "event: " + v;
    assert line[0] == 'e' && "event:" <= line && line[6..] == [' '] + v;
    hide Trim, DropReturn;
  }

  lemma ReadId(frame: Frame, out: seq<Frame>, id: Option<string>)
    requires id.Some? ==> Trimmed(id.value)
    ensures ReadAll(State([], frame, out), PrintField("id: ", id))
            == State([], if id.Some? then frame.(id := id) else frame, out)
  {
    if id.Some? {
      IdLine(id.value, frame, out);
      hide TakeLine, ReadAll, Trimmed;
      ReadLine(State([], frame, out), "id: " + id.value);
    }
  }

  lemma ReadEvent(frame: Frame, out: seq<Frame>, event: Option<string>)
    requires event.Some? ==> Trimmed(event.value)
    ensures ReadAll(State([], frame, out), PrintField("event: ", event))
            == State([], if event.Some? then frame.(event := event) else frame, out)
  {
    if event.Some? {
      EventLine(event.value, frame, out);
      hide TakeLine, ReadAll, Trimmed;
      ReadLine(State([], frame, out), "event: " + event.value);
    }
  }

  lemma ReadDataLine(frame: Frame, out: seq<Frame>, v: string)
    requires CleanData(v)
    ensures ReadAll(State([], frame, out), DataLine(v)) == State([], frame.(data := frame.data + [v]), out)
  {
    DataLineIff(v, frame, out);
    hide TakeLine, ReadAll;
    ReadLine(State([], frame, out), "data: " + v);
  }

  lemma {:induction false} ReadData(frame: Frame, out: seq<Frame>, data: seq<string>)
    requires forall i | 0 <= i < |data| :: CleanData(data[i])
    ensures ReadAll(State([], frame, out), PrintData(data)) == State([], frame.(data := frame.data + data), out)
  {
    hide CleanData, DataLine, Read;
    if data == [] {
      assert frame.data + data == frame.data;
    } else {
      var init, last := data[..|data| - 1], data[|data| - 1];
      ReadData(frame, out, init);
      var mid := frame.(data := frame.data + init);
      ReadDataLine(mid, out, last);
      assert mid.data + [last] == frame.data + data;
      ReadConcat(State([], frame, out), PrintData(init), DataLine(last));
    }
  }

  lemma ReadFrame(out: seq<Frame>, f: Frame)
    requires Printable(f)
    ensures ReadAll(State([], NO_FIELDS, out), Print(f)) == State([], NO_FIELDS, out + [f])
  {
    var s0 := State([], NO_FIELDS, out);
    var withId := NO_FIELDS.(id := f.id);
    var withEvent := withId.(event := f.event);
    ReadId(NO_FIELDS, out, f.id);
    ReadEvent(withId, out, f.event);
    ReadData(withEvent, out, f.data);
    assert withEvent.(data := withEvent.data + f.data) == f;
    ReadLine(State([], f, out), []);
    assert [] + ['\n'] == ['\n'];
    assert TakeLine([], f, out) == (NO_FIELDS, out + [f]);
    hide TakeLine, ReadAll, Print, PrintData, PrintField;
    ReadConcat(s0, PrintField("id: ", f.id), PrintField("event: ", f.event));
    ReadConcat(s0, PrintField("id: ", f.id) + PrintField("event: ", f.event), PrintData(f.data));
    ReadConcat(s0, PrintField("id: ", f.id) + PrintField("event: ", f.event) + PrintData(f.data), ['\n']);
    PrintIs(f);
  }

  lemma PrintIs(f: Frame)
    ensures Print(f) == PrintField("id: ", f.id) + PrintField("event: ", f.event) + PrintData(f.data) + ['\n']
  {
  }

  /** Parsing the printed form of any list of printable frames gives the list back. */
  lemma {:induction false} PrintedParses(frames: seq<Frame>)
    requires forall i | 0 <= i < |frames| :: Printable(frames[i])
    ensures ReadAll(State([], NO_FIELDS, []), PrintAll(frames)) == State([], NO_FIELDS, frames)
  {
    hide Print, Read, Printable;
    if frames != [] {
      var init, last := frames[..|frames| - 1], frames[|frames| - 1];
      PrintedParses(init);
      ReadFrame(init, last);
      ReadConcat(State([], NO_FIELDS, []), PrintAll(init), Print(last));
      assert init + [last] == frames;
    }
  }

  // ---- Cuts inside a character ----------------------------------------------------------------------

  lemma TrimmedIff(v: string)
    ensures Trim(v) == v <==> v == [] || (!IsSpace(v[0]) && !IsSpace(v[|v| - 1]))
  {
    if v != [] && IsSpace(v[0]) { assert |TrimStart(v)| < |v|; }
  }

  /** What a mangled value still has: no new line end, and no new white space at its ends. */
  lemma {:induction false} MangledValue(v: string, v': string)
    requires Mangled(v, v')
    ensures '\n' !in v ==> '\n' !in v'
    ensures v == [] <==> v' == []
    ensures v != [] ==> v'[0] == v[0] || v'[0] == REPLACEMENT
    ensures v != [] ==> v'[|v'| - 1] == v[|v| - 1] || v'[|v'| - 1] == REPLACEMENT
  {
    MangledLonger(v, v');
    if v == [] {
      MangledAscii(v, v');
    } else {
      var init, last := v[..|v| - 1], v[|v| - 1];
      assert v == init + [last];
      var a, b := MangledSplit(init, [last], v');
      OneWord(last, b);
      MangledValue(init, a);
      hide Mangled;
    }
  }

  lemma MangledTrimmed(v: string, v': string)
    requires Trimmed(v) && Mangled(v, v')
    ensures Trimmed(v')
  {
    MangledValue(v, v');
    TrimmedIff(v);
    TrimmedIff(v');
    hide Mangled, Trim;
  }

  lemma MangledClean(v: string, v': string)
    requires CleanData(v) && Mangled(v, v')
    ensures CleanData(v')
  {
    MangledValue(v, v');
    hide Mangled;
  }

  /** A prefix, a value and a line end: only the value can change. */
  lemma MangledLine(prefix: string, v: string, other: string) returns (v': string)
    requires Mangled(prefix + v + ['\n'], other) && forall i | 0 <= i < |prefix| :: prefix[i] as int < 0x80
    ensures Mangled(v, v') && other == prefix + v' + ['\n']
  {
    var head, tail := MangledSplit(prefix + v, ['\n'], other);
    MangledAscii(['\n'], tail);
    var p;
    p, v' := MangledSplit(prefix, v, head);
    MangledAscii(prefix, p);
  }

  lemma MangledField(prefix: string, value: Option<string>, other: string) returns (value': Option<string>)
    requires Mangled(PrintField(prefix, value), other) && forall i | 0 <= i < |prefix| :: prefix[i] as int < 0x80
    requires value.Some? ==> Trimmed(value.value)
    ensures other == PrintField(prefix, value') && (value'.Some? ==> Trimmed(value'.value))
  {
    if value.None? {
      MangledAscii([], other);
      value' := None;
    } else {
      var v' := MangledLine(prefix, value.value, other);
      MangledTrimmed(value.value, v');
      value' := Some(v');
    }
  }

  lemma {:induction false} MangledData(data: seq<string>, other: string) returns (data': seq<string>)
    requires Mangled(PrintData(data), other) && forall i | 0 <= i < |data| :: CleanData(data[i])
    ensures other == PrintData(data') && forall i | 0 <= i < |data'| :: CleanData(data'[i])
  {
    hide Mangled, CleanData;
    if data == [] {
      MangledAscii([], other);
      data' := [];
    } else {
      var init, last := data[..|data| - 1], data[|data| - 1];
      var a, b := MangledSplit(PrintData(init), DataLine(last), other);
      var init' := MangledData(init, a);
      var last' := MangledLine("data: ", last, b);
      MangledClean(last, last');
      data' := init' + [last'];
      assert data'[..|init'|] == init';
    }
  }

  /** A mangled printed frame is the printed form of some frame. */
  lemma MangledFrame(f: Frame, other: string) returns (f': Frame)
    requires Mangled(Print(f), other) && Printable(f)
    ensures other == Print(f') && Printable(f')
  {
    PrintIs(f);
    hide Mangled, Print, PrintField, PrintData, CleanData, Trimmed;
    var first, second, third := PrintField("id: ", f.id), PrintField("event: ", f.event), PrintData(f.data);
    var rest, end := MangledSplit(first + second + third, ['\n'], other);
    MangledAscii(['\n'], end);
    var fields, data := MangledSplit(first + second, third, rest);
    var id, event := MangledSplit(first, second, fields);
    var id' := MangledField("id: ", f.id, id);
    var event' := MangledField("event: ", f.event, event);
    var data' := MangledData(f.data, data);
    f' := Frame(id', event', data');
    PrintIs(f');
  }

  lemma {:induction false} MangledFrames(frames: seq<Frame>, other: string) returns (frames': seq<Frame>)
    requires Mangled(PrintAll(frames), other) && forall i | 0 <= i < |frames| :: Printable(frames[i])
    ensures other == PrintAll(frames') && forall i | 0 <= i < |frames'| :: Printable(frames'[i])
  {
    hide Mangled, Print, Printable;
    if frames == [] {
      MangledAscii([], other);
      frames' := [];
    } else {
      var init, last := frames[..|frames| - 1], frames[|frames| - 1];
      var a, b := MangledSplit(PrintAll(init), Print(last), other);
      var init' := MangledFrames(init, a);
      var last' := MangledFrame(last, b);
      frames' := init' + [last'];
      assert frames'[..|init'|] == init';
    }
  }

  /** However the bytes of printed frames are cut, the parser hands out those very frames
      exactly when no cut falls inside a character. */
  lemma SplitParsesIff(frames: seq<Frame>, pieces: seq<Bytes>)
    requires Flatten(pieces) == EncodeAll(PrintAll(frames)) && forall i | 0 <= i < |frames| :: Printable(frames[i])
    ensures ReadAll(START, Decoded(pieces)) == State([], NO_FIELDS, frames) <==> CleanCuts(pieces)
    ensures CleanCuts(pieces)
            <==> forall k | 0 <= k <= |pieces| :: Between(PrintAll(frames), |Flatten(pieces[..k])|)
  {
    var text := PrintAll(frames);
    DecodesEncoded(text);
    DecodedMangles(pieces);
    DecodedIff(pieces);
    PrintedParses(frames);
    CleanIsBetween(text, pieces);
    hide Mangled, Lossy, PrintAll, ReadAll, CleanCuts, Decoded, Printable, EncodeAll, Flatten, Between;
    var frames' := MangledFrames(frames, Decoded(pieces));
    PrintedParses(frames');
  }

  lemma CleanIsBetween(text: string, pieces: seq<Bytes>)
    requires Flatten(pieces) == EncodeAll(text)
    ensures CleanCuts(pieces) <==> forall k | 0 <= k <= |pieces| :: Between(text, |Flatten(pieces[..k])|)
  {
    hide EncodeAll, Flatten, Boundary, Between;
    forall k | 0 <= k <= |pieces|
      ensures CleanCut(pieces, k) <==> Between(text, |Flatten(pieces[..k])|)
    {
      BetweenCharacters(text, |Flatten(pieces[..k])|);
    }
    hide CleanCut;
    if CleanCuts(pieces) { assert forall k | 0 <= k <= |pieces| :: CleanCut(pieces, k); }
  }

  /** One accented letter, its two bytes in two chunks: the frame arrives with two replacement
      characters instead. */
  method SplitLetter() returns (whole: State, cut: State)
    ensures whole.out == [Frame(None, None, [[0xE9 as char]])]
    ensures cut.out == [Frame(None, None, [[REPLACEMENT, REPLACEMENT]])]
  {
    var before, after := "data: ", "\n\n";
    var head, tail: Bytes := EncodeAll(before) + [0xC3], [0xA9] + EncodeAll(after);
    hide *;
    Letter(before, after, head, tail);
    whole := FeedAll([head + tail]);
    cut := FeedAll([head, tail]);
  }

  lemma Letter(before: string, after: string, head: Bytes, tail: Bytes)
    requires before == "data: " && after == "\n\n"
    requires head == EncodeAll(before) + [0xC3] && tail == [0xA9] + EncodeAll(after)
    ensures ReadAll(START, Decoded([head + tail])).out == [Frame(None, None, [[0xE9 as char]])]
    ensures ReadAll(START, Decoded([head, tail])).out == [Frame(None, None, [[REPLACEMENT, REPLACEMENT]])]
  {
    var letter, pair := [0xE9 as char], [REPLACEMENT, REPLACEMENT];
    assert CleanData(letter) && CleanData(pair);
    hide *;
    LetterText(before, after, head, tail);
    LetterFrame(before, after, letter);
    LetterFrame(before, after, pair);
  }

  /** The two bytes of the letter, together and apart. */
  lemma LetterUnits(rest: Bytes)
    ensures Lossy([0xC3] + ([0xA9] + rest)) == [0xE9 as char] + Lossy(rest)
    ensures Lossy([0xC3]) == [REPLACEMENT] && Lossy([0xA9] + rest) == [REPLACEMENT] + Lossy(rest)
  {
    var both, second: Bytes := [0xC3] + ([0xA9] + rest), [0xA9] + rest;
    LossyFirst([0xC3]);
    LossyFirst(both);
    LossyFirst(second);
    assert UnitLen([0xC3]) == 1 && UnitLen(both) == 2 && UnitLen(second) == 1;
    assert UnitChar([0xC3]) == UnitChar(second) == REPLACEMENT && UnitChar(both) == 0xE9 as char;
    assert both[2..] == rest && second[1..] == rest && [0xC3][1..] == [] && Lossy([]) == [];
    hide Lossy, UnitLen, UnitChar;
  }

  lemma LetterText(before: string, after: string, head: Bytes, tail: Bytes)
    requires head == EncodeAll(before) + [0xC3] && tail == [0xA9] + EncodeAll(after)
    ensures Decoded([head + tail]) == before + [0xE9 as char] + after
    ensures Decoded([head, tail]) == before + [REPLACEMENT, REPLACEMENT] + after
  {
    hide Lossy, EncodeAll, Decoded;
    DecodesEncoded(after);
    LetterUnits(EncodeAll(after));
    EncodedThen(before, [0xC3]);
    EncodedThen(before, [0xC3] + tail);
    Regroup(EncodeAll(before), [0xC3], tail);
    DecodedOne(head + tail);
    DecodedTwo(head, tail);
    Regroup(before, [0xE9 as char], after);
    assert (before + [REPLACEMENT]) + ([REPLACEMENT] + after) == before + [REPLACEMENT, REPLACEMENT] + after;
  }

  lemma DecodedOne(a: Bytes)
    ensures Decoded([a]) == Lossy(a)
  {
    hide Lossy;
    assert [a][1..] == [] && Decoded([]) == [] && Lossy(a) + [] == Lossy(a);
  }

  lemma DecodedTwo(a: Bytes, b: Bytes)
    ensures Decoded([a, b]) == Lossy(a) + Lossy(b)
  {
    hide Lossy;
    DecodedOne(b);
    assert [a, b][1..] == [b];
  }

  lemma PrintOne(v: string)
    ensures PrintAll([Frame(None, None, [v])]) == DataLine(v) + ['\n']
  {
    var f := Frame(None, None, [v]);
    assert [f][..0] == [] && PrintAll([]) == [] && PrintAll([f]) == [] + Print(f);
    assert [v][..0] == [] && PrintData([]) == [] && PrintData([v]) == [] + DataLine(v);
    hide PrintAll, PrintData, DataLine;
    assert Print(f) == [] + [] + ([] + DataLine(v)) + ['\n'];
  }

  lemma LetterFrame(before: string, after: string, v: string)
    requires before == "data: " && after == "\n\n" && CleanData(v)
    ensures ReadAll(START, before + v + after).out == [Frame(None, None, [v])]
  {
    PrintOne(v);
    assert DataLine(v) == before + v + ['\n'] && after == ['\n'] + ['\n'];
    Regroup(before + v, ['\n'], ['\n']);
    hide ReadAll, PrintAll, DataLine, CleanData;
    PrintedParses([Frame(None, None, [v])]);
  }
}
