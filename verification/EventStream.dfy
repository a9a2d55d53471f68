/** Server-sent events: the frames the chat endpoint prints and the incremental reader of the web client. */
module EventStream {

  datatype Event = Event(name: string, data: string)

  // Text.

  /** White space and line terminators as `trim` removes them (ECMA-262, section 22.1.3.32). */
  predicate IsSpace(c: char) {
    c in {'\t', '\n', '\r', ' ', '\U{000B}', '\U{000C}', '\U{00A0}', '\U{1680}', '\U{2028}', '\U{2029}', '\U{202F}',
          '\U{205F}', '\U{3000}', '\U{FEFF}'}
    || '\U{2000}' <= c <= '\U{200A}'
  }

  function TrimStart(s: string): string {
    if s != "" && IsSpace(s[0]) then TrimStart(s[1..]) else s
  }

  function TrimEnd(s: string): string {
    if s != "" && IsSpace(s[|s| - 1]) then TrimEnd(s[..|s| - 1]) else s
  }

  function Trim(s: string): string {
    TrimEnd(TrimStart(s))
  }

  function NewlineAt(s: string): (i: nat)
    ensures i <= |s| && (forall k :: 0 <= k < i ==> s[k] != '\n') && (i < |s| ==> s[i] == '\n')
  {
    if s == "" || s[0] == '\n' then 0 else 1 + NewlineAt(s[1..])
  }

  function DropCr(s: string): string {
    if s != "" && s[|s| - 1] == '\r' then s[..|s| - 1] else s
  }

  /** `text.split(/\r?\n/)`: the complete lines, then what follows the last newline. */
  function Split(s: string): (lines: seq<string>)
    ensures lines != []
  {
    var i := NewlineAt(s);
    if i == |s| then [s] else [DropCr(s[..i])] + Split(s[i + 1..])
  }

  function Init<T>(s: seq<T>): seq<T>
    requires s != []
  {
    s[..|s| - 1]
  }

  function Last<T>(s: seq<T>): T
    requires s != []
  {
    s[|s| - 1]
  }

  function Join(lines: seq<string>): string {
    if lines == [] then "" else if |lines| == 1 then lines[0] else lines[0] + "\n" + Join(lines[1..])
  }

  predicate StartsWith(s: string, prefix: string) {
    |prefix| <= |s| && s[..|prefix|] == prefix
  }

  // What lines mean.

  /** An event under construction. */
  datatype Pending = Pending(name: string, lines: seq<string>)

  const START := Pending("message", [])

  /** `dispatch`: without data lines it does nothing, so that the event name stays. */
  function Dispatch(p: Pending): (Pending, seq<Event>) {
    if p.lines == [] then (p, []) else (START, [Event(p.name, Join(p.lines))])
  }

  function Step(p: Pending, line: string): (Pending, seq<Event>) {
    if line == "" then Dispatch(p)
    else if StartsWith(line, "event:") then (p.(name := Trim(line[6..])), [])
    else if StartsWith(line, "data:") then (p.(lines := p.lines + [Trim(line[5..])]), [])
    else (p, [])
  }

  function Interpret(p: Pending, lines: seq<string>): (Pending, seq<Event>)
    decreases |lines|
  {
    if lines == [] then (p, [])
    else
      var (p1, e1) := Step(p, lines[0]);
      var (p2, e2) := Interpret(p1, lines[1..]);
      (p2, e1 + e2)
  }

  /** The events of a text read as a whole. An unfinished last line is dropped; pending data are dispatched. */
  function ReadAll(text: string): seq<Event> {
    var (p, events) := Interpret(START, Init(Split(text)));
    events + Dispatch(p).1
  }

  lemma {:induction false} NewlineUnique(s: string, i: nat)
    requires i <= |s| && (i < |s| ==> s[i] == '\n') && forall k :: 0 <= k < i ==> s[k] != '\n'
    ensures NewlineAt(s) == i
  {
    if i > 0 {
      NewlineUnique(s[1..], i - 1);
    }
  }

  lemma {:induction false} SplitAt(s: string, i: nat)
    requires i < |s| && s[i] == '\n' && forall k :: 0 <= k < i ==> s[k] != '\n'
    ensures Split(s) == [DropCr(s[..i])] + Split(s[i + 1..])
  {
    NewlineUnique(s, i);
  }

  /** A newline-free end of the text so far is all that a later read can still change. */
  lemma {:induction false} SplitAppend(a: string, b: string)
    ensures Split(a + b) == Init(Split(a)) + Split(Last(Split(a)) + b)
    decreases |a|
  {
    var i := NewlineAt(a);
    if i < |a| {
      SplitAppend(a[i + 1..], b);
      SplitAppendLine(a, b, i);
    } else {
      assert Split(a) == [a];
      InitOne(a, Split(a + b));
    }
  }

  lemma {:induction false} SplitAppendLine(a: string, b: string, i: nat)
    requires i < |a| && a[i] == '\n' && forall k :: 0 <= k < i ==> a[k] != '\n'
    requires var rest := a[i + 1..]; Split(rest + b) == Init(Split(rest)) + Split(Last(Split(rest)) + b)
    ensures Split(a + b) == Init(Split(a)) + Split(Last(Split(a)) + b)
  {
    var rest, line := a[i + 1..], DropCr(a[..i]);
    SplitPrefix(a, b, i);
    SplitAt(a, i);
    SplitAt(a + b, i);
    InitCons(line, Split(rest));
    InitAssoc(line, Split(rest), Split(Last(Split(rest)) + b));
  }

  lemma {:induction false} InitAssoc(line: string, lines: seq<string>, tail: seq<string>)
    requires lines != []
    ensures Init([line] + lines) + tail == [line] + (Init(lines) + tail)
  {
  }

  lemma {:induction false} SplitPrefix(a: string, b: string, i: nat)
    requires i < |a|
    ensures (a + b)[..i] == a[..i] && (a + b)[i + 1..] == a[i + 1..] + b
  {
  }

  lemma {:induction false} InitCons(line: string, lines: seq<string>)
    requires lines != []
    ensures Init([line] + lines) == [line] + Init(lines) && Last([line] + lines) == Last(lines)
  {
  }

  lemma {:induction false} InitOne(line: string, lines: seq<string>)
    ensures Init([line]) + lines == lines
  {
  }

  lemma {:induction false} InterpretAppend(p: Pending, a: seq<string>, b: seq<string>)
    ensures Interpret(p, a + b) ==
            var (p1, e1) := Interpret(p, a); var (p2, e2) := Interpret(p1, b); (p2, e1 + e2)
    decreases |a|
  {
    if a == [] {
      assert a + b == b;
      assert [] + Interpret(p, b).1 == Interpret(p, b).1;
    } else {
      var (p0, e0) := Step(p, a[0]);
      var (p1, e1) := Interpret(p0, a[1..]);
      var (p2, e2) := Interpret(p1, b);
      assert (a + b)[0] == a[0] && (a + b)[1..] == a[1..] + b;
      InterpretAppend(p0, a[1..], b);
      assert e0 + (e1 + e2) == (e0 + e1) + e2;
    }
  }

  lemma {:induction false} InterpretLast(p: Pending, lines: seq<string>, i: nat)
    requires i < |lines|
    ensures var (p1, e1) := Interpret(p, lines[..i]);
            Interpret(p, lines[..i + 1]) == (Step(p1, lines[i]).0, e1 + Step(p1, lines[i]).1)
  {
    assert lines[..i + 1] == lines[..i] + [lines[i]];
    InterpretAppend(p, lines[..i], [lines[i]]);
    InterpretOne(Interpret(p, lines[..i]).0, lines[i]);
  }

  lemma {:induction false} InterpretOne(p: Pending, line: string)
    ensures Interpret(p, [line]) == Step(p, line)
  {
    assert [line][1..] == [];
    assert Step(p, line).1 + [] == Step(p, line).1;
  }

  /** The client's reader. `received` is the text so far, of which the other fields are a function. */
  class StreamReader {
    ghost var received: string
    var buffer: string
    var eventName: string
    var dataLines: seq<string>
    var dispatched: seq<Event>

    ghost predicate Valid()
      reads this
    {
      && buffer == Last(Split(received))
      && (Pending(eventName, dataLines), dispatched) == Interpret(START, Init(Split(received)))
    }

    constructor ()
      ensures Valid() && received == "" && dispatched == []
    {
      received, buffer, eventName, dataLines, dispatched := "", "", "message", [], [];
    }

    method DispatchPending()
      modifies this`eventName, this`dataLines, this`dispatched
      ensures var (p, events) := Dispatch(old(Pending(eventName, dataLines)));
              Pending(eventName, dataLines) == p && dispatched == old(dispatched) + events
    {
      if dataLines == [] {
        return;
      }
      dispatched := dispatched + [Event(eventName, Join(dataLines))];
      eventName := "message";
      dataLines := [];
    }

    /** The loop over complete lines. */
    method TakeLines(lines: seq<string>)
      modifies this`eventName, this`dataLines, this`dispatched
      ensures var (p, events) := Interpret(old(Pending(eventName, dataLines)), lines);
              Pending(eventName, dataLines) == p && dispatched == old(dispatched) + events
    {
      ghost var p0, e0 := Pending(eventName, dataLines), dispatched;
      for i := 0 to |lines|
        invariant Pending(eventName, dataLines) == Interpret(p0, lines[..i]).0
        invariant dispatched == e0 + Interpret(p0, lines[..i]).1
      {
        InterpretLast(p0, lines, i);
        var line := lines[i];
        if line == "" {
          DispatchPending();
        } else if StartsWith(line, "event:") {
          eventName := Trim(line[6..]);
        } else if StartsWith(line, "data:") {
          dataLines := dataLines + [Trim(line[5..])];
        }
      }
      assert lines[..|lines|] == lines;
    }

    /** One read of the response body, cut anywhere. */
    method Read(chunk: string)
      requires Valid()
      modifies this
      ensures Valid() && received == old(received) + chunk
    {
      SplitAppend(received, chunk);
      InterpretAppend(START, Init(Split(received)), Init(Split(buffer + chunk)));
      buffer := buffer + chunk;
      var lines := Split(buffer);
      buffer := Last(lines);
      ghost var known := Init(Split(received));
      received := received + chunk;
      assert Init(Split(received)) == known + Init(lines);
      TakeLines(Init(lines));
    }

    /** The end of the body: pending data are dispatched, an unfinished line is not read. */
    method Close()
      requires Valid()
      modifies this
      ensures dispatched == ReadAll(old(received))
    {
      DispatchPending();
    }
  }

  function Concat(chunks: seq<string>): string {
    if chunks == [] then "" else Concat(chunks[..|chunks| - 1]) + chunks[|chunks| - 1]
  }

  /** However the text is cut into reads, also between a carriage return and its newline, the events are those of
      the text read as a whole. */
  method ReadStream(chunks: seq<string>) returns (events: seq<Event>)
    ensures events == ReadAll(Concat(chunks))
  {
    var reader := new StreamReader();
    for i := 0 to |chunks|
      invariant fresh(reader) && reader.Valid() && reader.received == Concat(chunks[..i])
    {
      assert chunks[..i + 1][..i] == chunks[..i];
      reader.Read(chunks[i]);
    }
    assert chunks[..|chunks|] == chunks;
    reader.Close();
    events := reader.dispatched;
  }

  // The frames of the server, read back.

  function Frame(e: Event): string {
    "event: " + e.name + "\ndata: " + e.data + "\n\n"
  }

  function Print(events: seq<Event>): string {
    if events == [] then "" else Frame(events[0]) + Print(events[1..])
  }

  predicate OneLine(s: string) {
    '\n' !in s
  }

  /** What a name or payload must be to come back unchanged. JSON as the server prints it is of this kind. */
  predicate Clean(s: string) {
    OneLine(s) && Trim(s) == s
  }

  function Trimmed(events: seq<Event>): seq<Event> {
    seq(|events|, i requires 0 <= i < |events| => Event(Trim(events[i].name), Trim(events[i].data)))
  }

  lemma {:induction false} TrimStartSpaceEnd(s: string, c: char)
    requires IsSpace(c)
    ensures TrimStart(s + [c]) == if TrimStart(s) == "" then "" else TrimStart(s) + [c]
  {
    if s == "" {
      assert ([c])[1..] == "";
      assert s + [c] == [c];
    } else {
      assert (s + [c])[1..] == s[1..] + [c];
      TrimStartSpaceEnd(s[1..], c);
    }
  }

  lemma {:induction false} TrimSpaceEnd(s: string, c: char)
    requires IsSpace(c)
    ensures Trim(s + [c]) == Trim(s)
  {
    TrimStartSpaceEnd(s, c);
    var t := TrimStart(s);
    assert (t + [c])[..|t|] == t;
  }

  lemma {:induction false} TrimDropCr(s: string)
    ensures Trim(DropCr(s)) == Trim(s)
  {
    if s != "" && s[|s| - 1] == '\r' {
      TrimSpaceEnd(s[..|s| - 1], '\r');
      assert s == s[..|s| - 1] + ['\r'];
    }
  }

  lemma {:induction false} TrimStartShrinks(s: string)
    ensures |TrimStart(s)| <= |s| && forall c :: c in TrimStart(s) ==> c in s
  {
    if s != "" {
      TrimStartShrinks(s[1..]);
    }
  }

  lemma {:induction false} TrimEndShrinks(s: string)
    ensures |TrimEnd(s)| <= |s| && forall c :: c in TrimEnd(s) ==> c in s
  {
    if s != "" {
      TrimEndShrinks(s[..|s| - 1]);
    }
  }

  lemma {:induction false} TrimShrinks(s: string)
    ensures |Trim(s)| <= |s| && (OneLine(s) ==> OneLine(Trim(s)))
  {
    TrimStartShrinks(s);
    TrimEndShrinks(TrimStart(s));
  }

  /** A field line: the space after the colon and a carriage return before the newline are trimmed away. */
  lemma {:induction false} FieldLine(field: string, value: string)
    requires field != "" && field[|field| - 1] != '\r'
    ensures DropCr(field + " " + value)[..|field|] == field
    ensures Trim(DropCr(field + " " + value)[|field|..]) == Trim(value)
  {
    var line := field + " " + value;
    TrimDropCr(value);
    if value == "" {
      assert line[|field|..] == " ";
    } else {
      assert DropCr(line) == field + " " + DropCr(value);
      assert DropCr(line)[|field|..] == " " + DropCr(value);
      assert (" " + DropCr(value))[1..] == DropCr(value);
    }
  }

  lemma {:induction false} SplitLine(line: string, rest: string)
    requires OneLine(line)
    ensures Split(line + "\n" + rest) == [DropCr(line)] + Split(rest)
  {
    var s := line + "\n" + rest;
    SplitAt(s, |line|);
    assert s[..|line|] == line && s[|line| + 1..] == rest;
  }

  lemma {:induction false} SplitTwo(l1: string, l2: string, rest: string)
    requires OneLine(l1) && OneLine(l2)
    ensures Split(l1 + "\n" + (l2 + "\n" + ("" + "\n" + rest))) == [DropCr(l1), DropCr(l2), ""] + Split(rest)
  {
    var t2 := "" + "\n" + rest;
    var t1 := l2 + "\n" + t2;
    SplitLine("", rest);
    assert DropCr("") == "";
    SplitLine(l2, t2);
    SplitLine(l1, t1);
    ThreeLines(DropCr(l1), DropCr(l2), "", Split(rest));
  }

  lemma {:induction false} ThreeLines(a: string, b: string, c: string, lines: seq<string>)
    ensures [a] + ([b] + ([c] + lines)) == [a, b, c] + lines
  {
  }

  lemma {:induction false} FrameShape(e: Event, rest: string)
    ensures Frame(e) + rest == ("event: " + e.name) + "\n" + (("data: " + e.data) + "\n" + ("" + "\n" + rest))
  {
  }

  lemma {:induction false} SplitFrame(e: Event, rest: string)
    requires OneLine(e.name) && OneLine(e.data)
    ensures Split(Frame(e) + rest) == [DropCr("event: " + e.name), DropCr("data: " + e.data), ""] + Split(rest)
  {
    FrameShape(e, rest);
    SplitTwo("event: " + e.name, "data: " + e.data, rest);
  }

  lemma {:induction false} StepName(p: Pending, name: string)
    ensures Step(p, DropCr("event: " + name)) == (p.(name := Trim(name)), [])
  {
    FieldLine("event:", name);
    assert "event:" + " " + name == "event: " + name;
  }

  lemma {:induction false} NotEvent(line: string)
    requires line != "" && line[0] != 'e'
    ensures !StartsWith(line, "event:")
  {
    assert |line| >= 6 ==> line[..6][0] == line[0];
  }

  lemma {:induction false} StepData(p: Pending, data: string)
    ensures Step(p, DropCr("data: " + data)) == (p.(lines := p.lines + [Trim(data)]), [])
  {
    FieldLine("data:", data);
    assert "data:" + " " + data == "data: " + data;
    var line := DropCr("data: " + data);
    assert line[..5][0] == 'd';
    NotEvent(line);
  }

  lemma {:induction false} InterpretCons(p: Pending, line: string, lines: seq<string>)
    ensures Interpret(p, [line] + lines) ==
            (Interpret(Step(p, line).0, lines).0, Step(p, line).1 + Interpret(Step(p, line).0, lines).1)
  {
    assert ([line] + lines)[1..] == lines;
  }

  lemma {:induction false} InterpretFrame(e: Event)
    ensures Interpret(START, [DropCr("event: " + e.name), DropCr("data: " + e.data), ""])
         == (START, [Event(Trim(e.name), Trim(e.data))])
  {
    var l1, l2 := DropCr("event: " + e.name), DropCr("data: " + e.data);
    var p1, p2 := Pending(Trim(e.name), []), Pending(Trim(e.name), [Trim(e.data)]);
    StepName(START, e.name);
    StepData(p1, e.data);
    InterpretOne(p2, "");
    InterpretCons(p1, l2, [""]);
    InterpretCons(START, l1, [l2, ""]);
    assert [l1] + [l2, ""] == [l1, l2, ""] && [l2] + [""] == [l2, ""];
    assert [] + ([] + [Event(Trim(e.name), Trim(e.data))]) == [Event(Trim(e.name), Trim(e.data))];
  }

  /** The lines of the printed frames. */
  function FrameLines(events: seq<Event>): seq<string> {
    if events == [] then []
    else [DropCr("event: " + events[0].name), DropCr("data: " + events[0].data), ""] + FrameLines(events[1..])
  }

  lemma {:induction false} SplitPrinted(events: seq<Event>)
    requires forall e :: e in events ==> OneLine(e.name) && OneLine(e.data)
    ensures Split(Print(events)) == FrameLines(events) + [""]
  {
    if events == [] {
      assert Split("") == [""];
    } else {
      SplitPrinted(events[1..]);
      SplitFrame(events[0], Print(events[1..]));
    }
  }

  lemma {:induction false} InterpretPrinted(events: seq<Event>)
    ensures Interpret(START, FrameLines(events)) == (START, Trimmed(events))
  {
    if events == [] {
      assert Trimmed(events) == [];
    } else {
      var e := events[0];
      var lines := [DropCr("event: " + e.name), DropCr("data: " + e.data), ""];
      InterpretPrinted(events[1..]);
      InterpretFrame(e);
      InterpretAppend(START, lines, FrameLines(events[1..]));
      assert Trimmed(events) == [Event(Trim(e.name), Trim(e.data))] + Trimmed(events[1..]);
    }
  }

  /** Reading back frames whose parts are single lines trims them, and does nothing else. */
  lemma {:induction false} ReadPrinted(events: seq<Event>)
    requires forall e :: e in events ==> OneLine(e.name) && OneLine(e.data)
    ensures ReadAll(Print(events)) == Trimmed(events)
  {
    SplitPrinted(events);
    InterpretPrinted(events);
    assert Init(FrameLines(events) + [""]) == FrameLines(events);
  }

  // The converse: nothing else comes back.

  ghost predicate AllOneLine(lines: seq<string>) {
    forall l :: l in lines ==> OneLine(l)
  }

  lemma {:induction false} SplitOneLine(s: string)
    ensures AllOneLine(Split(s))
    decreases |s|
  {
    var i := NewlineAt(s);
    if i < |s| {
      SplitOneLine(s[i + 1..]);
      assert OneLine(DropCr(s[..i]));
    }
  }

  /** Names never span lines. */
  lemma {:induction false} NamesOneLine(p: Pending, lines: seq<string>)
    requires AllOneLine(lines) && OneLine(p.name)
    ensures OneLine(Interpret(p, lines).0.name)
    ensures forall e :: e in Interpret(p, lines).1 ==> OneLine(e.name)
    decreases |lines|
  {
    if lines != [] {
      var p1 := Step(p, lines[0]).0;
      assert OneLine(lines[0]);
      if StartsWith(lines[0], "event:") {
        assert OneLine(lines[0][6..]);
        TrimShrinks(lines[0][6..]);
      }
      NamesOneLine(p1, lines[1..]);
    }
  }

  /** Characters of payload, counting one for each data line. */
  function LineWeight(line: string): nat {
    if !StartsWith(line, "event:") && StartsWith(line, "data:") then |Trim(line[5..])| + 1 else 0
  }

  function LinesWeight(lines: seq<string>): nat {
    if lines == [] then 0 else LineWeight(lines[0]) + LinesWeight(lines[1..])
  }

  function DataWeight(lines: seq<string>): nat {
    if lines == [] then 0 else |lines[0]| + 1 + DataWeight(lines[1..])
  }

  function EventsWeight(events: seq<Event>): nat {
    if events == [] then 0 else |events[0].data| + 1 + EventsWeight(events[1..])
  }

  lemma {:induction false} LinesWeightAppend(a: seq<string>, b: seq<string>)
    ensures LinesWeight(a + b) == LinesWeight(a) + LinesWeight(b)
  {
    if a == [] {
      assert a + b == b;
    } else {
      assert (a + b)[1..] == a[1..] + b;
      LinesWeightAppend(a[1..], b);
    }
  }

  lemma {:induction false} DataWeightLast(lines: seq<string>, last: string)
    ensures DataWeight(lines + [last]) == DataWeight(lines) + |last| + 1
  {
    if lines == [] {
      assert lines + [last] == [last];
    } else {
      assert (lines + [last])[1..] == lines[1..] + [last];
      DataWeightLast(lines[1..], last);
    }
  }

  lemma {:induction false} EventsWeightAppend(a: seq<Event>, b: seq<Event>)
    ensures EventsWeight(a + b) == EventsWeight(a) + EventsWeight(b)
  {
    if a == [] {
      assert a + b == b;
    } else {
      assert (a + b)[1..] == a[1..] + b;
      EventsWeightAppend(a[1..], b);
    }
  }

  lemma {:induction false} JoinWeight(lines: seq<string>)
    requires lines != []
    ensures |Join(lines)| + 1 == DataWeight(lines)
  {
    if |lines| > 1 {
      JoinWeight(lines[1..]);
    }
  }

  lemma {:induction false} DispatchWeight(p: Pending)
    ensures EventsWeight(Dispatch(p).1) + DataWeight(Dispatch(p).0.lines) == DataWeight(p.lines)
  {
    if p.lines != [] {
      JoinWeight(p.lines);
      assert [Event(p.name, Join(p.lines))][1..] == [];
    }
  }

  /** Reading conserves payload: what the data lines carry is dispatched or pending. */
  lemma {:induction false} InterpretWeight(p: Pending, lines: seq<string>)
    ensures EventsWeight(Interpret(p, lines).1) + DataWeight(Interpret(p, lines).0.lines)
         == DataWeight(p.lines) + LinesWeight(lines)
    decreases |lines|
  {
    if lines != [] {
      var (p1, e1) := Step(p, lines[0]);
      DispatchWeight(p);
      if StartsWith(lines[0], "data:") {
        DataWeightLast(p.lines, Trim(lines[0][5..]));
      }
      InterpretWeight(p1, lines[1..]);
      EventsWeightAppend(e1, Interpret(p1, lines[1..]).1);
    }
  }

  lemma {:induction false} ReadWeight(text: string)
    ensures EventsWeight(ReadAll(text)) == LinesWeight(Init(Split(text)))
  {
    var (p, events) := Interpret(START, Init(Split(text)));
    InterpretWeight(START, Init(Split(text)));
    DispatchWeight(p);
    EventsWeightAppend(events, Dispatch(p).1);
  }

  lemma {:induction false} LineWeightBound(line: string)
    ensures LineWeight(DropCr(line)) <= |line|
  {
    if StartsWith(DropCr(line), "data:") {
      TrimShrinks(DropCr(line)[5..]);
    }
  }

  /** The first data line of a frame carries no more than it was given. */
  lemma {:induction false} DataLineWeight(value: string)
    ensures LineWeight(DropCr("data: " + value)) == |Trim(value)| + 1 <= |value| + 1
  {
    FieldLine("data:", value);
    assert "data:" + " " + value == "data: " + value;
    var line := DropCr("data: " + value);
    assert line[..5][0] == 'd';
    NotEvent(line);
    TrimShrinks(value);
  }

  lemma {:induction false} AtNewline(t: string, i: nat)
    requires i < |t| && t[i] == '\n'
    ensures t == t[..i] + "\n" + t[i + 1..]
  {
  }

  lemma {:induction false} NoNewline(t: string)
    requires NewlineAt(t) == |t|
    ensures Split(t) == [t] && Init([t]) == []
  {
  }

  lemma {:induction false} TextWeight(t: string)
    ensures LinesWeight(Init(Split(t))) + |Last(Split(t))| <= |t|
    decreases |t|
  {
    var i := NewlineAt(t);
    if i < |t| {
      var line, rest := t[..i], t[i + 1..];
      TextWeight(rest);
      AtNewline(t, i);
      FirstLineWeight(t, line, rest);
      LineWeightBound(line);
    } else {
      NoNewline(t);
    }
  }

  lemma {:induction false} FirstLineWeight(text: string, line: string, rest: string)
    requires OneLine(line) && text == line + "\n" + rest
    ensures LinesWeight(Init(Split(text))) == LineWeight(DropCr(line)) + LinesWeight(Init(Split(rest)))
    ensures Last(Split(text)) == Last(Split(rest))
  {
    SplitLine(line, rest);
    InitCons(DropCr(line), Split(rest));
    WeightCons(DropCr(line), Init(Split(rest)));
  }

  lemma {:induction false} EndWeight(line: string)
    requires OneLine(line)
    ensures LinesWeight(Init(Split(line + "\n\n"))) == LineWeight(DropCr(line))
  {
    SplitEnd(line);
    LastWeight(DropCr(line));
    assert Init([DropCr(line), "", ""]) == [DropCr(line), ""];
  }

  lemma {:induction false} LastWeight(line: string)
    ensures LinesWeight([line, ""]) == LineWeight(line)
  {
    assert [line, ""] == [line] + [""];
    WeightCons(line, [""]);
    assert [""] == [""] + [];
    WeightCons("", []);
  }

  lemma {:induction false} LastOneLine(t: string)
    ensures OneLine(Last(Split(t)))
  {
    SplitOneLine(t);
    assert Last(Split(t)) in Split(t);
  }

  lemma {:induction false} SplitEnd(line: string)
    requires OneLine(line)
    ensures Split(line + "\n\n") == [DropCr(line), "", ""]
  {
    assert line + "\n\n" == line + "\n" + ("" + "\n" + "");
    SplitLine(line, "" + "\n" + "");
    SplitLine("", "");
    assert Split("") == [""] && DropCr("") == "";
  }

  /** Continuation lines carry less than their text. */
  lemma {:induction false} TailWeight(t: string)
    ensures LinesWeight(Init(Split(t + "\n\n"))) <= |t|
  {
    var front, last := Init(Split(t)), Last(Split(t));
    SplitAppend(t, "\n\n");
    LastOneLine(t);
    SplitEnd(last);
    assert Init(front + [DropCr(last), "", ""]) == front + [DropCr(last), ""];
    LinesWeightAppend(front, [DropCr(last), ""]);
    LastWeight(DropCr(last));
    LineWeightBound(last);
    TextWeight(t);
  }

  lemma {:induction false} WeightCons(line: string, lines: seq<string>)
    ensures LinesWeight([line] + lines) == LineWeight(line) + LinesWeight(lines)
  {
    assert ([line] + lines)[1..] == lines;
  }

  /** A frame carries at most its payload, and less when the payload spans lines. */
  lemma {:induction false} FrameWeight(e: Event)
    requires OneLine(e.name)
    ensures LinesWeight(Init(Split(Frame(e)))) <= |e.data| + 1
    ensures !OneLine(e.data) ==> LinesWeight(Init(Split(Frame(e)))) < |e.data| + 1
  {
    assert Frame(e) == "event: " + e.name + "\n" + Body(e.data);
    FirstLineWeight(Frame(e), "event: " + e.name, Body(e.data));
    NameLineWeight(e.name);
    BodyWeight(e.data);
  }

  lemma {:induction false} NameLineWeight(name: string)
    ensures LineWeight(DropCr("event: " + name)) == 0
  {
    FieldLine("event:", name);
    assert "event:" + " " + name == "event: " + name;
  }

  function Body(data: string): string {
    "data: " + data + "\n\n"
  }

  lemma {:induction false} BodyWeight(data: string)
    ensures LinesWeight(Init(Split(Body(data)))) <= |data| + 1
    ensures !OneLine(data) ==> LinesWeight(Init(Split(Body(data)))) < |data| + 1
  {
    var i := NewlineAt(data);
    if i < |data| {
      BodyManyLines(data, i, Body(data));
    } else {
      EndWeight("data: " + data);
      DataLineWeight(data);
    }
  }

  lemma {:induction false} BodyManyLines(data: string, i: nat, text: string)
    requires i < |data| && data[i] == '\n' && OneLine(data[..i]) && text == Body(data)
    ensures LinesWeight(Init(Split(text))) <= |data|
  {
    var line, rest := "data: " + data[..i], data[i + 1..] + "\n\n";
    BodyLines(data, i);
    FirstLineWeight(text, line, rest);
    DataLineWeight(data[..i]);
    TailWeight(data[i + 1..]);
  }

  lemma {:induction false} BodyLines(data: string, i: nat)
    requires i < |data| && data[i] == '\n'
    ensures Body(data) == "data: " + data[..i] + "\n" + (data[i + 1..] + "\n\n")
  {
  }

  lemma {:induction false} FrameEnds(e: Event)
    ensures Last(Split(Frame(e))) == ""
  {
    var front := "event: " + e.name + "\ndata: " + e.data;
    assert Frame(e) == front + "\n\n";
    SplitAppend(front, "\n\n");
    LastOneLine(front);
    SplitEnd(Last(Split(front)));
  }

  lemma {:induction false} PrintedWeight(events: seq<Event>)
    requires forall e :: e in events ==> OneLine(e.name)
    ensures LinesWeight(Init(Split(Print(events)))) <= EventsWeight(events)
    ensures (exists e :: e in events && !OneLine(e.data)) ==>
              LinesWeight(Init(Split(Print(events)))) < EventsWeight(events)
  {
    if events == [] {
      assert Split("") == [""];
    } else {
      var e, rest := events[0], Print(events[1..]);
      PrintedWeight(events[1..]);
      SplitAppend(Frame(e), rest);
      FrameEnds(e);
      assert "" + rest == rest;
      InitAppend(Init(Split(Frame(e))), Split(rest));
      LinesWeightAppend(Init(Split(Frame(e))), Init(Split(rest)));
      FrameWeight(e);
    }
  }

  lemma {:induction false} InitAppend(a: seq<string>, b: seq<string>)
    requires b != []
    ensures Init(a + b) == a + Init(b)
  {
  }

  /** The client reads back exactly what the server printed if and only if every name and payload is a single
      line without white space at its ends. */
  lemma {:induction false} RoundTripExactly(events: seq<Event>)
    ensures ReadAll(Print(events)) == events <==> forall e :: e in events ==> Clean(e.name) && Clean(e.data)
  {
    if ReadAll(Print(events)) == events {
      NamesCome(events);
      ReadWeight(Print(events));
      PrintedWeight(events);
      assert forall e :: e in events ==> OneLine(e.name) && OneLine(e.data);
    }
    if forall e :: e in events ==> OneLine(e.name) && OneLine(e.data) {
      ReadPrinted(events);
      TrimmedSame(events);
    }
  }

  lemma {:induction false} NamesCome(events: seq<Event>)
    requires ReadAll(Print(events)) == events
    ensures forall e :: e in events ==> OneLine(e.name)
  {
    var lines := Init(Split(Print(events)));
    SplitOneLine(Print(events));
    NamesOneLine(START, lines);
  }

  lemma {:induction false} TrimmedSame(events: seq<Event>)
    ensures Trimmed(events) == events <==> forall e :: e in events ==> Trim(e.name) == e.name && Trim(e.data) == e.data
  {
    if Trimmed(events) == events {
      forall e | e in events ensures Trim(e.name) == e.name && Trim(e.data) == e.data {
        var i :| 0 <= i < |events| && events[i] == e;
        assert Trimmed(events)[i] == e;
      }
    }
  }

  // ---- Several data lines ----------------------------------------------------------------------

  lemma {:induction false} PrefixExactly(s: string, prefix: string)
    ensures StartsWith(s, prefix) <==> exists rest :: s == prefix + rest
  {
    if StartsWith(s, prefix) {
      assert s == prefix + s[|prefix|..];
    }
  }

  /** The data of an event are its data lines with a newline between each two. */
  lemma {:induction false} JoinSplits(a: seq<string>, b: seq<string>)
    requires a != [] && b != []
    ensures Join(a + b) == Join(a) + "\n" + Join(b)
  {
    if |a| == 1 {
      assert (a + b)[1..] == b;
    } else {
      assert (a + b)[1..] == a[1..] + b;
      JoinSplits(a[1..], b);
      assert Join(a + b) == a[0] + "\n" + (Join(a[1..]) + "\n" + Join(b));
    }
  }

  function DataLines(values: seq<string>): seq<string> {
    if values == [] then [] else ["data:" + values[0]] + DataLines(values[1..])
  }

  function TrimAll(values: seq<string>): seq<string> {
    if values == [] then [] else [Trim(values[0])] + TrimAll(values[1..])
  }

  lemma {:induction false} DataLine(p: Pending, value: string)
    ensures Step(p, "data:" + value) == (p.(lines := p.lines + [Trim(value)]), [])
  {
    var line := "data:" + value;
    assert line[..5] == "data:" && line[5..] == value;
    NotEvent(line);
  }

  lemma {:induction false} FirstDataLine(p: Pending, values: seq<string>, now: Pending, event: Event)
    requires values != [] && now == p.(lines := p.lines + [Trim(values[0])])
    requires Interpret(now, DataLines(values[1..]) + [""]) == (START, [event])
    ensures Interpret(p, DataLines(values) + [""]) == (START, [event])
  {
    var first, later := "data:" + values[0], DataLines(values[1..]) + [""];
    DataLine(p, values[0]);
    assert DataLines(values) + [""] == [first] + later;
    InterpretCons(p, first, later);
    assert [] + [event] == [event];
  }

  /** Data lines that follow each other, and the blank line that ends them, are one event. */
  lemma {:induction false} DataLinesJoin(p: Pending, values: seq<string>)
    requires p.lines + TrimAll(values) != []
    ensures Interpret(p, DataLines(values) + [""]) == (START, [Event(p.name, Join(p.lines + TrimAll(values)))])
    decreases |values|
  {
    if values == [] {
      assert DataLines(values) + [""] == [""] && p.lines + [] == p.lines;
      InterpretOne(p, "");
    } else {
      var now := p.(lines := p.lines + [Trim(values[0])]);
      assert now.lines + TrimAll(values[1..]) == p.lines + TrimAll(values);
      DataLinesJoin(now, values[1..]);
      FirstDataLine(p, values, now, Event(p.name, Join(p.lines + TrimAll(values))));
    }
  }
}
