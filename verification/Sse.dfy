/** Writing server-sent events, and reading them back as section 9.2.6 of the
    WHATWG HTML Living Standard ("Interpreting an event stream") says. */
module Sse {
  import opened Common
  import opened Text

  // -------------------------------------------- the standard's interpreter

  /** An event as a client receives it. */
  datatype Message = Message(kind: string, data: string, lastId: string)

  datatype State = State(data: string, kind: string, id: string, retry: Option<nat>, events: seq<Message>)

  const START: State := State("", "", "", None, [])

  predicate LineEnd(c: char) { c == '\n' || c == '\r' }

  /** The complete lines of a stream, ended by CR LF, LF or CR. */
  function Lines(s: string, line: string): seq<string>
    decreases |s|
  {
    if s == "" then []
    else if !LineEnd(s[0]) then Lines(s[1..], line + [s[0]])
    else [line] + Lines(if s[0] == '\r' && |s| > 1 && s[1] == '\n' then s[2..] else s[1..], "")
  }

  function Colon(line: string): (r: Option<nat>)
    ensures r.Some? ==> r.value < |line|
  {
    if line == "" then None
    else if line[0] == ':' then Some(0)
    else match Colon(line[1..]) case None => None case Some(i) => Some(i + 1)
  }

  function Field(name: string, value: string, st: State): State {
    if name == "event" then st.(kind := value)
    else if name == "data" then st.(data := st.data + value + "\n")
    else if name == "id" then (if '\0' in value then st else st.(id := value))
    else if name == "retry" then (if value != "" && Digits(value) then st.(retry := Some(Number(value))) else st)
    else st
  }

  function Dispatch(st: State): State {
    if st.data == "" then st.(kind := "")
    else st.(data := "", kind := "", events := st.events +
      [Message(if st.kind == "" then "message" else st.kind, st.data[..|st.data|-1], st.id)])
  }

  function Process(line: string, st: State): State {
    if line == "" then Dispatch(st)
    else match Colon(line)
      case None => Field(line, "", st)
      case Some(i) =>
        if i == 0 then st
        else
          var value := line[i+1..];
          Field(line[..i], if value != "" && value[0] == ' ' then value[1..] else value, st)
  }

  function Run(lines: seq<string>, st: State): State {
    if lines == [] then st else Run(lines[1..], Process(lines[0], st))
  }

  function Interpret(stream: string): State { Run(Lines(stream, ""), START) }

  // ------------------------------------------------------------ the writer

  /** retry is in nanoseconds. */
  datatype Event = Event(id: string, kind: string, data: string, retry: int)

  datatype Action = Send(event: Event) | Comment(text: string)

  predicate Breaks(s: string) { exists i :: 0 <= i < |s| && LineEnd(s[i]) }

  /** Send refuses IDs and types with line breaks. */
  predicate Valid(e: Event) { !Breaks(e.id) && !Breaks(e.kind) }

  /** Every CR LF is one LF. */
  function Normal(data: string): string {
    if data == "" then ""
    else if |data| > 1 && data[0] == '\r' && data[1] == '\n' then "\n" + Normal(data[2..])
    else [data[0]] + Normal(data[1..])
  }

  /** Data is as it was but that a CR LF is an LF. */
  lemma {:induction false} NormalIs(a: string, b: string)
    requires '\r' !in a
    ensures Normal(a) == a && Normal(a + "\r\n" + b) == a + "\n" + Normal(b)
    ensures (b == "" || b[0] != '\n') ==> Normal(a + "\r" + b) == a + "\r" + Normal(b)
  {
    if a == "" {
      assert ("" + "\r\n" + b)[2..] == b && ("" + "\r" + b)[1..] == b;
    } else {
      NormalIs(a[1..], b);
      var lf, cr := a + "\r\n" + b, a + "\r" + b;
      assert lf[0] == a[0] && lf[1..] == a[1..] + "\r\n" + b;
      assert cr[0] == a[0] && cr[1..] == a[1..] + "\r" + b;
      assert [a[0]] + (a[1..] + "\n" + Normal(b)) == a + "\n" + Normal(b);
      assert [a[0]] + (a[1..] + "\r" + Normal(b)) == a + "\r" + Normal(b);
    }
  }

  function DataLines(parts: seq<string>): seq<string> {
    if parts == [] then [] else ["data: " + parts[0]] + DataLines(parts[1..])
  }

  /** The lines of a frame, the empty one at the end included. */
  function FrameLines(e: Event): seq<string> {
    Head(e) + DataLines(Split(Normal(e.data), '\n')) + [""]
  }

  /** The lines before the data. */
  function Head(e: Event): seq<string> {
    (if e.id != "" then ["id: " + e.id] else [])
    + (if e.kind != "" then ["event: " + e.kind] else [])
    + (if e.retry > 0 then ["retry: " + Decimal(e.retry / 1000000)] else [])
  }

  function Ended(lines: seq<string>): string {
    if lines == [] then "" else lines[0] + "\n" + Ended(lines[1..])
  }

  function Spaced(text: string): string {
    if text == "" then "" else [if LineEnd(text[0]) then ' ' else text[0]] + Spaced(text[1..])
  }

  function ActionLines(a: Action): seq<string> {
    match a
    case Send(e) => if Valid(e) then FrameLines(e) else []
    case Comment(text) => [": " + Spaced(text), ""]
  }

  function Written(actions: seq<Action>): string {
    if actions == [] then "" else Ended(ActionLines(actions[0])) + Written(actions[1..])
  }

  // ------------------------------------------------------ what is expected

  function NewId(e: Event, id: string): string { if e.id == "" then id else e.id }

  function Received(e: Event, id: string): Message {
    Message(if e.kind == "" then "message" else e.kind, Normal(e.data), NewId(e, id))
  }

  predicate Sends(a: Action) { a.Send? && Valid(a.event) }

  /** What a client should receive for one action, if it last saw id. */
  function Delivered(a: Action, id: string): seq<Message> { if Sends(a) then [Received(a.event, id)] else [] }

  function IdAfter(a: Action, id: string): string { if Sends(a) then NewId(a.event, id) else id }

  function Expected(actions: seq<Action>, id: string): seq<Message> {
    if actions == [] then [] else Delivered(actions[0], id) + Expected(actions[1..], IdAfter(actions[0], id))
  }

  /** No carriage return but before a line feed, and no NUL in the ID. */
  predicate Clean(a: Action) {
    Sends(a) ==> '\r' !in Normal(a.event.data) && '\0' !in a.event.id
  }

  // ----------------------------------------------------------------- lines

  lemma {:induction false} LinePrefix(a: string, rest: string, line: string)
    requires !Breaks(a)
    ensures Lines(a + rest, line) == Lines(rest, line + a)
  {
    if a == "" {
      assert a + rest == rest && line + a == line;
    } else {
      assert (a + rest)[0] == a[0] && (a + rest)[1..] == a[1..] + rest;
      LinePrefix(a[1..], rest, line + [a[0]]);
      assert line + [a[0]] + a[1..] == line + a;
    }
  }

  lemma OneLine(l: string, more: string)
    requires !Breaks(l)
    ensures Lines(l + ("\n" + more), "") == [l] + Lines(more, "")
  {
    LinePrefix(l, "\n" + more, "");
    assert ("\n" + more)[1..] == more && "" + l == l;
  }

  /** Lines written one by one, none with a break inside, are read as such. */
  lemma {:induction false} EndedLines(lines: seq<string>, rest: string)
    requires forall l :: l in lines ==> !Breaks(l)
    ensures Lines(Ended(lines) + rest, "") == lines + Lines(rest, "")
  {
    if lines == [] {
      assert Ended(lines) + rest == rest;
    } else {
      var more := Ended(lines[1..]) + rest;
      assert Ended(lines) + rest == lines[0] + ("\n" + more);
      OneLine(lines[0], more);
      EndedLines(lines[1..], rest);
      assert [lines[0]] + (lines[1..] + Lines(rest, "")) == lines + Lines(rest, "");
    }
  }

  lemma {:induction false} RunAppend(a: seq<string>, b: seq<string>, st: State)
    ensures Run(a + b, st) == Run(b, Run(a, st))
  {
    if a == [] {
      assert a + b == b;
    } else {
      assert (a + b)[0] == a[0] && (a + b)[1..] == a[1..] + b;
      RunAppend(a[1..], b, Process(a[0], st));
    }
  }

  // ------------------------------------------------------------ one frame

  lemma {:induction false} ColonAt(name: string, rest: string)
    requires ':' !in name
    ensures Colon(name + (":" + rest)) == Some(|name|)
  {
    if name == "" {
      assert name + (":" + rest) == ":" + rest;
    } else {
      assert (name + (":" + rest))[0] == name[0] && name[0] in name
        && (name + (":" + rest))[1..] == name[1..] + (":" + rest);
      ColonAt(name[1..], rest);
    }
  }

  /** A field line is read as the field it was written for. */
  lemma FieldBack(name: string, value: string, st: State)
    requires name != "" && ':' !in name
    ensures Process(name + ": " + value, st) == Field(name, value, st)
  {
    var line := name + (":" + (" " + value));
    assert name + ": " + value == line;
    ColonAt(name, " " + value);
    assert line[..|name|] == name && line[|name|+1..] == " " + value && (" " + value)[1..] == value;
  }

  lemma OneData(part: string, st: State)
    ensures Process("data: " + part, st) == st.(data := st.data + (part + "\n"))
  {
    assert "data: " + part == "data" + ": " + part;
    FieldBack("data", part, st);
    assert st.data + part + "\n" == st.data + (part + "\n");
  }

  lemma {:induction false} DataBack(parts: seq<string>, st: State)
    ensures Run(DataLines(parts), st) == st.(data := st.data + Ended(parts))
  {
    if parts == [] {
      assert st.data + "" == st.data;
    } else {
      var more := DataLines(parts[1..]);
      var next := st.(data := st.data + (parts[0] + "\n"));
      OneData(parts[0], st);
      DataBack(parts[1..], next);
      assert (["data: " + parts[0]] + more)[1..] == more;
      Pieces(st.data, parts[0] + "\n", Ended(parts[1..]), "");
    }
  }

  lemma {:induction false} EndedJoin(parts: seq<string>)
    requires parts != []
    ensures Ended(parts) == Join(parts, '\n') + "\n"
  {
    if |parts| == 1 {
      assert Ended(parts[1..]) == "" && parts[0] + "\n" + "" == parts[0] + "\n";
    } else {
      EndedJoin(parts[1..]);
      assert parts[0] + "\n" + (Join(parts[1..], '\n') + "\n") == parts[0] + ['\n'] + Join(parts[1..], '\n') + "\n";
    }
  }

  lemma RunOne(l: string, st: State)
    ensures Run([l], st) == Process(l, st)
  {
  }

  lemma IdBack(e: Event, st: State)
    requires '\0' !in e.id
    ensures Run(if e.id != "" then ["id: " + e.id] else [], st) == st.(id := NewId(e, st.id))
  {
    if e.id != "" {
      assert "id: " + e.id == "id" + ": " + e.id;
      FieldBack("id", e.id, st);
      RunOne("id: " + e.id, st);
    }
  }

  lemma KindBack(e: Event, st: State)
    requires st.kind == ""
    ensures Run(if e.kind != "" then ["event: " + e.kind] else [], st) == st.(kind := e.kind)
  {
    if e.kind != "" {
      assert "event: " + e.kind == "event" + ": " + e.kind;
      FieldBack("event", e.kind, st);
      RunOne("event: " + e.kind, st);
    }
  }

  lemma HeadBack(e: Event, st: State)
    requires '\0' !in e.id && st.kind == ""
    ensures Run(Head(e), st) == st.(id := NewId(e, st.id), kind := e.kind, retry := if e.retry > 0
      then Some(e.retry / 1000000) else st.retry)
  {
    var a := if e.id != "" then ["id: " + e.id] else [];
    var b := if e.kind != "" then ["event: " + e.kind] else [];
    var c := if e.retry > 0 then ["retry: " + Decimal(e.retry / 1000000)] else [];
    var s1 := st.(id := NewId(e, st.id));
    var s2 := s1.(kind := e.kind);
    RunAppend(a + b, c, st);
    RunAppend(a, b, st);
    IdBack(e, st);
    KindBack(e, s1);
    if e.retry > 0 { RetryBack(e.retry / 1000000, s2); }
  }

  lemma RetryBack(n: nat, st: State)
    ensures Run(["retry: " + Decimal(n)], st) == st.(retry := Some(n))
  {
    var l := "retry: " + Decimal(n);
    assert l == "retry" + ": " + Decimal(n);
    NumberDecimal(n);
    FieldBack("retry", Decimal(n), st);
    RunOne(l, st);
  }

  /** One frame dispatches one event, the one that was sent, and leaves nothing
      behind. */
  lemma FrameBack(e: Event, st: State)
    requires '\0' !in e.id && st.kind == "" && st.data == ""
    ensures var id, kind := if e.id == "" then st.id else e.id, if e.kind == "" then "message" else e.kind;
      Run(FrameLines(e), st) == st.(id := id, retry := if e.retry > 0 then Some(e.retry / 1000000) else st.retry,
        events := st.events + [Message(kind, Normal(e.data), id)])
  {
    var parts := Split(Normal(e.data), '\n');
    var s1 := Run(Head(e), st);
    HeadBack(e, st);
    var data := DataLines(parts);
    assert FrameLines(e) == (Head(e) + data) + [""];
    RunAppend(Head(e) + data, [""], st);
    RunAppend(Head(e), data, st);
    DataBack(parts, s1);
    EndedJoin(parts);
    JoinSplit(Normal(e.data), '\n');
    var s2 := Run(data, s1);
    assert s2.data == Normal(e.data) + "\n" && s2.data[..|s2.data|-1] == Normal(e.data);
    RunOne("", s2);
  }

  // ------------------------------------------------------- whole streams

  lemma NoReturn(data: string)
    requires '\r' !in Normal(data)
    ensures forall p :: p in DataLines(Split(Normal(data), '\n')) ==> !Breaks(p)
  {
    var n := Normal(data);
    var parts := Split(n, '\n');
    JoinSplit(n, '\n');
    PartsOf(n);
    DataLinesIn(parts);
    forall l | l in DataLines(parts) ensures !Breaks(l) {
      var p :| p in parts && l == "data: " + p;
      forall i | 0 <= i < |p| ensures !LineEnd(p[i]) { assert p[i] in p && p[i] in n; }
      LabelPlain("data: ", p);
    }
  }

  lemma LabelPlain(head: string, p: string)
    requires !Breaks(head) && !Breaks(p)
    ensures !Breaks(head + p)
  {
    var l := head + p;
    forall i | 0 <= i < |l| ensures !LineEnd(l[i]) { assert l[i] == if i < |head| then head[i] else p[i-|head|]; }
  }

  lemma {:induction false} PartsOf(s: string)
    ensures forall p, c :: p in Split(s, '\n') && c in p ==> c in s
  {
    if s != "" {
      PartsOf(s[1..]);
      var rest := Split(s[1..], '\n');
      forall p, c | p in Split(s, '\n') && c in p ensures c in s {
        if p in rest {
          assert c in s[1..];
        } else if s[0] != '\n' && p == [s[0]] + rest[0] && c != s[0] {
          assert c in rest[0] && rest[0] in rest && c in s[1..];
        }
      }
    }
  }

  lemma {:induction false} DataLinesIn(parts: seq<string>)
    ensures forall l :: l in DataLines(parts) ==> exists p :: p in parts && l == "data: " + p
  {
    if parts != [] {
      DataLinesIn(parts[1..]);
      forall l | l in DataLines(parts) ensures exists p :: p in parts && l == "data: " + p {
        if l == "data: " + parts[0] {
          assert parts[0] in parts;
        } else {
          assert l in DataLines(parts[1..]);
          var p :| p in parts[1..] && l == "data: " + p;
          assert p in parts;
        }
      }
    }
  }

  lemma {:induction false} SpacedPlain(text: string)
    ensures !Breaks(Spaced(text))
  {
    if text != "" { SpacedPlain(text[1..]); }
  }

  lemma {:induction false} DecimalPlain(n: nat)
    ensures !Breaks(Decimal(n))
  {
    if n >= 10 { DecimalPlain(n / 10); }
  }

  lemma HeadPlain(e: Event)
    requires Valid(e)
    ensures forall l :: l in Head(e) ==> !Breaks(l)
  {
    LabelPlain("id: ", e.id);
    LabelPlain("event: ", e.kind);
    if e.retry > 0 {
      DecimalPlain(e.retry / 1000000);
      LabelPlain("retry: ", Decimal(e.retry / 1000000));
    }
  }

  /** No line of a clean action has a break in it. */
  lemma ActionPlain(a: Action)
    requires Clean(a)
    ensures forall l :: l in ActionLines(a) ==> !Breaks(l)
  {
    match a
    case Comment(text) => SpacedPlain(text);
    case Send(e) =>
      if Valid(e) {
        NoReturn(e.data);
        HeadPlain(e);
      }
  }

  lemma CommentBack(text: string, st: State)
    requires st.kind == "" && st.data == ""
    ensures Run([": " + Spaced(text), ""], st) == st
  {
    var l := ": " + Spaced(text);
    assert l == "" + (":" + (" " + Spaced(text)));
    ColonAt("", " " + Spaced(text));
    assert [l, ""][1..] == [""];
    RunOne("", st);
  }

  /** What one action's lines do to a client between two events. */
  lemma ActionBack(a: Action, st: State)
    requires Clean(a) && st.kind == "" && st.data == ""
    ensures var next := Run(ActionLines(a), st);
      next.kind == "" && next.data == "" && next.id == IdAfter(a, st.id)
        && next.events == st.events + Delivered(a, st.id)
  {
    assert st.events + [] == st.events;
    match a
    case Comment(text) => CommentBack(text, st);
    case Send(e) => if Valid(e) { FrameBack(e, st); }
  }

  lemma ActionFirst(a: Action, more: string, st: State)
    requires Clean(a)
    ensures Run(Lines(Ended(ActionLines(a)) + more, ""), st) == Run(Lines(more, ""), Run(ActionLines(a), st))
  {
    ActionPlain(a);
    EndedLines(ActionLines(a), more);
    RunAppend(ActionLines(a), Lines(more, ""), st);
  }

  lemma Joined(a: seq<Message>, b: seq<Message>, c: seq<Message>)
    ensures (a + b) + c == a + (b + c) && a + [] == a
  {
  }

  lemma {:induction false} StreamBack(actions: seq<Action>, st: State)
    requires (forall a :: a in actions ==> Clean(a)) && st.kind == "" && st.data == ""
    ensures Run(Lines(Written(actions), ""), st).events == st.events + Expected(actions, st.id)
  {
    if actions == [] {
      Joined(st.events, [], []);
    } else {
      var a := actions[0];
      ActionFirst(a, Written(actions[1..]), st);
      ActionBack(a, st);
      var next := Run(ActionLines(a), st);
      StreamBack(actions[1..], next);
      Joined(st.events, Delivered(a, st.id), Expected(actions[1..], next.id));
    }
  }

  // --------------------------------------------------- nothing else gets by

  /** What no event can carry, whatever the stream. */
  predicate Clear(st: State) {
    && '\r' !in st.data && '\0' !in st.id
    && forall i :: 0 <= i < |st.events| ==> '\r' !in st.events[i].data && '\0' !in st.events[i].lastId
  }

  lemma {:induction false} LinesPlain(s: string, line: string)
    requires !Breaks(line)
    ensures forall l :: l in Lines(s, line) ==> !Breaks(l)
    decreases |s|
  {
    if s != "" {
      if LineEnd(s[0]) {
        LinesPlain(if s[0] == '\r' && |s| > 1 && s[1] == '\n' then s[2..] else s[1..], "");
      } else {
        LinesPlain(s[1..], line + [s[0]]);
      }
    }
  }

  lemma ProcessClear(line: string, st: State)
    requires Clear(st) && !Breaks(line)
    ensures Clear(Process(line, st))
  {
  }

  lemma {:induction false} RunClear(lines: seq<string>, st: State)
    requires Clear(st) && forall l :: l in lines ==> !Breaks(l)
    ensures Clear(Run(lines, st))
  {
    if lines != [] {
      ProcessClear(lines[0], st);
      RunClear(lines[1..], Process(lines[0], st));
    }
  }

  lemma {:induction false} ExpectedUnclean(actions: seq<Action>, id: string)
    requires exists a :: a in actions && !Clean(a)
    ensures exists i :: 0 <= i < |Expected(actions, id)| && ('\r' in Expected(actions,
      id)[i].data || '\0' in Expected(actions, id)[i].lastId)
  {
    var x := Expected(actions, id);
    if !Clean(actions[0]) {
      assert x[0] == Received(actions[0].event, id);
    } else {
      assert exists a :: a in actions[1..] && !Clean(a);
      var next := IdAfter(actions[0], id);
      ExpectedUnclean(actions[1..], next);
      var y := Expected(actions[1..], next);
      var i :| 0 <= i < |y| && ('\r' in y[i].data || '\0' in y[i].lastId);
      assert x[|Delivered(actions[0], id)| + i] == y[i];
    }
  }

  /** A client receives exactly the events sent, in order, with line ends as LF,
      if and only if none has a bare carriage return in its data or a NUL in its
      ID. */
  lemma SentAsReceived(actions: seq<Action>)
    ensures Interpret(Written(actions)).events == Expected(actions, "") <==> forall a :: a in actions ==> Clean(a)
  {
    if forall a :: a in actions ==> Clean(a) {
      StreamBack(actions, START);
      assert [] + Expected(actions, "") == Expected(actions, "");
    } else {
      LinesPlain(Written(actions), "");
      RunClear(Lines(Written(actions), ""), START);
      ExpectedUnclean(actions, "");
    }
  }

  // ------------------------------------------------------------ the stream

  class Stream {
    var buf: string
    var out: string

    constructor ()
      ensures out == ""
    {
      buf, out := "", "";
    }

    /** A frame for e, if the request is still open and e valid. */
    method Send(e: Event, open: bool) returns (ok: bool)
      modifies this
      ensures ok <==> open && Valid(e)
      ensures out == if ok then old(out) + Ended(ActionLines(Action.Send(e))) else old(out)
    {
      if !open || Breaks(e.id) || Breaks(e.kind) { return false; }
      Write(e);
      out := out + buf;
      return true;
    }

    method Write(e: Event)
      modifies this`buf
      ensures buf == Ended(FrameLines(e))
    {
      buf := "";
      WriteHead(e);
      assert "" + Ended(Head(e)) == Ended(Head(e));
      WriteData(Split(Normal(e.data), '\n'));
      FrameEnded(e);
      buf := buf + "\n";
    }

    method WriteHead(e: Event)
      modifies this`buf
      ensures buf == old(buf) + Ended(Head(e))
    {
      HeadEnded(e);
      ghost var was, a := buf, if e.id != "" then "id: " + e.id + "\n" else "";
      ghost var b := if e.kind != "" then "event: " + e.kind + "\n" else "";
      ghost var c := if e.retry > 0 then "retry: " + Decimal(e.retry / 1000000) + "\n" else "";
      Pieces(was, a, b, c);
      if e.id != "" { buf := buf + ("id: " + e.id + "\n"); }
      assert buf == was + a;
      if e.kind != "" { buf := buf + ("event: " + e.kind + "\n"); }
      assert buf == was + a + b;
      if e.retry > 0 { buf := buf + ("retry: " + Decimal(e.retry / 1000000) + "\n"); }
      assert buf == was + a + b + c;
    }

    method WriteData(parts: seq<string>)
      modifies this`buf
      ensures buf == old(buf) + Ended(DataLines(parts))
    {
      for n := 0 to |parts|
        invariant buf == old(buf) + Ended(DataLines(parts[..n]))
      {
        DataEnded(parts, n);
        assert old(buf) + Ended(DataLines(parts[..n])) + ("data: " + parts[n] + "\n")
          == old(buf) + Ended(DataLines(parts[..n+1]));
        buf := buf + ("data: " + parts[n] + "\n");
      }
      assert parts[..|parts|] == parts;
    }

    method Comment(text: string, open: bool)
      modifies this
      ensures out == if open then old(out) + Ended(ActionLines(Action.Comment(text))) else old(out)
    {
      if open {
        EndedAppend([": " + Spaced(text)], [""]);
        assert [": " + Spaced(text), ""] == [": " + Spaced(text)] + [""];
        assert Ended([""]) == "\n" && Ended([": " + Spaced(text)]) == ": " + Spaced(text) + "\n";
        out := out + (": " + Spaced(text) + "\n" + "\n");
      }
    }
  }

  lemma {:induction false} WrittenAppend(actions: seq<Action>, a: Action)
    ensures Written(actions + [a]) == Written(actions) + Ended(ActionLines(a))
  {
    if actions == [] {
      assert actions + [a] == [a] && [a][1..] == [];
      Pieces("", Ended(ActionLines(a)), "", "");
    } else {
      assert (actions + [a])[0] == actions[0] && (actions + [a])[1..] == actions[1..] + [a];
      WrittenAppend(actions[1..], a);
      Pieces(Ended(ActionLines(actions[0])), Written(actions[1..]), Ended(ActionLines(a)), "");
    }
  }

  /** Whatever a handler sends on an open stream, what the client has been sent
      is what was written, and it is read as what was meant exactly if all of it
      is clean. */
  method Serve(actions: seq<Action>) returns (s: Stream)
    ensures fresh(s) && s.out == Written(actions)
    ensures Interpret(s.out).events == Expected(actions, "") <==> forall a :: a in actions ==> Clean(a)
  {
    s := new Stream();
    for n := 0 to |actions|
      invariant fresh(s) && s.out == Written(actions[..n])
    {
      match actions[n] {
        case Send(e) =>
          var sent := s.Send(e, true);
          assert !sent ==> s.out + "" == s.out;
        case Comment(text) => s.Comment(text, true);
      }
      assert actions[..n+1] == actions[..n] + [actions[n]];
      WrittenAppend(actions[..n], actions[n]);
    }
    assert actions[..|actions|] == actions;
    SentAsReceived(actions);
  }

  lemma FrameEnded(e: Event)
    ensures Ended(FrameLines(e)) == Ended(Head(e)) + Ended(DataLines(Split(Normal(e.data), '\n'))) + "\n"
  {
    var data := DataLines(Split(Normal(e.data), '\n'));
    EndedAppend(Head(e) + data, [""]);
    EndedAppend(Head(e), data);
    assert Ended([""]) == "\n";
  }

  lemma {:induction false} EndedAppend(a: seq<string>, b: seq<string>)
    ensures Ended(a + b) == Ended(a) + Ended(b)
  {
    if a == [] {
      assert a + b == b;
    } else {
      assert (a + b)[1..] == a[1..] + b;
      EndedAppend(a[1..], b);
      assert a[0] + "\n" + (Ended(a[1..]) + Ended(b)) == a[0] + "\n" + Ended(a[1..]) + Ended(b);
    }
  }

  lemma Pieces(s: string, a: string, b: string, c: string)
    ensures s + a + b + c == s + (a + b + c) && s + a + b == s + (a + b)
  {
  }

  lemma HeadEnded(e: Event)
    ensures Ended(Head(e)) == (if e.id != "" then "id: " + e.id + "\n" else "")
      + (if e.kind != "" then "event: " + e.kind + "\n" else "")
      + (if e.retry > 0 then "retry: " + Decimal(e.retry / 1000000) + "\n" else "")
  {
    var a := if e.id != "" then ["id: " + e.id] else [];
    var b := if e.kind != "" then ["event: " + e.kind] else [];
    var c := if e.retry > 0 then ["retry: " + Decimal(e.retry / 1000000)] else [];
    EndedAppend(a + b, c);
    EndedAppend(a, b);
  }

  lemma DataEnded(parts: seq<string>, n: nat)
    requires n < |parts|
    ensures Ended(DataLines(parts[..n+1])) == Ended(DataLines(parts[..n])) + ("data: " + parts[n] + "\n")
  {
    assert parts[..n+1] == parts[..n] + [parts[n]];
    DataLinesAppend(parts[..n], parts[n]);
    EndedAppend(DataLines(parts[..n]), ["data: " + parts[n]]);
  }

  lemma {:induction false} DataLinesAppend(parts: seq<string>, p: string)
    ensures DataLines(parts + [p]) == DataLines(parts) + ["data: " + p]
  {
    if parts == [] {
      assert parts + [p] == [p];
    } else {
      assert (parts + [p])[1..] == parts[1..] + [p];
      DataLinesAppend(parts[1..], p);
    }
  }
}
