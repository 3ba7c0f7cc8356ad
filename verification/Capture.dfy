/** Recording a response while it is written to the client, and replaying it. */
module Capture {
  import opened Common

  type Header = map<string, seq<string>>

  datatype Response = Response(status: int, header: Header, body: string)

  const REPLAYED: set<string> :=
    {"Content-Type", "Content-Encoding", "Content-Language", "Content-Disposition",
     "Cache-Control", "ETag", "Last-Modified", "Location", "Vary"}

  function Replayable(h: Header): Header { map k | k in h && k in REPLAYED :: h[k] }

  /** Statuses that net/http sends without a body, whatever the handler writes. */
  predicate Bodiless(status: int) { 100 <= status < 200 || status == 204 || status == 304 }

  predicate Informational(code: int) { 100 <= code < 200 }

  /** The codes net/http accepts; it panics at any other. */
  predicate Sendable(code: int) { 100 <= code <= 999 }

  function Part(b: string, n: nat): string { if n < |b| then b[..n] else b }

  /** What a client has been sent, through net/http and the framework's writer
      below the middleware. */
  class Client {
    var status: int
    var written: bool
    var header: Header
    var sent: Header
    var body: string

    constructor (h: Header)
      ensures !written && header == h && status == 0 && body == ""
    {
      status, written, header, sent, body := 0, false, h, map[], "";
    }

    ghost predicate Valid()
      reads this
    {
      if written then Sendable(status) else status == 0 && body == ""
    }

    method WriteHeader(code: int)
      requires Valid() && Sendable(code)
      modifies this
      ensures Valid() && header == old(header) && body == old(body)
      ensures old(written) || (Informational(code) && code != 101) ==>
        written == old(written) && status == old(status) && sent == old(sent)
      ensures !old(written) && !(Informational(code) && code != 101) ==> written && status == code && sent == header
    {
      if written { return; }
      if Informational(code) && code != 101 { return; }
      status, written, sent := code, true, header;
    }

    /** A write of which only part may get through: the client may be gone, or
        have been promised less. */
    method Write(b: string, through: nat)
      requires Valid()
      modifies this
      ensures Valid() && written && header == old(header)
      ensures status == (if old(written) then old(status) else 200)
      ensures sent == (if old(written) then old(sent) else header)
      ensures body == if Bodiless(status) then old(body) else old(body) + Part(b, through)
    {
      if !written { WriteHeader(200); }
      if !Bodiless(status) { body := body + Part(b, through); }
    }
  }

  class Recorder {
    const w: Client
    const limit: nat
    var status: int
    var header: Header
    var buf: string
    var overflow: bool

    constructor (c: Client, max: nat)
      ensures w == c && limit == max && status == 0 && buf == "" && !overflow
    {
      w, limit, status, header, buf, overflow := c, max, 0, map[], "", false;
    }

    method WriteHeader(code: int)
      requires w.Valid() && Sendable(code)
      modifies this, w
      ensures w.Valid() && buf == old(buf) && w.body == old(w.body) && w.header == old(w.header)
      ensures old(w.written) || (Informational(code) && code != 101) ==>
        w.written == old(w.written) && w.status == old(w.status) && w.sent == old(w.sent)
      ensures !old(w.written) && !(Informational(code) && code != 101) ==>
        w.written && w.status == code && w.sent == w.header
      ensures status == if old(status) == 0 && !Informational(code) then code else old(status)
      ensures old(status) == 0 && !Informational(code) ==>
        header == Replayable(w.header) && (overflow <==> old(overflow) || "Set-Cookie" in w.header)
      ensures !(old(status) == 0 && !Informational(code)) ==> header == old(header) && overflow == old(overflow)
    {
      if status == 0 && !Informational(code) {
        status := code;
        header := Replayable(w.header);
        if "Set-Cookie" in w.header { overflow := true; }
      }
      w.WriteHeader(code);
    }

    /** Records all of b, however much of it gets through. */
    method Write(b: string, through: nat)
      requires w.Valid()
      modifies this, w
      ensures w.Valid() && w.written && w.header == old(w.header)
      ensures w.status == (if old(w.written) then old(w.status) else 200)
      ensures w.sent == (if old(w.written) then old(w.sent) else w.header)
      ensures w.body == if Bodiless(w.status) then old(w.body) else old(w.body) + Part(b, through)
      ensures status == (if old(status) == 0 then 200 else old(status))
      ensures header == (if old(status) == 0 then Replayable(w.header) else old(header))
      ensures var spoilt := old(overflow) || (old(status) == 0 && "Set-Cookie" in w.header);
        && overflow == (spoilt || |old(buf)| + |b| > limit)
        && (!overflow ==> buf == old(buf) + b)
    {
      if status == 0 { WriteHeader(200); }
      if !overflow {
        if |buf| + |b| > limit {
          overflow, buf := true, "";
        } else {
          buf := buf + b;
        }
      }
      w.Write(b, through);
    }

    method Result() returns (r: Option<Response>)
      ensures r == if status == 0 || overflow then None else Some(Response(status, header, buf))
    {
      if status == 0 || overflow { return None; }
      return Some(Response(status, header, buf));
    }
  }

  /** What a handler may do to its response. */
  datatype Action =
    | SetHeader(name: string, values: seq<string>)
    | WriteHeader(code: int)
    | Write(bytes: string, through: nat)
    | Flush

  /** The framework's writer on top of the recorder, as handlers see it. */
  class Writer {
    const rec: Recorder
    var written: bool
    /** Everything the handler has written, and what of it got through. */
    ghost var all: string
    ghost var got: string

    ghost predicate Valid()
      reads this, rec, rec.w
    {
      && rec.w.Valid() && written == rec.w.written
      && (rec.status != 0 ==> written && Sendable(rec.status) && !Informational(rec.status))
      && (rec.status == 0 ==> all == "" && got == "" && rec.buf == "" && !rec.overflow)
      && (written ==> if rec.w.status == 101 then rec.status in {0, 200} else rec.status == rec.w.status)
      && (rec.w.body == if Bodiless(rec.w.status) then "" else got)
      && (!rec.overflow ==> rec.buf == all && |all| <= rec.limit)
      && (written && rec.w.status != 101 ==>
            rec.header == Replayable(rec.w.sent) && (rec.overflow <==> "Set-Cookie" in rec.w.sent || |all| > rec.limit))
    }

    constructor (r: Recorder)
      requires r.w.Valid() && !r.w.written && r.status == 0 && r.buf == "" && !r.overflow
      ensures Valid() && rec == r && all == "" && got == "" && !written
    {
      rec, written, all, got := r, false, "", "";
    }

    method Act(a: Action)
      requires Valid() && (a.WriteHeader? ==> Sendable(a.code))
      modifies this, rec, rec.w
      ensures Valid() && all == (if a.Write? then old(all) + a.bytes else old(all))
      ensures got == if a.Write? then old(got) + Part(a.bytes, a.through) else old(got)
      ensures rec.w.status == if old(written) then old(rec.w.status) else Commits(a)
      ensures rec.w.header == if a.SetHeader? then old(rec.w.header)[a.name := a.values] else old(rec.w.header)
    {
      match a
      case SetHeader(k, v) => rec.w.header := rec.w.header[k := v];
      case WriteHeader(code) => Head(code);
      case Write(b, n) =>
        if !written { Head(200); }
        rec.Write(b, n);
        all, got := all + b, got + Part(b, n);
      case Flush =>
        if !written { Head(200); }
    }

    method Head(code: int)
      requires Valid() && Sendable(code)
      modifies this, rec, rec.w
      ensures Valid() && all == old(all) && got == old(got) && rec.w.header == old(rec.w.header)
      ensures rec.w.status == if old(written) then old(rec.w.status) else Commits(WriteHeader(code))
      ensures old(written) || !(Informational(code) && code != 101) ==> written
    {
      if written { return; }
      if !(Informational(code) && code != 101) { written := true; }
      rec.WriteHeader(code);
    }
  }

  /** The status an action commits a response to, or 0. */
  function Commits(a: Action): int {
    match a
    case SetHeader(_, _) => 0
    case WriteHeader(code) => if Informational(code) && code != 101 then 0 else code
    case Write(_, _) => 200
    case Flush => 200
  }

  /** The status a handler's actions commit its response to. */
  function Committed(actions: seq<Action>): int {
    if actions == [] then 0
    else if Commits(actions[0]) != 0 then Commits(actions[0])
    else Committed(actions[1..])
  }

  function Bytes(actions: seq<Action>): string {
    if actions == [] then ""
    else
      var last := actions[|actions|-1];
      Bytes(actions[..|actions|-1]) + if last.Write? then last.bytes else ""
  }

  /** What of it gets through to the client. */
  function Through(actions: seq<Action>): string {
    if actions == [] then ""
    else
      var last := actions[|actions|-1];
      Through(actions[..|actions|-1]) + if last.Write? then Part(last.bytes, last.through) else ""
  }

  lemma {:induction false} CommittedAppend(actions: seq<Action>, a: Action)
    ensures Committed(actions + [a]) == if Committed(actions) != 0 then Committed(actions) else Commits(a)
  {
    if actions == [] {
      assert actions + [a] == [a];
    } else {
      assert (actions + [a])[1..] == actions[1..] + [a];
      CommittedAppend(actions[1..], a);
    }
  }

  lemma BytesAppend(actions: seq<Action>, a: Action)
    ensures Bytes(actions + [a]) == Bytes(actions) + if a.Write? then a.bytes else ""
    ensures Through(actions + [a]) == Through(actions) + if a.Write? then Part(a.bytes, a.through) else ""
  {
    assert (actions + [a])[..|actions|] == actions;
  }

  /** Every write got through to its end. */
  ghost predicate AllThrough(actions: seq<Action>) {
    forall a :: a in actions && a.Write? ==> a.through >= |a.bytes|
  }

  /** A client is sent all that was written exactly if every write got through. */
  lemma {:induction false} ThroughIsAll(actions: seq<Action>)
    ensures |Through(actions)| <= |Bytes(actions)|
    ensures Through(actions) == Bytes(actions) <==> AllThrough(actions)
  {
    if actions != [] {
      var n := |actions| - 1;
      var front, last := actions[..n], actions[n];
      ThroughIsAll(front);
      assert actions == front + [last];
      if last.Write? {
        Longer(Through(front), Part(last.bytes, last.through), Bytes(front), last.bytes);
      } else {
        assert Through(front) + "" == Through(front) && Bytes(front) + "" == Bytes(front);
      }
    }
  }

  /** Neither of two parts can make up for the other being shorter. */
  lemma Longer(a: string, b: string, c: string, d: string)
    requires |a| <= |c| && |b| <= |d|
    ensures a + b == c + d <==> a == c && b == d
  {
    if a + b == c + d {
      assert |a| == |c| && |b| == |d|;
      assert (a + b)[..|a|] == a && (c + d)[..|c|] == c && (a + b)[|a|..] == b && (c + d)[|c|..] == d;
    }
  }

  /** The body a client sees of what is sent with this status. */
  function Shown(status: int, body: string): string { if Bodiless(status) then "" else body }

  /** A whole handler, doing anything it likes to its response, of which the
      client may get less. What is kept for replay is the status, but 200 for
      101, and the bytes written; and something is kept exactly if the response
      was begun, fits the limit and sets no cookie. */
  method Record(w: Client, limit: nat, actions: seq<Action>) returns (r: Option<Response>)
    requires w.Valid() && !w.written
    requires forall a :: a in actions && a.WriteHeader? ==> Sendable(a.code)
    modifies w
    ensures w.Valid() && w.status == Committed(actions) && w.body == Shown(w.status, Through(actions))
    ensures r.Some? ==> r.value.body == Bytes(actions) && r.value.status == (if w.status == 101 then 200 else w.status)
    ensures r.Some? ==> Sendable(r.value.status) && !Informational(r.value.status)
    ensures r.Some? && w.status != 101 ==> r.value.header == Replayable(w.sent)
    ensures w.status != 101 ==> (r.Some? <==> w.written && |Bytes(actions)| <= limit && "Set-Cookie" !in w.sent)
  {
    var rec := new Recorder(w, limit);
    var out := new Writer(rec);
    for n := 0 to |actions|
      invariant out.Valid() && out.rec == rec && fresh(out) && fresh(rec) && rec.w == w && rec.limit == limit
      invariant out.all == Bytes(actions[..n]) && out.got == Through(actions[..n])
      invariant w.status == Committed(actions[..n])
    {
      out.Act(actions[n]);
      assert actions[..n+1] == actions[..n] + [actions[n]];
      CommittedAppend(actions[..n], actions[n]);
      BytesAppend(actions[..n], actions[n]);
    }
    assert actions[..|actions|] == actions;
    r := rec.Result();
  }

  /** What is to be the same whoever is answered: what the body is, how it was
      made, how long it is good for, and where it or another is. */
  predicate AboutBody(k: string) {
    || k in {"Content-Type", "Content-Encoding", "Content-Language", "Content-Disposition"}
    || k in {"Cache-Control", "ETag", "Last-Modified", "Vary"} || k == "Location"
  }

  /** Answering another client with a kept response. */
  method WriteTo(r: Response, w: Client, extra: Header, through: nat)
    requires w.Valid() && !w.written && Sendable(r.status) && !Informational(r.status)
    modifies w
    ensures w.Valid() && w.written && w.status == r.status && w.body == Shown(r.status, Part(r.body, through))
    ensures w.sent == old(w.header) + r.header + extra
  {
    w.header := w.header + r.header + extra;
    w.WriteHeader(r.status);
    w.Write(r.body, through);
  }

  /** The first client, and a later one that the kept response is replayed to and
      gets through to whole. They are sent the same status exactly if the first
      was not switched to another protocol; and then the same bytes exactly if
      all that was written got through to the first as well. */
  method RecordAndReplay(first: Client, later: Client, limit: nat, actions: seq<Action>, extra: Header)
    returns (kept: bool)
    requires first != later && first.Valid() && !first.written && later.Valid() && !later.written
    requires forall a :: a in actions && a.WriteHeader? ==> Sendable(a.code)
    modifies first, later
    ensures first.status == Committed(actions)
    ensures kept ==> (later.status == first.status <==> first.status != 101)
    ensures kept && first.status != 101 ==>
      (later.body == first.body <==> Bodiless(first.status) || AllThrough(actions))
    ensures kept && first.status != 101 ==> forall k :: AboutBody(k) && k in first.sent && k !in extra ==>
      k in later.sent && later.sent[k] == first.sent[k]
    ensures kept && first.status != 101 ==> forall k :: k in later.sent && !AboutBody(k) && k !in extra ==>
      k in old(later.header) && later.sent[k] == old(later.header[k])
  {
    var r := Record(first, limit, actions);
    if r.None? { return false; }
    ThroughIsAll(actions);
    WriteTo(r.value, later, extra, |r.value.body|);
    return true;
  }
}
