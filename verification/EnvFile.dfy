/** What parsing makes of a .env file: of every assignment what it stands for, and
    of the first thing that is wrong an error with its line. */
module EnvFile {
  import opened Common
  import opened DotEnv
  import opened EnvForm
  import opened EnvRead
  import opened Text

  // ---------------------------------------------------------------- the file

  /** Whatever comes behind these lines, they give these entries, and the names
      in scope after them are those. */
  ghost predicate Gives(lines: seq<string>, vars: map<string, string>, kvs: seq<KeyValue>, after: map<string, string>) {
    forall more, total {:trigger ParseLines(lines + more, total, vars)} :: |lines + more| <= total ==>
      ParseLines(lines + more, total, vars) == Following(kvs, ParseLines(more, total, after))
  }

  lemma GivesNothing(vars: map<string, string>)
    ensures Gives([], vars, [], vars)
  {
    forall more, total | |[] + more| <= total
      ensures ParseLines([] + more, total, vars) == Following([], ParseLines(more, total, vars))
    {
      assert [] + more == more;
      FollowingNone(ParseLines(more, total, vars));
    }
  }

  lemma GivesBoth(a: seq<string>, vars: map<string, string>, kvs: seq<KeyValue>, mid: map<string, string>,
    b: seq<string>, kvs': seq<KeyValue>, after: map<string, string>)
    requires Gives(a, vars, kvs, mid) && Gives(b, mid, kvs', after)
    ensures Gives(a + b, vars, kvs + kvs', after)
  {
    forall more, total | |(a + b) + more| <= total
      ensures ParseLines((a + b) + more, total, vars) == Following(kvs + kvs', ParseLines(more, total, after))
    {
      var rest := b + more;
      GivesOnce(a, vars, kvs, mid, rest, total);
      GivesOnce(b, mid, kvs', after, more, total);
      Grouped(a, b, more);
      FollowingTwo(kvs, kvs', ParseLines(more, total, after));
    }
  }

  lemma GivesOnce(lines: seq<string>, vars: map<string, string>, kvs: seq<KeyValue>, after: map<string, string>,
    more: seq<string>, total: nat)
    requires Gives(lines, vars, kvs, after) && |lines + more| <= total
    ensures ParseLines(lines + more, total, vars) == Following(kvs, ParseLines(more, total, after))
  {
  }

  lemma Grouped(a: seq<string>, b: seq<string>, c: seq<string>)
    ensures (a + b) + c == a + (b + c)
  {
  }

  lemma FollowingNone(r: Result<seq<KeyValue>, Error>)
    ensures Following([], r) == r
  {
    if r.Ok? { assert [] + r.value == r.value; }
  }

  lemma FollowingTwo(a: seq<KeyValue>, b: seq<KeyValue>, r: Result<seq<KeyValue>, Error>)
    ensures Following(a + b, r) == Following(a, Following(b, r))
  {
    if r.Ok? { assert (a + b) + r.value == a + (b + r.value); }
  }

  lemma AssignRead(e: Entry, vars: map<string, string>, earlier: seq<KeyValue>, env: map<string, string>)
    returns (v: string)
    requires e.Assign? && Proper(e) && InScope(vars, earlier, env)
    ensures v == Stands(e.form, earlier, env) <==> Keeps(e.form)
    ensures Gives(Physical(e), vars, [KeyValue(e.key, v)], vars[e.key := v])
  {
    v := FormRead(e.form, vars, earlier, env);
    forall more, total | |Physical(e) + more| <= total
      ensures ParseLines(Physical(e) + more, total, vars)
           == Following([KeyValue(e.key, v)], ParseLines(more, total, vars[e.key := v]))
    {
      ReadParsed(e, Physical(e) + more, more, total, vars, v);
    }
  }

  lemma ReadParsed(e: Entry, all: seq<string>, more: seq<string>, total: nat, vars: map<string, string>, v: string)
    requires e.Assign? && Proper(e) && all == Physical(e) + more && |all| <= total
    requires ReadAs(e.form, more, total - |all| + 1, vars, v)
    ensures ParseLines(all, total, vars) == Following([KeyValue(e.key, v)], ParseLines(more, total, vars[e.key := v]))
  {
    var lines := Split(Raw(e.form), '\n');
    var tail := HeadRead(e, lines[0]);
    var first, rest := Head(e) + lines[0], lines[1..] + more;
    PhysicalParts(e, more);
    EntryParsed(all, total, vars, e.key, tail, TrimRight(lines[0], IsSpace), first, rest, v, more);
  }

  lemma PhysicalParts(e: Entry, more: seq<string>)
    requires e.Assign?
    ensures var lines := Split(Raw(e.form), '\n');
      (Physical(e) + more)[0] == Head(e) + lines[0] && (Physical(e) + more)[1..] == lines[1..] + more
  {
  }

  lemma EntryParsed(lines: seq<string>, total: nat, vars: map<string, string>, key: string, tail: string, raw: string,
    first: string, rest: seq<string>, v: string, more: seq<string>)
    requires 0 < |lines| <= total && ValidKey(key) && lines[0] == first && lines[1..] == rest
    requires TrimSpace(first) != "" && TrimSpace(first)[0] != '#' && Splits(Unexported(TrimSpace(first)), key, tail)
    requires TrimLeft(tail, IsBlank) == raw && Value(raw, rest, total - |lines| + 1, vars) == Ok((v, more))
    ensures |more| < |lines|
    ensures ParseLines(lines, total, vars) == Following([KeyValue(key, v)], ParseLines(more, total, vars[key := v]))
  {
  }

  lemma FillerRead(e: Entry, vars: map<string, string>)
    requires e.Filler? && Proper(e)
    ensures Gives(Physical(e), vars, [], vars)
  {
    FillerSkipped(e);
    forall more, total | |Physical(e) + more| <= total
      ensures ParseLines(Physical(e) + more, total, vars) == Following([], ParseLines(more, total, vars))
    {
      var all := Physical(e) + more;
      assert all[0] == e.indent + e.comment && all[1..] == more;
      FollowingNone(ParseLines(more, total, vars));
    }
  }

  ghost predicate AllProper(file: seq<Entry>) { forall e :: e in file ==> Proper(e) }

  ghost predicate AllKeep(file: seq<Entry>) { forall e :: e in file && e.Assign? ==> Keeps(e.form) }

  /** The rest of a file, after some entries. */
  lemma {:induction false} RestMeans(file: seq<Entry>, vars: map<string, string>, earlier: seq<KeyValue>,
    env: map<string, string>) returns (kvs: seq<KeyValue>, after: map<string, string>)
    requires InScope(vars, earlier, env) && AllProper(file)
    ensures Gives(AllLines(file), vars, kvs, after)
    ensures MeansAfter(kvs, Assigns(file), earlier, env) <==> AllKeep(file)
    decreases |file|
  {
    if file == [] {
      kvs, after := [], vars;
      GivesNothing(vars);
    } else if file[0].Filler? {
      FillerRead(file[0], vars);
      kvs, after := RestMeans(file[1..], vars, earlier, env);
      GivesBoth(Physical(file[0]), vars, [], vars, AllLines(file[1..]), kvs, after);
      assert [] + kvs == kvs && [] + Assigns(file[1..]) == Assigns(file[1..]);
      assert AllKeep(file) <==> AllKeep(file[1..]);
    } else {
      var e := file[0];
      var v := AssignRead(e, vars, earlier, env);
      var kv := KeyValue(e.key, v);
      ScopeNext(vars, earlier, env, kv);
      var tail: seq<KeyValue>;
      tail, after := RestMeans(file[1..], vars[e.key := v], earlier + [kv], env);
      kvs := [kv] + tail;
      GivesBoth(Physical(e), vars, [kv], vars[e.key := v], AllLines(file[1..]), tail, after);
      OneMore(Assigns(file), earlier, env, kv, tail);
      assert AllKeep(file) <==> AllKeep(file[1..]) && Keeps(e.form);
    }
  }

  lemma OneMore(file: seq<Entry>, earlier: seq<KeyValue>, env: map<string, string>, kv: KeyValue, tail: seq<KeyValue>)
    requires file != [] && (forall e :: e in file ==> e.Assign?)
    ensures MeansAfter([kv] + tail, file, earlier, env) <==>
      kv == KeyValue(file[0].key, Stands(file[0].form, earlier, env))
        && MeansAfter(tail, file[1..], earlier + [kv], env)
  {
    var kvs := [kv] + tail;
    assert earlier + kvs[..0] == earlier;
    if |kvs| == |file| {
      forall i | 1 <= i < |file|
        ensures kvs[i] == tail[i-1] && file[i] == file[1..][i-1]
        ensures earlier + kvs[..i] == earlier + [kv] + tail[..i-1] {}
    }
    if MeansAfter(kvs, file, earlier, env) {
      forall i | 0 <= i < |tail|
        ensures tail[i] == KeyValue(file[1..][i].key, Stands(file[1..][i].form, (earlier + [kv]) + tail[..i], env))
      {
        assert kvs[i+1] == KeyValue(file[i+1].key, Stands(file[i+1].form, earlier + kvs[..i+1], env));
      }
    }
  }

  // ------------------------------------------------------------- its lines

  lemma {:induction false} SplitFree(s: string, sep: char, c: char)
    requires c !in s
    ensures forall p :: p in Split(s, sep) ==> c !in p
  {
    if s != "" { SplitFree(s[1..], sep, c); }
  }

  lemma {:induction false} BodyFree(pieces: seq<Piece>)
    requires forall p :: p in pieces ==> InQuotes(p) || Outside(p)
    ensures '\r' !in Body(pieces)
  {
    if pieces != [] {
      assert InQuotes(pieces[0]) || Outside(pieces[0]);
      BodyFree(pieces[1..]);
      if pieces[0].Ref? { KeyPlain(pieces[0].key, '\r'); }
    }
  }

  lemma HeadOneLine(e: Entry)
    requires e.Assign? && Proper(e)
    ensures OneLine(Head(e))
  {
    KeyPlain(e.key, '\n');
    KeyPlain(e.key, '\r');
    if e.prefix != "" {
      assert e.prefix == "export " + e.prefix[|"export "|..];
      OneLineTwo("export ", e.prefix[|"export "|..]);
    }
    OneLineTwo("=", e.blanks);
    OneLineTwo(e.gap, "=" + e.blanks);
    OneLineTwo(e.key, e.gap + ("=" + e.blanks));
    OneLineTwo(e.prefix, e.key + (e.gap + ("=" + e.blanks)));
    OneLineTwo(e.indent, e.prefix + (e.key + (e.gap + ("=" + e.blanks))));
  }

  lemma OneLineTwo(a: string, b: string)
    requires OneLine(a) && OneLine(b)
    ensures OneLine(a + b)
  {
  }

  lemma PhysicalClean(e: Entry)
    requires Proper(e)
    ensures forall l :: l in Physical(e) ==> OneLine(l)
  {
    if e.Assign? {
      var raw := Raw(e.form);
      var lines := Split(raw, '\n');
      HeadOneLine(e);
      if !e.form.Single? { BodyFree(e.form.pieces); }
      SplitFree(raw, '\n', '\r');
      JoinSplit(raw, '\n');
      assert forall l :: l in lines ==> OneLine(l);
      forall l | l in Physical(e) ensures OneLine(l) {
        if l != Head(e) + lines[0] { assert l in lines[1..]; }
      }
    }
  }

  lemma {:induction false} AllClean(file: seq<Entry>)
    requires AllProper(file)
    ensures forall l :: l in AllLines(file) ==> OneLine(l)
  {
    if file != [] {
      PhysicalClean(file[0]);
      AllClean(file[1..]);
    }
  }

  ghost predicate LineEnd(eol: string) { eol == "\n" || eol == "\r\n" }

  lemma {:induction false} LinesOf(lines: seq<string>, eol: string)
    requires LineEnd(eol) && forall l :: l in lines ==> OneLine(l)
    ensures Lines(Ended(lines, eol)) == lines
  {
    if lines != [] {
      LinesOf(lines[1..], eol);
      assert lines[0] in lines;
      OneOff(lines[0], eol, Ended(lines[1..], eol));
    }
  }

  lemma OneOff(l: string, eol: string, rest: string)
    requires LineEnd(eol) && OneLine(l)
    ensures Lines(l + (eol + rest)) == [l] + Lines(rest)
  {
    if eol == "\n" {
      FirstLine(l, rest);
      assert l != "" ==> l[|l|-1] in l;
    } else {
      var cut := l + "\r";
      FirstLine(cut, rest);
      ReturnFirst(l, rest);
      assert cut[..|cut|-1] == l;
    }
  }

  lemma ReturnFirst(l: string, rest: string)
    ensures l + ("\r\n" + rest) == (l + "\r") + ("\n" + rest)
  {
    assert "\r\n" + rest == "\r" + ("\n" + rest);
  }

  /** A file is parsed whichever way its lines end. It gives each of its
      assignments the value its form stands for, and nothing else, if and only if
      no value in double quotes has white space before its first line break. */
  lemma EntriesMean(file: seq<Entry>, eol: string, env: map<string, string>)
    requires AllProper(file) && LineEnd(eol)
    ensures var r := Parse(Ended(AllLines(file), eol), env);
      r.Ok? && (MeansAfter(r.value, Assigns(file), [], env) <==> AllKeep(file))
  {
    var lines := AllLines(file);
    AllClean(file);
    ParseIs(lines, eol, env);
    ScopeStart(env);
    var kvs, after := RestMeans(file, env, [], env);
    GivesOnce(lines, env, kvs, after, [], |lines|);
    assert lines + [] == lines && kvs + [] == kvs;
  }

  lemma ParseIs(lines: seq<string>, eol: string, env: map<string, string>)
    requires LineEnd(eol) && forall l :: l in lines ==> OneLine(l)
    ensures Parse(Ended(lines, eol), env) == ParseLines(lines, |lines|, env)
  {
    LinesOf(lines, eol);
  }

  lemma ScopeStart(env: map<string, string>)
    ensures InScope(env, [], env)
  {
  }

  // ----------------------------------------------------------------- faults

  /** A line that is wrong: no equals sign, no key before it, a quote that is not
      closed, or an escape there is not. */
  datatype Fault =
    | NoEquals(line: string)
    | NoKey(before: string, rest: string)
    | SingleOpen(head: Entry, text: string)
    | DoubleOpen(head: Entry, text: string)
    | NoEscape(head: Entry, pieces: seq<Piece>, c: char, rest: string)

  ghost predicate Untrimmed(s: string) { s != "" ==> !IsSpace(s[0]) && !IsSpace(s[|s|-1]) }

  ghost predicate HeadOnly(e: Entry) { e.Assign? && Proper(e) && e.form == Bare([], "") }

  ghost predicate Wrong(f: Fault) {
    match f
    case NoEquals(line) =>
      OneLine(line) && Untrimmed(line) && line != "" && line[0] != '#' && !("export " <= line) && '=' !in line
    case NoKey(before, rest) =>
      && OneLine(before) && Untrimmed(before) && !("export " <= before) && '=' !in before && !ValidKey(before)
      && (before != "" ==> before[0] != '#') && OneLine(rest)
    case SingleOpen(head, text) => HeadOnly(head) && OneLine(text) && '\'' !in text
    case DoubleOpen(head, text) => HeadOnly(head) && OneLine(text) && '"' !in text
    case NoEscape(head, pieces, c, rest) =>
      && HeadOnly(head) && (forall p :: p in pieces ==> InQuotes(p)) && '\n' !in Body(pieces)
      && c !in {'n', 't', 'r', '"', '\\', '$', '\n', '\r'} && OneLine(rest) && '"' !in rest && '\\' !in rest
  }

  function Faulty(f: Fault): string
    requires f.SingleOpen? || f.DoubleOpen? || f.NoEscape? ==> f.head.Assign?
  {
    match f
    case NoEquals(line) => line
    case NoKey(before, rest) => before + ("=" + rest)
    case SingleOpen(head, text) => Head(head) + ("'" + text)
    case DoubleOpen(head, text) => Head(head) + ("\"" + text)
    case NoEscape(head, pieces, c, rest) => Head(head) + ("\"" + (Body(pieces) + (['\\', c] + rest) + "\""))
  }

  function Told(f: Fault, n: nat): Error {
    match f
    case SingleOpen(_, _) => OpenSingle(n)
    case DoubleOpen(_, _) => OpenDouble(n)
    case NoEscape(_, _, c, _) => BadEscape(n, c)
    case _ => BadLine(n)
  }

  lemma EntryFails(lines: seq<string>, total: nat, vars: map<string, string>, key: string, tail: string, raw: string,
    first: string, rest: seq<string>, e: Error)
    requires 0 < |lines| <= total && ValidKey(key) && lines[0] == first && lines[1..] == rest
    requires TrimSpace(first) != "" && TrimSpace(first)[0] != '#' && Splits(Unexported(TrimSpace(first)), key, tail)
    requires TrimLeft(tail, IsBlank) == raw && Value(raw, rest, total - |lines| + 1, vars) == Err(e)
    ensures ParseLines(lines, total, vars) == Err(e)
  {
  }

  lemma KeylessFails(f: Fault, more: seq<string>, total: nat, vars: map<string, string>)
    requires Wrong(f) && (f.NoEquals? || f.NoKey?) && |[Faulty(f)] + more| <= total
    ensures ParseLines([Faulty(f)] + more, total, vars) == Err(BadLine(total - |more|))
  {
    var line := Faulty(f);
    assert ([line] + more)[0] == line;
    if f.NoKey? {
      KeylessTrimmed(f);
      FirstAt(f.before, '=', TrimRight(f.rest, IsSpace));
    } else {
      assert TrimSpace(line) == line;
    }
  }

  lemma KeylessTrimmed(f: Fault)
    requires Wrong(f) && f.NoKey?
    ensures TrimSpace(Faulty(f)) == f.before + (['='] + TrimRight(f.rest, IsSpace)) && TrimSpace(f.before) == f.before
    ensures TrimSpace(Faulty(f))[0] != '#' && TrimSpace(Faulty(f))[..|f.before|] == f.before
    ensures Unexported(TrimSpace(Faulty(f))) == TrimSpace(Faulty(f))
  {
    var front, left := f.before + "=", TrimRight(f.rest, IsSpace);
    assert Faulty(f) == front + f.rest && front + left == f.before + (['='] + left);
    TrimRightPast(front, f.rest);
    NotPrefixed(f.before, left);
  }

  lemma NotPrefixed(before: string, left: string)
    requires !("export " <= before)
    ensures !("export " <= before + (['='] + left))
  {
    var line := before + (['='] + left);
    assert line[..|before|] == before && line[|before|] == '=';
    if |before| < 7 { assert "export "[|before|] != '='; } else { assert line[..7] == before[..7]; }
  }

  /** What Value says of the first line of a value and the lines behind it. */
  ghost predicate FailsAs(r: string, rest: seq<string>, n: nat, vars: map<string, string>, e: Error) {
    (Spaces(r) || !IsSpace(r[0])) && Value(TrimRight(r, IsSpace), rest, n, vars) == Err(e)
  }

  lemma HeadFails(head: Entry, r: string, more: seq<string>, total: nat, vars: map<string, string>, e: Error)
    requires HeadOnly(head) && 1 + |more| <= total && FailsAs(r, more, total - |more|, vars, e)
    ensures ParseLines([Head(head) + r] + more, total, vars) == Err(e)
  {
    var tail := HeadRead(head, r);
    var lines := [Head(head) + r] + more;
    assert lines[1..] == more;
    EntryFails(lines, total, vars, head.key, tail, TrimRight(r, IsSpace), Head(head) + r, more, e);
  }

  lemma SingleFails(text: string, more: seq<string>, n: nat, vars: map<string, string>)
    requires '\'' !in text
    ensures FailsAs("'" + text, more, n, vars, OpenSingle(n))
  {
    TrimRightPast("'", text);
    TrimRightHead(text);
    NoQuote(TrimRight(text, IsSpace), more, n, vars);
  }

  lemma NoQuote(left: string, more: seq<string>, n: nat, vars: map<string, string>)
    requires '\'' !in left
    ensures Value("'" + left, more, n, vars) == Err(OpenSingle(n))
  {
    var raw := "'" + left;
    assert raw[0] == '\'' && raw[1..] == left;
    assert forall i :: 0 <= i < |left| ==> left[i..i+1] == [left[i]] && left[i] in left;
  }

  lemma {:induction false} QuotedOpen(body: string, more: seq<string>, n: nat, vars: map<string, string>)
    requires '"' !in body && forall l :: l in more ==> '"' !in l
    ensures Quoted(body, more, n, vars) == Err(OpenDouble(n))
    decreases |more|
  {
    if more != [] { QuotedOpen(body + "\n" + more[0], more[1..], n, vars); }
  }

  lemma DoubleFails(text: string, more: seq<string>, n: nat, vars: map<string, string>)
    requires '"' !in text && forall l :: l in more ==> '"' !in l
    ensures FailsAs("\"" + text, more, n, vars, OpenDouble(n))
  {
    var left := TrimRight(text, IsSpace);
    TrimRightPast("\"", text);
    TrimRightHead(text);
    QuotedValue(left, more, n, vars);
    QuotedOpen(left, more, n, vars);
  }

  lemma EscapeFails(pieces: seq<Piece>, c: char, rest: string, more: seq<string>, n: nat, vars: map<string, string>)
    requires (forall p :: p in pieces ==> InQuotes(p)) && c !in {'n', 't', 'r', '"', '\\', '$'}
    requires '"' !in rest && '\\' !in rest
    ensures FailsAs("\"" + (Body(pieces) + (['\\', c] + rest) + "\""), more, n, vars, BadEscape(n, c))
  {
    var strange := ['\\', c] + rest;
    var inner := Body(pieces) + strange;
    QuoteKept(inner);
    QuotedValue(inner + "\"", more, n, vars);
    StrangeTail(c, rest);
    StrangeCloses(pieces, strange, strange + "\"");
    Onward(Body(pieces), strange, "\"");
    StrangeFails(pieces, c, rest);
    assert (inner + "\"")[..|inner|] == inner;
  }

  lemma QuoteKept(inner: string)
    ensures TrimRight("\"" + (inner + "\""), IsSpace) == "\"" + (inner + "\"")
  {
    assert ("\"" + (inner + "\""))[|inner|+1] == '"';
  }

  lemma StrangeFails(pieces: seq<Piece>, c: char, rest: string)
    requires (forall p :: p in pieces ==> InQuotes(p)) && c !in {'n', 't', 'r', '"', '\\', '$'}
    ensures Unescape(Body(pieces) + (['\\', c] + rest)) == Err(c)
  {
    UnescapePast(pieces, ['\\', c] + rest);
    assert (['\\', c] + rest)[1] == c;
  }

  lemma StrangeCloses(pieces: seq<Piece>, strange: string, closed: string)
    requires (forall p :: p in pieces ==> InQuotes(p)) && ClosingQuote(closed) == Some(|strange|)
    ensures ClosingQuote(Body(pieces) + closed) == Some(|Body(pieces) + strange|)
  {
    BodyPast(pieces, closed);
  }

  lemma StrangeTail(c: char, rest: string)
    requires '"' !in rest && '\\' !in rest
    ensures ClosingQuote((['\\', c] + rest) + "\"") == Some(|['\\', c] + rest|)
  {
    PlainPast(rest, "\"");
    SlashPast(c, rest + "\"");
    PastBoth(['\\', c], rest, "\"");
  }

  lemma SlashPast(c: char, rest: string)
    ensures ClosingQuote(['\\', c] + rest) == Shifted(ClosingQuote(rest), 2)
  {
    var s := ['\\', c] + rest;
    assert s[0] == '\\' && s[2..] == rest;
  }

  lemma FaultRead(f: Fault, more: seq<string>, total: nat, vars: map<string, string>)
    requires Wrong(f) && 1 + |more| <= total
    requires f.DoubleOpen? ==> forall l :: l in more ==> '"' !in l
    ensures ParseLines([Faulty(f)] + more, total, vars) == Err(Told(f, total - |more|))
  {
    match f
    case NoEquals(_) => KeylessFails(f, more, total, vars);
    case NoKey(_, _) => KeylessFails(f, more, total, vars);
    case SingleOpen(head, text) =>
      SingleFails(text, more, total - |more|, vars);
      HeadFails(head, "'" + text, more, total, vars, OpenSingle(total - |more|));
    case DoubleOpen(head, text) =>
      DoubleFails(text, more, total - |more|, vars);
      HeadFails(head, "\"" + text, more, total, vars, OpenDouble(total - |more|));
    case NoEscape(head, pieces, c, rest) =>
      EscapeFails(pieces, c, rest, more, total - |more|, vars);
      HeadFails(head, "\"" + (Body(pieces) + (['\\', c] + rest) + "\""), more, total, vars,
        BadEscape(total - |more|, c));
  }

  lemma FaultClean(f: Fault)
    requires Wrong(f)
    ensures OneLine(Faulty(f))
  {
    match f
    case NoEquals(_) =>
    case NoKey(_, _) =>
    case SingleOpen(head, _) => HeadOneLine(head);
    case DoubleOpen(head, _) => HeadOneLine(head);
    case NoEscape(head, pieces, _, _) =>
      HeadOneLine(head);
      BodyFree(pieces);
  }

  /** The first thing wrong in a file is told, with its line; for a value that is
      not closed, the line it begins on. */
  lemma FaultsTold(file: seq<Entry>, f: Fault, more: seq<string>, eol: string, env: map<string, string>)
    requires AllProper(file) && Wrong(f) && LineEnd(eol) && forall l :: l in more ==> OneLine(l)
    requires f.DoubleOpen? ==> forall l :: l in more ==> '"' !in l
    ensures Parse(Ended(AllLines(file) + ([Faulty(f)] + more), eol), env) == Err(Told(f, |AllLines(file)| + 1))
  {
    var bad := [Faulty(f)] + more;
    var all := AllLines(file) + bad;
    FaultyClean(file, f, more);
    ParseIs(all, eol, env);
    var kvs, after := ParsedUpTo(file, bad, env);
    FaultRead(f, more, |all|, after);
    FaultPassed(all, kvs, bad, env, after, Told(f, |AllLines(file)| + 1));
  }

  lemma FaultyClean(file: seq<Entry>, f: Fault, more: seq<string>)
    requires AllProper(file) && Wrong(f) && forall l :: l in more ==> OneLine(l)
    ensures forall l :: l in AllLines(file) + ([Faulty(f)] + more) ==> OneLine(l)
  {
    AllClean(file);
    FaultClean(f);
  }

  lemma ParsedUpTo(file: seq<Entry>, rest: seq<string>, env: map<string, string>)
    returns (kvs: seq<KeyValue>, after: map<string, string>)
    requires AllProper(file)
    ensures var all := AllLines(file) + rest;
      ParseLines(all, |all|, env) == Following(kvs, ParseLines(rest, |all|, after))
  {
    ScopeStart(env);
    kvs, after := RestMeans(file, env, [], env);
    GivesOnce(AllLines(file), env, kvs, after, rest, |AllLines(file) + rest|);
  }

  lemma FaultPassed(all: seq<string>, kvs: seq<KeyValue>, bad: seq<string>, env: map<string, string>,
    after: map<string, string>, e: Error)
    requires |bad| <= |all| && ParseLines(bad, |all|, after) == Err(e)
    requires ParseLines(all, |all|, env) == Following(kvs, ParseLines(bad, |all|, after))
    ensures ParseLines(all, |all|, env) == Err(e)
  {
  }
}
