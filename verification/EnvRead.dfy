/** Reading one assignment of a .env file: its key, and its value in every form. */
module EnvRead {
  import opened Common
  import opened DotEnv
  import opened EnvForm
  import opened Text

  // --------------------------------------------------------------- trimming

  lemma {:induction false} TrimRightPast(a: string, b: string)
    requires a != "" && !IsSpace(a[|a|-1])
    ensures TrimRight(a + b, IsSpace) == a + TrimRight(b, IsSpace)
  {
    if b == "" {
      assert a + b == a;
    } else if IsSpace(b[|b|-1]) {
      assert (a + b)[..|a+b|-1] == a + b[..|b|-1];
      TrimRightPast(a, b[..|b|-1]);
    }
  }

  lemma {:induction false} TrimLeftPast(a: string, b: string, f: char -> bool)
    requires (forall c :: c in a ==> f(c)) && (b != "" ==> !f(b[0]))
    ensures TrimLeft(a + b, f) == b
  {
    if a == "" {
      assert a + b == b;
    } else {
      assert (a + b)[0] == a[0] && a[0] in a && (a + b)[1..] == a[1..] + b;
      TrimLeftPast(a[1..], b, f);
    }
  }

  lemma {:induction false} TrimRightAll(a: string)
    requires forall c :: c in a ==> IsSpace(c)
    ensures TrimRight(a, IsSpace) == ""
  {
    if a != "" {
      assert a[|a|-1] in a;
      TrimRightAll(a[..|a|-1]);
    }
  }

  lemma {:induction false} TrimRightHead(a: string)
    ensures |TrimRight(a, IsSpace)| <= |a| && TrimRight(a, IsSpace) == a[..|TrimRight(a, IsSpace)|]
    ensures a != "" && !IsSpace(a[0]) ==> TrimRight(a, IsSpace) != ""
  {
    if a != "" && IsSpace(a[|a|-1]) { TrimRightHead(a[..|a|-1]); }
  }

  // ------------------------------------------------------- the head of a line

  lemma KeyPlain(k: string, c: char)
    requires ValidKey(k) && !KeyChar(c)
    ensures c !in k
  {
  }

  lemma KeySolid(k: string)
    requires ValidKey(k)
    ensures !IsSpace(k[0]) && !IsSpace(k[|k|-1]) && k[0] != '#'
  {
    assert KeyChar(k[0]) && KeyChar(k[|k|-1]);
  }

  lemma {:induction false} TrimRightKeep(a: string, b: string)
    requires b != "" && !IsSpace(b[0])
    ensures TrimRight(a + b, IsSpace) == a + TrimRight(b, IsSpace)
  {
    if IsSpace(b[|b|-1]) {
      assert (a + b)[..|a+b|-1] == a + b[..|b|-1] && b[..|b|-1][0] == b[0];
      TrimRightKeep(a, b[..|b|-1]);
    }
  }

  /** What is left of the text behind the equals sign. */
  lemma RawLeft(blanks: string, r: string)
    requires Blanks(blanks) && (Spaces(r) || !IsSpace(r[0]))
    ensures TrimLeft(TrimRight(blanks + r, IsSpace), IsBlank) == TrimRight(r, IsSpace)
  {
    if r == "" || IsSpace(r[0]) {
      TrimRightAll(blanks + r);
      TrimRightAll(r);
    } else {
      TrimRightKeep(blanks, r);
      TrimRightHead(r);
      TrimLeftPast(blanks, TrimRight(r, IsSpace), IsBlank);
    }
  }

  /** The key is before the first equals sign, and this is behind it. */
  ghost predicate Splits(entry: string, key: string, rest: string) {
    Index(entry, "=").Some? && var i := Index(entry, "=").value; TrimSpace(entry[..i]) == key && entry[i+1..] == rest
  }

  /** The key is found, whatever is around it. */
  lemma KeyFound(before: string, key: string, gap: string, rest: string, entry: string)
    requires Spaces(before) && ValidKey(key) && Spaces(gap) && entry == before + (key + (gap + ("=" + rest)))
    ensures Splits(entry, key, rest)
  {
    var front := before + (key + gap);
    KeyPlain(key, '=');
    assert '=' !in front;
    FirstAt(front, '=', rest);
    assert entry == front + (['='] + rest);
    assert entry[..|front|] == front;
    KeySolid(key);
    TrimLeftPast(before, key + gap, IsSpace);
    TrimRightPast(key, gap);
    TrimRightAll(gap);
  }

  lemma NotTaken(key: string, gap: string, rest: string)
    requires ValidKey(key) && Spaces(gap) && (key == "export" ==> !(" " <= gap))
    ensures Unexported(key + (gap + ("=" + rest))) == key + (gap + ("=" + rest))
  {
    var line, e := key + (gap + ("=" + rest)), "export ";
    assert gap != "" ==> gap[0] in gap && gap[..1] == [gap[0]];
    assert line[|key|] == if gap == "" then '=' else gap[0];
    if |key| == 6 {
      var start := line[..7];
      assert start[..6] == key && start[6] == line[6];
      assert e[..6] == "export" && e[6] == ' ';
      assert key == "export" ==> line[6] != ' ';
    } else if |key| > 6 {
      assert KeyChar(key[6]) && line[6] == key[6] && e[6] == ' ';
    } else {
      assert e[|key|] != '=' && !IsSpace(e[|key|]);
    }
  }

  /** An entry, with or without the prefix. */
  lemma EntryRead(prefix: string, key: string, gap: string, tail: string, core: string)
    requires core == prefix + (key + (gap + ("=" + tail))) && ValidKey(key) && Spaces(gap)
    requires prefix == "" || ("export " <= prefix && Spaces(prefix[|"export "|..]))
    requires prefix == "" && key == "export" ==> !(" " <= gap)
    ensures Splits(Unexported(core), key, tail)
  {
    var rest := key + (gap + ("=" + tail));
    if prefix == "" {
      assert core == rest;
      NotTaken(key, gap, tail);
      KeyFound("", key, gap, tail, core);
    } else {
      var more := prefix[|"export "|..];
      PrefixOff(prefix, rest);
      KeyFound(more, key, gap, tail, more + rest);
    }
  }

  lemma PrefixOff(prefix: string, rest: string)
    requires "export " <= prefix
    ensures Unexported(prefix + rest) == prefix[|"export "|..] + rest
  {
    assert prefix == "export " + prefix[|"export "|..];
    assert "export " <= prefix + rest;
  }

  /** The first line of an assignment, up to what is left for the value. */
  lemma HeadRead(e: Entry, r: string) returns (tail: string)
    requires e.Assign? && Proper(e) && (Spaces(r) || !IsSpace(r[0]))
    ensures var line := TrimSpace(Head(e) + r); line != "" && line[0] != '#' && Splits(Unexported(line), e.key, tail)
    ensures TrimLeft(tail, IsBlank) == TrimRight(r, IsSpace)
  {
    tail := TrimRight(e.blanks + r, IsSpace);
    HeadTrimmed(e, r);
    RawLeft(e.blanks, r);
    var line := TrimSpace(Head(e) + r);
    EntryRead(e.prefix, e.key, e.gap, tail, line);
    KeySolid(e.key);
    assert e.prefix != "" ==> e.prefix[0] == "export "[0];
  }

  lemma HeadTrimmed(e: Entry, r: string)
    requires e.Assign? && Proper(e)
    ensures TrimSpace(Head(e) + r) == e.prefix + (e.key + (e.gap + ("=" + TrimRight(e.blanks + r, IsSpace))))
  {
    var core, rest := e.key + (e.gap + "="), e.blanks + r;
    KeySolid(e.key);
    Regrouped(e.prefix, e.key, e.gap, e.blanks, r);
    Trimmed(e.indent, e.prefix + core, rest);
    assert e.prefix != "" ==> e.prefix[0] == "export "[0];
    Joined(e.prefix, e.key, e.gap, TrimRight(rest, IsSpace));
    assert Head(e) + r == e.indent + ((e.prefix + core) + rest);
  }

  lemma Trimmed(indent: string, core: string, rest: string)
    requires Spaces(indent) && core != "" && !IsSpace(core[0]) && !IsSpace(core[|core|-1])
    ensures TrimSpace(indent + (core + rest)) == core + TrimRight(rest, IsSpace)
  {
    TrimLeftPast(indent, core + rest, IsSpace);
    TrimRightPast(core, rest);
  }

  lemma Regrouped(prefix: string, key: string, gap: string, blanks: string, r: string)
    ensures (prefix + (key + (gap + ("=" + blanks)))) + r == (prefix + (key + (gap + "="))) + (blanks + r)
  {
  }

  lemma Joined(prefix: string, key: string, gap: string, rest: string)
    ensures (prefix + (key + (gap + "="))) + rest == prefix + (key + (gap + ("=" + rest)))
  {
  }

  lemma FillerSkipped(e: Entry)
    requires e.Filler? && Proper(e)
    ensures var line := TrimSpace(e.indent + e.comment); line == "" || line[0] == '#'
  {
    TrimLeftPast(e.indent, e.comment, IsSpace);
    TrimRightHead(e.comment);
  }

  // ------------------------------------------------------ finding the quote

  lemma {:induction false} PlainPast(s: string, rest: string)
    requires '"' !in s && '\\' !in s
    ensures ClosingQuote(s + rest) == Shifted(ClosingQuote(rest), |s|)
  {
    if s == "" {
      assert s + rest == rest;
    } else {
      assert s[0] in s && (s + rest)[0] == s[0] && (s + rest)[1..] == s[1..] + rest;
      PlainPast(s[1..], rest);
    }
  }

  lemma WrittenPast(p: Piece, rest: string)
    requires InQuotes(p)
    ensures ClosingQuote(Written(p) + rest) == Shifted(ClosingQuote(rest), |Written(p)|)
  {
    match p
    case Verbatim(t) => PlainPast(t, rest);
    case Slash(c) =>
      var s := ['\\', c] + rest;
      assert s[0] == '\\' && s[2..] == rest;
    case Ref(k) =>
      KeyPlain(k, '"');
      KeyPlain(k, '\\');
      PlainPast("${" + k + "}", rest);
  }

  lemma {:induction false} BodyPast(pieces: seq<Piece>, rest: string)
    requires forall p :: p in pieces ==> InQuotes(p)
    ensures ClosingQuote(Body(pieces) + rest) == Shifted(ClosingQuote(rest), |Body(pieces)|)
  {
    if pieces == [] {
      assert Body(pieces) + rest == rest;
    } else {
      BodyPast(pieces[1..], rest);
      WrittenPast(pieces[0], Body(pieces[1..]) + rest);
      PastBoth(Written(pieces[0]), Body(pieces[1..]), rest);
    }
  }

  lemma PastBoth(a: string, b: string, rest: string)
    requires ClosingQuote(a + (b + rest)) == Shifted(ClosingQuote(b + rest), |a|)
    requires ClosingQuote(b + rest) == Shifted(ClosingQuote(rest), |b|)
    ensures ClosingQuote((a + b) + rest) == Shifted(ClosingQuote(rest), |a + b|)
  {
    Onward(a, b, rest);
  }

  lemma BodyCloses(pieces: seq<Piece>, tail: string)
    requires forall p :: p in pieces ==> InQuotes(p)
    ensures ClosingQuote(Body(pieces) + ("\"" + tail)) == Some(|Body(pieces)|)
  {
    BodyPast(pieces, "\"" + tail);
  }

  /** A closing quote stays where it is when text is added. */
  lemma {:induction false} ClosesAlready(a: string, b: string)
    requires ClosingQuote(a).Some?
    ensures ClosingQuote(a + b) == ClosingQuote(a)
  {
    if a[0] != '"' {
      var n := if a[0] == '\\' then 2 else 1;
      assert (a + b)[0] == a[0] && (a + b)[n..] == a[n..] + b;
      ClosesAlready(a[n..], b);
    }
  }

  // ------------------------------------------------- unescaping and expanding

  function Marked(p: Piece): string {
    match p
    case Verbatim(t) => t
    case Slash(c) => if c == '$' then [ESCAPED_DOLLAR] else Meant(p, [], map[])
    case Ref(k) => "${" + k + "}"
  }

  function MarkedBody(pieces: seq<Piece>): string {
    if pieces == [] then "" else Marked(pieces[0]) + MarkedBody(pieces[1..])
  }

  lemma AfterTwo(a: string, b: string, r: Result<string, char>)
    ensures After(a, After(b, r)) == After(a + b, r)
  {
    if r.Ok? { Onward(a, b, r.value); }
  }

  lemma {:induction false} UnescapePlain(s: string, rest: string)
    requires '\\' !in s
    ensures Unescape(s + rest) == After(s, Unescape(rest))
  {
    if s == "" {
      AfterMore("", 'x', Unescape(rest));
      assert s + rest == rest;
    } else {
      assert s[0] in s && (s + rest)[0] == s[0] && (s + rest)[1..] == s[1..] + rest;
      UnescapePlain(s[1..], rest);
      AfterTwo([s[0]], s[1..], Unescape(rest));
      assert [s[0]] + s[1..] == s;
    }
  }

  lemma UnescapeOne(p: Piece, rest: string)
    requires InQuotes(p)
    ensures Unescape(Written(p) + rest) == After(Marked(p), Unescape(rest))
  {
    match p
    case Verbatim(t) => UnescapePlain(t, rest);
    case Slash(c) =>
      var s := ['\\', c] + rest;
      assert s[1] == c && s[2..] == rest;
    case Ref(k) =>
      KeyPlain(k, '\\');
      UnescapePlain("${" + k + "}", rest);
  }

  lemma {:induction false} UnescapePast(pieces: seq<Piece>, rest: string)
    requires forall p :: p in pieces ==> InQuotes(p)
    ensures Unescape(Body(pieces) + rest) == After(MarkedBody(pieces), Unescape(rest))
  {
    if pieces == [] {
      AfterMore("", 'x', Unescape(rest));
      assert Body(pieces) + rest == rest;
    } else {
      UnescapePast(pieces[1..], rest);
      UnescapeOne(pieces[0], Body(pieces[1..]) + rest);
      Onward(Written(pieces[0]), Body(pieces[1..]), rest);
      AfterTwo(Marked(pieces[0]), MarkedBody(pieces[1..]), Unescape(rest));
    }
  }

  lemma UnescapeBody(pieces: seq<Piece>)
    requires forall p :: p in pieces ==> InQuotes(p)
    ensures Unescape(Body(pieces)) == Ok(MarkedBody(pieces))
  {
    UnescapePast(pieces, "");
    assert Body(pieces) + "" == Body(pieces) && MarkedBody(pieces) + "" == MarkedBody(pieces);
  }

  function Put(pieces: seq<Piece>, vars: map<string, string>): string {
    if pieces == [] then ""
    else (if pieces[0].Ref? then Resolve(vars, pieces[0].key) else Marked(pieces[0])) + Put(pieces[1..], vars)
  }

  lemma ExpandText(a: string, rest: string, vars: map<string, string>)
    requires '$' !in a
    ensures Expand(a + rest, vars) == a + Expand(rest, vars)
  {
    var s := a + rest;
    forall k | 0 <= k < |a| ensures KeyHere(s[k..]) == None {
      assert s[k..][0] == a[k] && a[k] in a;
    }
    assert s[|a|..] == rest && s[..|a|] == a;
    Skip(s, |a|);
    ExpandPast(s, |a|, rest, vars);
  }

  lemma ExpandRef(k: string, rest: string, vars: map<string, string>)
    requires ValidKey(k)
    ensures Expand("${" + k + "}" + rest, vars) == Resolve(vars, k) + Expand(rest, vars)
  {
    var r := "${" + k + "}";
    var s := r + rest;
    KeyHereIs(s);
    assert s[0..] == s && r <= s && RefAt(s, 0, k);
    assert s[0+|k|+3..] == rest;
    ExpandBy(s, 0, k, rest, vars);
    assert s[..0] + Resolve(vars, k) == Resolve(vars, k);
  }

  lemma {:induction false} ExpandBody(pieces: seq<Piece>, vars: map<string, string>)
    requires forall p :: p in pieces ==> InQuotes(p) || Outside(p)
    ensures Expand(MarkedBody(pieces), vars) == Put(pieces, vars)
  {
    if pieces == [] {
      NoSign("");
      ExpandNone("", vars);
    } else {
      assert InQuotes(pieces[0]) || Outside(pieces[0]);
      ExpandBody(pieces[1..], vars);
      match pieces[0] {
        case Ref(k) => ExpandRef(k, MarkedBody(pieces[1..]), vars);
        case _ => ExpandText(Marked(pieces[0]), MarkedBody(pieces[1..]), vars);
      }
    }
  }

  lemma {:induction false} BareBody(pieces: seq<Piece>)
    requires forall p :: p in pieces ==> Outside(p)
    ensures MarkedBody(pieces) == Body(pieces) && '\n' !in Body(pieces)
  {
    if pieces != [] {
      assert Outside(pieces[0]);
      BareBody(pieces[1..]);
      if pieces[0].Ref? { KeyPlain(pieces[0].key, '\n'); }
    }
  }

  // --------------------------------------------------------- names in scope

  /** The names in scope are what the entries so far and the environment say. */
  ghost predicate InScope(vars: map<string, string>, earlier: seq<KeyValue>, env: map<string, string>) {
    forall k {:trigger Resolve(vars, k)} :: Resolve(vars, k) == Before(earlier, env, k)
  }

  lemma ScopeNext(vars: map<string, string>, earlier: seq<KeyValue>, env: map<string, string>, kv: KeyValue)
    requires InScope(vars, earlier, env)
    ensures InScope(vars[kv.key := kv.value], earlier + [kv], env)
  {
    forall k ensures Resolve(vars[kv.key := kv.value], k) == Before(earlier + [kv], env, k) {
      BeforeNext(earlier, env, kv, k);
      assert Resolve(vars, k) == Before(earlier, env, k);
    }
  }

  lemma {:induction false} RestoredTwo(a: string, b: string)
    ensures Restored(a + b) == Restored(a) + Restored(b)
  {
    if a == "" {
      assert a + b == b;
    } else {
      assert (a + b)[0] == a[0] && (a + b)[1..] == a[1..] + b;
      RestoredTwo(a[1..], b);
    }
  }

  lemma RestoredOne(c: char)
    ensures Restored([c]) == if c == ESCAPED_DOLLAR then "$" else [c]
  {
    var x := if c == ESCAPED_DOLLAR then '$' else c;
    assert [c][1..] == "" && [c][0] == c;
    assert Restored([c]) == [x] + Restored([c][1..]);
    assert [x] + "" == [x];
  }

  lemma {:induction false} PutFilled(pieces: seq<Piece>, vars: map<string, string>, earlier: seq<KeyValue>,
    env: map<string, string>)
    requires InScope(vars, earlier, env)
    ensures Restored(Put(pieces, vars)) == Restored(Filled(pieces, earlier, env))
    ensures (forall p :: p in pieces ==> Outside(p)) ==> Put(pieces, vars) == Filled(pieces, earlier, env)
  {
    if pieces != [] {
      PutFilled(pieces[1..], vars, earlier, env);
      var p := pieces[0];
      var put, meant := if p.Ref? then Resolve(vars, p.key) else Marked(p), Meant(p, earlier, env);
      if p.Slash? {
        RestoredOne(p.c);
        RestoredOne(ESCAPED_DOLLAR);
      }
      assert Restored(put) == Restored(meant);
      RestoredTwo(put, Put(pieces[1..], vars));
      RestoredTwo(meant, Filled(pieces[1..], earlier, env));
      assert p in pieces;
    }
  }

  // --------------------------------------------------------------- values

  /** A value in double quotes, begun with b, whose closing quote is on the last
      of the next lines. */
  lemma {:induction false} QuotedJoin(b: string, more: seq<string>, rest: seq<string>, n: nat,
    vars: map<string, string>)
    requires var whole := Join([b] + more, '\n');
      ClosingQuote(whole).Some? && '\n' !in whole[ClosingQuote(whole).value..]
    ensures Quoted(b, more + rest, n, vars) == Quoted(Join([b] + more, '\n'), rest, n, vars)
    decreases |more|
  {
    var whole := Join([b] + more, '\n');
    if more == [] {
      assert [] + rest == rest && [b] + more == [b];
    } else {
      var later := Join(more, '\n');
      assert ([b] + more)[1..] == more;
      assert whole == b + ("\n" + later);
      if ClosingQuote(b).Some? { ClosesAlready(b, "\n" + later); }
      assert whole[|b|] == '\n';
      assert ClosingQuote(b) == None;
      JoinFirst(b, more);
      assert (more + rest)[0] == more[0] && (more + rest)[1..] == more[1..] + rest;
      QuotedJoin(b + "\n" + more[0], more[1..], rest, n, vars);
    }
  }

  lemma JoinTwo(a: string, more: seq<string>)
    requires more != []
    ensures Join([a] + more, '\n') == a + ("\n" + Join(more, '\n'))
  {
    assert ([a] + more)[1..] == more;
  }

  lemma JoinFirst(b: string, more: seq<string>)
    requires more != []
    ensures Join([b] + more, '\n') == Join([b + "\n" + more[0]] + more[1..], '\n')
  {
    var first := b + "\n" + more[0];
    JoinTwo(b, more);
    if |more| > 1 {
      assert [more[0]] + more[1..] == more;
      JoinTwo(more[0], more[1..]);
      JoinTwo(first, more[1..]);
      SameText(b, more[0], Join(more[1..], '\n'));
    } else {
      assert [first] + more[1..] == [first];
    }
  }

  lemma SameText(a: string, b: string, c: string)
    ensures a + ("\n" + (b + ("\n" + c))) == (a + "\n" + b) + ("\n" + c)
  {
  }

  lemma DoubleMeans(pieces: seq<Piece>, note: string, rest: seq<string>, n: nat, vars: map<string, string>,
    earlier: seq<KeyValue>, env: map<string, string>)
    requires InScope(vars, earlier, env) && forall p :: p in pieces ==> InQuotes(p)
    ensures Quoted(Body(pieces) + ("\"" + note), rest, n, vars) == Ok((Restored(Filled(pieces, earlier, env)), rest))
  {
    var body := Body(pieces) + ("\"" + note);
    BodyCloses(pieces, note);
    assert body[..|Body(pieces)|] == Body(pieces);
    UnescapeBody(pieces);
    ExpandBody(pieces, vars);
    PutFilled(pieces, vars, earlier, env);
  }

  /** What Value makes of the first line of a form and the lines behind it. */
  ghost predicate ReadAs(f: Form, rest: seq<string>, n: nat, vars: map<string, string>, v: string) {
    var lines := Split(Raw(f), '\n');
    && (Spaces(lines[0]) || !IsSpace(lines[0][0]))
    && Value(TrimRight(lines[0], IsSpace), lines[1..] + rest, n, vars) == Ok((v, rest))
  }

  lemma SingleRead(f: Form, rest: seq<string>, n: nat, vars: map<string, string>)
    requires f.Single? && ProperForm(f)
    ensures ReadAs(f, rest, n, vars, f.text)
  {
    var front := "'" + (f.text + "'");
    SplitWhole(Raw(f), '\n');
    assert Raw(f) == front + f.note;
    TrimRightPast(front, f.note);
    SingleValue(f.text, TrimRight(f.note, IsSpace), rest, n, vars);
    assert [Raw(f)][1..] + rest == rest;
  }

  lemma SingleValue(text: string, left: string, rest: seq<string>, n: nat, vars: map<string, string>)
    requires '\'' !in text
    ensures Value(("'" + (text + "'")) + left, rest, n, vars) == Ok((text, rest))
  {
    var raw := ("'" + (text + "'")) + left;
    FirstAt(text, '\'', left);
    assert raw[1..] == text + (['\''] + left);
    assert raw[1..|text|+1] == text;
  }

  lemma BareRead(f: Form, rest: seq<string>, n: nat, vars: map<string, string>)
    requires f.Bare? && ProperForm(f)
    ensures ReadAs(f, rest, n, vars, Expand(Body(f.pieces), vars))
  {
    var body := Body(f.pieces);
    BareBody(f.pieces);
    SplitWhole(Raw(f), '\n');
    assert [Raw(f)][1..] + rest == rest;
    if body == "" {
      assert Raw(f) == f.tail;
      TrimRightAll(f.tail);
    } else {
      TrimRightPast(body, f.tail);
      BareValue(body, f.tail, rest, n, vars);
    }
  }

  lemma BareValue(body: string, tail: string, rest: seq<string>, n: nat, vars: map<string, string>)
    requires Solid(body) && Tail(tail)
    ensures Value(body + TrimRight(tail, IsSpace), rest, n, vars) == Ok((Expand(body, vars), rest))
  {
    if Spaces(tail) {
      TrimRightAll(tail);
      assert body + "" == body;
      NoNote(body);
      TrimNothing(body);
    } else {
      var spaces, left := NoteParts(tail);
      Regroup(body, spaces, " #", left);
      NotedValue(body, spaces, " #" + left, rest, n, vars);
    }
  }

  lemma NoteParts(tail: string) returns (spaces: string, left: string)
    requires Tail(tail) && !Spaces(tail)
    ensures Spaces(spaces) && TrimRight(tail, IsSpace) == (spaces + " #") + left
  {
    var i: nat :| NoteAt(tail, i);
    var more := tail[i..][2..];
    spaces, left := tail[..i], TrimRight(more, IsSpace);
    assert tail == (spaces + " #") + more;
    TrimRightPast(spaces + " #", more);
  }

  lemma Regroup(a: string, b: string, c: string, d: string)
    ensures a + ((b + c) + d) == (a + b) + (c + d)
  {
  }

  lemma NotedValue(body: string, spaces: string, note: string, rest: seq<string>, n: nat, vars: map<string, string>)
    requires Solid(body) && Spaces(spaces) && " #" <= note
    ensures Value((body + spaces) + note, rest, n, vars) == Ok((Expand(body, vars), rest))
  {
    var front := body + spaces;
    NoteFound(body, spaces, note);
    assert (front + note)[..|front|] == front && (front + note)[0] == body[0];
    SolidTrimmed(body, spaces);
  }

  lemma SolidTrimmed(body: string, spaces: string)
    requires Solid(body) && Spaces(spaces)
    ensures TrimSpace(body + spaces) == body
  {
    TrimRightPast(body, spaces);
    TrimRightAll(spaces);
    assert body + "" == body && (body + spaces)[0] == body[0];
  }

  lemma NoNote(body: string)
    requires Solid(body)
    ensures Index(body, " #") == None
  {
    assert forall j {:trigger body[j..j+2]} :: 0 <= j && j + 2 <= |body| && body[j..j+2] == " #" ==>
      body[j..j+2][0] == body[j] && body[j..j+2][1] == body[j+1];
  }

  lemma NoteFound(body: string, spaces: string, note: string)
    requires Solid(body) && Spaces(spaces) && " #" <= note
    ensures Index((body + spaces) + note, " #") == Some(|body| + |spaces|)
  {
    var s, n := (body + spaces) + note, |body| + |spaces|;
    IndexFirst(s, " #");
    assert s[n..] == note;
    var j := Index(s, " #").value;
    assert s[j..j+2][1] == s[j+1] && s[j..j+2][0] == s[j];
    forall k | 0 <= k < n ensures s[k] != ' ' || s[k+1] != '#' {
      if k + 1 < |body| {
        assert s[k] == body[k] && s[k+1] == body[k+1];
      } else if k + 1 < n {
        assert s[k+1] == spaces[k+1-|body|] && spaces[k+1-|body|] in spaces;
      } else {
        assert s[k+1] == note[0] == ' ';
      }
    }
  }

  /** Where a value in double quotes is cut into lines. */
  lemma FirstCut(pieces: seq<Piece>, note: string)
    requires OneLine(note) && FirstLineKept(Body(pieces))
    ensures var parts := Split(Body(pieces) + ("\"" + note), '\n');
      |parts| > 1 && parts[0] != "" ==> !IsSpace(parts[0][|parts[0]|-1])
  {
    var body, tail := Body(pieces), "\"" + note;
    var parts := Split(body + tail, '\n');
    JoinSplit(body + tail, '\n');
    if |parts| > 1 {
      var i := |parts[0]|;
      assert [parts[0]] + parts[1..] == parts;
      JoinTwo(parts[0], parts[1..]);
      assert (body + tail)[i] == '\n' && (body + tail)[..i] == parts[0];
      forall k | |body| <= k < |body + tail| ensures (body + tail)[k] != '\n' {
        assert (body + tail)[k] == tail[k-|body|] && tail[k-|body|] in tail;
      }
      assert body[..i] == parts[0];
    }
  }

  lemma DoubleRead(f: Form, rest: seq<string>, n: nat, vars: map<string, string>, earlier: seq<KeyValue>,
    env: map<string, string>)
    requires f.Double? && ProperForm(f) && Keeps(f) && InScope(vars, earlier, env)
    ensures ReadAs(f, rest, n, vars, Restored(Filled(f.pieces, earlier, env)))
  {
    var text := Body(f.pieces) + ("\"" + f.note);
    var parts := Split(text, '\n');
    QuoteSplit(text);
    assert ["\"" + parts[0]][0][0] == '"';
    if |parts| == 1 {
      OnePart(text, parts);
      OnOneLine(f, rest, n, vars, earlier, env);
      assert parts[1..] + rest == rest;
    } else {
      OnMoreLines(f, parts, rest, n, vars, earlier, env);
    }
  }

  lemma QuoteSplit(text: string)
    ensures var parts := Split(text, '\n'); Split("\"" + text, '\n') == ["\"" + parts[0]] + parts[1..]
  {
    assert ("\"" + text)[1..] == text;
  }

  lemma OnOneLine(f: Form, rest: seq<string>, n: nat, vars: map<string, string>, earlier: seq<KeyValue>,
    env: map<string, string>)
    requires f.Double? && ProperForm(f) && InScope(vars, earlier, env)
    ensures Value(TrimRight("\"" + (Body(f.pieces) + ("\"" + f.note)), IsSpace), rest, n, vars)
      == Ok((Restored(Filled(f.pieces, earlier, env)), rest))
  {
    var body, left := Body(f.pieces), TrimRight(f.note, IsSpace);
    Regroup("", "\"" + body, "\"", f.note);
    NoteTrimmed(body, f.note);
    DoubleMeans(f.pieces, left, rest, n, vars, earlier, env);
    QuotedValue(body + ("\"" + left), rest, n, vars);
  }

  lemma NoteTrimmed(body: string, note: string)
    ensures TrimRight("\"" + (body + ("\"" + note)), IsSpace) == "\"" + (body + ("\"" + TrimRight(note, IsSpace)))
  {
    var front := "\"" + (body + "\"");
    TrimRightPast(front, note);
    Enclosed(body, note);
    Enclosed(body, TrimRight(note, IsSpace));
  }

  lemma Enclosed(body: string, note: string)
    ensures "\"" + (body + ("\"" + note)) == ("\"" + (body + "\"")) + note
  {
  }

  lemma QuotedValue(text: string, rest: seq<string>, n: nat, vars: map<string, string>)
    ensures Value("\"" + text, rest, n, vars) == Quoted(text, rest, n, vars)
  {
    assert ("\"" + text)[1..] == text && ("\"" + text)[0] == '"';
  }

  lemma OnMoreLines(f: Form, parts: seq<string>, rest: seq<string>, n: nat, vars: map<string, string>,
    earlier: seq<KeyValue>, env: map<string, string>)
    requires f.Double? && ProperForm(f) && InScope(vars, earlier, env)
    requires Keeps(f) && parts == Split(Body(f.pieces) + ("\"" + f.note), '\n') && |parts| > 1
    ensures Value(TrimRight("\"" + parts[0], IsSpace), parts[1..] + rest, n, vars)
      == Ok((Restored(Filled(f.pieces, earlier, env)), rest))
  {
    var text := Body(f.pieces) + ("\"" + f.note);
    FirstCut(f.pieces, f.note);
    assert TrimRight("\"" + parts[0], IsSpace) == "\"" + parts[0];
    JoinSplit(text, '\n');
    assert [parts[0]] + parts[1..] == parts;
    BodyCloses(f.pieces, f.note);
    assert text[|Body(f.pieces)|..] == "\"" + f.note;
    QuotedValue(parts[0], parts[1..] + rest, n, vars);
    QuotedJoin(parts[0], parts[1..], rest, n, vars);
    DoubleMeans(f.pieces, f.note, rest, n, vars, earlier, env);
  }

  lemma OnePart(text: string, parts: seq<string>)
    requires parts == Split(text, '\n') && |parts| == 1
    ensures parts[0] == text
  {
    JoinSplit(text, '\n');
  }

  // ------------------------------------------- a first line that is not kept

  lemma {:induction false} BodyTwo(a: seq<Piece>, b: seq<Piece>, earlier: seq<KeyValue>, env: map<string, string>)
    ensures Body(a + b) == Body(a) + Body(b)
    ensures Filled(a + b, earlier, env) == Filled(a, earlier, env) + Filled(b, earlier, env)
  {
    if a == [] {
      assert a + b == b;
    } else {
      assert (a + b)[0] == a[0] && (a + b)[1..] == a[1..] + b;
      BodyTwo(a[1..], b, earlier, env);
      Onward(Written(a[0]), Body(a[1..]), Body(b));
      Onward(Meant(a[0], earlier, env), Filled(a[1..], earlier, env), Filled(b, earlier, env));
    }
  }

  lemma OnePiece(p: Piece, earlier: seq<KeyValue>, env: map<string, string>)
    ensures Body([p]) == Written(p) && Filled([p], earlier, env) == Meant(p, earlier, env)
  {
    assert [p][1..] == [];
    assert Written(p) + "" == Written(p) && Meant(p, earlier, env) + "" == Meant(p, earlier, env);
  }

  /** Pieces cut in two in front of white space. */
  lemma {:induction false} CutAt(pieces: seq<Piece>, n: nat, earlier: seq<KeyValue>, env: map<string, string>)
    returns (a: seq<Piece>, b: seq<Piece>)
    requires (forall p :: p in pieces ==> InQuotes(p)) && n < |Body(pieces)| && IsSpace(Body(pieces)[n])
    ensures forall p :: p in a || p in b ==> InQuotes(p)
    ensures Body(a) == Body(pieces)[..n] && Body(b) == Body(pieces)[n..]
    ensures Filled(pieces, earlier, env) == Filled(a, earlier, env) + Filled(b, earlier, env)
  {
    if n == 0 {
      a, b := [], pieces;
    } else {
      var p, more := pieces[0], pieces[1..];
      assert InQuotes(p);
      SliceTwo(Written(p), Body(more), n);
      if n < |Written(p)| {
        a, b := CutWithin(p, n, more, earlier, env);
      } else {
        var front: seq<Piece>;
        front, b := CutAt(more, n - |Written(p)|, earlier, env);
        a := [p] + front;
        Prepended(p, front, earlier, env);
        Onward(Meant(p, earlier, env), Filled(front, earlier, env), Filled(b, earlier, env));
      }
    }
  }

  lemma Prepended(p: Piece, more: seq<Piece>, earlier: seq<KeyValue>, env: map<string, string>)
    ensures Body([p] + more) == Written(p) + Body(more)
    ensures Filled([p] + more, earlier, env) == Meant(p, earlier, env) + Filled(more, earlier, env)
  {
    assert ([p] + more)[1..] == more;
  }

  lemma SliceTwo(a: string, b: string, n: nat)
    requires n < |a + b|
    ensures n < |a| ==> (a + b)[..n] == a[..n] && (a + b)[n..] == a[n..] + b && (a + b)[n] == a[n]
    ensures n >= |a| ==> (a + b)[..n] == a + b[..n-|a|] && (a + b)[n..] == b[n-|a|..] && (a + b)[n] == b[n-|a|]
  {
  }

  lemma CutWithin(p: Piece, n: nat, more: seq<Piece>, earlier: seq<KeyValue>, env: map<string, string>)
    returns (a: seq<Piece>, b: seq<Piece>)
    requires InQuotes(p) && (forall q :: q in more ==> InQuotes(q)) && 0 < n < |Written(p)| && IsSpace(Written(p)[n])
    ensures forall q :: q in a || q in b ==> InQuotes(q)
    ensures Body(a) == Written(p)[..n] && Body(b) == Written(p)[n..] + Body(more)
    ensures Meant(p, earlier, env) + Filled(more, earlier, env) == Filled(a, earlier, env) + Filled(b, earlier, env)
  {
    InVerbatim(p, n);
    var t, u := p.text[..n], p.text[n..];
    a, b := [Verbatim(t)], [Verbatim(u)] + more;
    OnePiece(Verbatim(t), earlier, env);
    OnePiece(Verbatim(u), earlier, env);
    BodyTwo([Verbatim(u)], more, earlier, env);
    assert t + u == p.text;
    Onward(t, u, Filled(more, earlier, env));
  }

  /** White space is only within text as it is. */
  lemma InVerbatim(p: Piece, n: nat)
    requires InQuotes(p) && 0 < n < |Written(p)| && IsSpace(Written(p)[n])
    ensures p.Verbatim?
  {
  }

  lemma {:induction false} SpacesFilled(pieces: seq<Piece>, earlier: seq<KeyValue>, env: map<string, string>)
    requires forall c :: c in Body(pieces) ==> IsSpace(c)
    ensures Filled(pieces, earlier, env) == Body(pieces)
  {
    if pieces != [] {
      var w := Written(pieces[0]);
      assert forall c :: c in w || c in Body(pieces[1..]) ==> c in Body(pieces);
      assert w != "" ==> w[0] in w;
      SpacesFilled(pieces[1..], earlier, env);
    }
  }

  lemma {:induction false} TrimmedOff(a: string)
    ensures var t := TrimRight(a, IsSpace); |t| <= |a| && a[..|t|] == t && (t != "" ==> !IsSpace(t[|t|-1]))
    ensures forall k :: |TrimRight(a, IsSpace)| <= k < |a| ==> IsSpace(a[k])
  {
    if a != "" && IsSpace(a[|a|-1]) { TrimmedOff(a[..|a|-1]); }
  }

  /** The pieces without the white space before the first line break, at i. */
  lemma Shortened(pieces: seq<Piece>, i: nat, earlier: seq<KeyValue>, env: map<string, string>)
    returns (fewer: seq<Piece>)
    requires (forall p :: p in pieces ==> InQuotes(p)) && 0 < i < |Body(pieces)| && Body(pieces)[i] == '\n'
    requires IsSpace(Body(pieces)[i-1])
    ensures forall p :: p in fewer ==> InQuotes(p)
    ensures Body(fewer) == TrimRight(Body(pieces)[..i], IsSpace) + Body(pieces)[i..]
    ensures |Filled(fewer, earlier, env)| < |Filled(pieces, earlier, env)|
  {
    var s := Body(pieces);
    var m := |TrimRight(s[..i], IsSpace)|;
    TrimmedOff(s[..i]);
    SliceThree(s, m, i);
    var a, b := CutAt(pieces, m, earlier, env);
    var w, r := CutAt(b, i - m, earlier, env);
    SpacesFilled(w, earlier, env);
    BodyTwo(a, r, earlier, env);
    fewer := a + r;
  }

  lemma SliceThree(s: string, m: nat, i: nat)
    requires m <= i < |s| && i > 0 && IsSpace(s[i-1]) && forall k :: m <= k < i ==> IsSpace(s[..i][k])
    requires m > 0 ==> !IsSpace(s[..i][m-1])
    ensures m < i && IsSpace(s[m]) && s[m..][i-m] == s[i] && s[m..][..i-m] == s[m..i] && s[m..][i-m..] == s[i..]
    ensures s[..i][..m] == s[..m] && forall c :: c in s[m..i] ==> IsSpace(c)
  {
    assert forall k :: 0 <= k < i ==> s[..i][k] == s[k];
    forall c | c in s[m..i] ensures IsSpace(c) {
      var k :| 0 <= k < i - m && s[m..i][k] == c;
      assert s[..i][m+k] == c;
    }
  }

  lemma {:induction false} RestoredSize(s: string)
    ensures |Restored(s)| == |s|
  {
    if s != "" { RestoredSize(s[1..]); }
  }

  /** Such a value loses that white space. */
  lemma ShortenedRead(f: Form, vars: map<string, string>, earlier: seq<KeyValue>, env: map<string, string>)
    returns (v: string)
    requires f.Double? && ProperForm(f) && !Keeps(f) && InScope(vars, earlier, env)
    ensures (forall rest, n :: ReadAs(f, rest, n, vars, v)) && |v| < |Stands(f, earlier, env)|
  {
    var s := Body(f.pieces);
    var i :| 0 < i < |s| && s[i] == '\n' && '\n' !in s[..i] && IsSpace(s[i-1]);
    var fewer := Shortened(f.pieces, i, earlier, env);
    var g := Double(fewer, f.note);
    v := Stands(g, earlier, env);
    RestoredSize(Filled(fewer, earlier, env));
    RestoredSize(Filled(f.pieces, earlier, env));
    NowKept(s, i);
    SameLines(f, g, i);
    ReadAlike(f, g, vars, earlier, env);
  }

  /** A value whose lines are alike is read alike. */
  lemma ReadAlike(f: Form, g: Form, vars: map<string, string>, earlier: seq<KeyValue>, env: map<string, string>)
    requires g.Double? && ProperForm(g) && Keeps(g) && InScope(vars, earlier, env)
    requires var a, b := Split(Raw(f), '\n'), Split(Raw(g), '\n');
      a[1..] == b[1..] && TrimRight(a[0], IsSpace) == TrimRight(b[0], IsSpace) && a[0] != "" && a[0][0] == '"'
    ensures forall rest, n :: ReadAs(f, rest, n, vars, Stands(g, earlier, env))
  {
    forall rest, n ensures ReadAs(f, rest, n, vars, Stands(g, earlier, env)) {
      DoubleRead(g, rest, n, vars, earlier, env);
    }
  }

  lemma SameLines(f: Form, g: Form, i: nat)
    requires f.Double? && g.Double? && f.note == g.note && 0 < i < |Body(f.pieces)|
    requires Body(f.pieces)[i] == '\n' && '\n' !in Body(f.pieces)[..i]
    requires Body(g.pieces) == TrimRight(Body(f.pieces)[..i], IsSpace) + Body(f.pieces)[i..]
    ensures var a, b := Split(Raw(f), '\n'), Split(Raw(g), '\n');
      a[1..] == b[1..] && TrimRight(a[0], IsSpace) == TrimRight(b[0], IsSpace) && a[0] != "" && a[0][0] == '"'
  {
    var s, tail := Body(f.pieces), "\"" + f.note;
    SplitAtBreak(s, i, tail);
    QuoteSplit(s + tail);
    QuoteSplit(Body(g.pieces) + tail);
    QuoteTrimmed(s[..i]);
    assert ("\"" + s[..i])[0] == '"';
  }

  lemma QuoteTrimmed(line: string)
    ensures TrimRight("\"" + TrimRight(line, IsSpace), IsSpace) == TrimRight("\"" + line, IsSpace)
  {
    var x := TrimRight(line, IsSpace);
    TrimmedOff(line);
    var spaces := line[|x|..];
    assert "\"" + line == ("\"" + x) + spaces;
    TrimRightPast("\"" + x, spaces);
    forall c | c in spaces ensures IsSpace(c) {
      var k :| 0 <= k < |spaces| && spaces[k] == c;
      assert line[|x|+k] == c;
    }
    TrimRightAll(spaces);
    assert ("\"" + x) + "" == "\"" + x;
    TrimRightPast("\"" + x, "");
  }

  /** Without it the first line is shorter and the others are the same. */
  lemma SplitAtBreak(s: string, i: nat, tail: string)
    requires 0 < i < |s| && s[i] == '\n' && '\n' !in s[..i]
    ensures var x := TrimRight(s[..i], IsSpace);
      Split(s + tail, '\n') == [s[..i]] + Split(s[i+1..] + tail, '\n')
      && Split((x + s[i..]) + tail, '\n') == [x] + Split(s[i+1..] + tail, '\n')
  {
    var x := TrimRight(s[..i], IsSpace);
    TrimmedOff(s[..i]);
    var long, short := s + tail, (x + s[i..]) + tail;
    assert long[..i] == s[..i] && long[i] == '\n' && long[i+1..] == s[i+1..] + tail;
    SplitAt(long, i, '\n');
    assert short[..|x|] == x && short[|x|] == s[i] && short[|x|+1..] == s[i+1..] + tail;
    assert '\n' !in x;
    SplitAt(short, |x|, '\n');
  }

  lemma NowKept(s: string, i: nat)
    requires 0 < i < |s| && s[i] == '\n' && '\n' !in s[..i]
    ensures FirstLineKept(TrimRight(s[..i], IsSpace) + s[i..])
  {
    var x := TrimRight(s[..i], IsSpace);
    var t := x + s[i..];
    TrimmedOff(s[..i]);
    assert forall k :: 0 <= k < |x| ==> t[k] == x[k] == s[..i][k];
    assert forall k {:trigger t[..k]} :: |x| < k <= |t| ==> t[..k][|x|] == t[|x|] == '\n';
  }

  lemma FormRead(f: Form, vars: map<string, string>, earlier: seq<KeyValue>, env: map<string, string>)
    returns (v: string)
    requires ProperForm(f) && InScope(vars, earlier, env)
    ensures (forall rest, n :: ReadAs(f, rest, n, vars, v)) && (v == Stands(f, earlier, env) <==> Keeps(f))
  {
    v := Stands(f, earlier, env);
    match f
    case Double(_, _) =>
      if Keeps(f) {
        forall rest, n ensures ReadAs(f, rest, n, vars, v) { DoubleRead(f, rest, n, vars, earlier, env); }
      } else {
        v := ShortenedRead(f, vars, earlier, env);
      }
    case Single(_, _) =>
      forall rest, n ensures ReadAs(f, rest, n, vars, v) { SingleRead(f, rest, n, vars); }
    case Bare(pieces, _) =>
      forall rest, n ensures ReadAs(f, rest, n, vars, Expand(Body(pieces), vars)) { BareRead(f, rest, n, vars); }
      BareBody(pieces);
      ExpandBody(pieces, vars);
      PutFilled(pieces, vars, earlier, env);
  }
}
