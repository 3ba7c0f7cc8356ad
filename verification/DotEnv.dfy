/** The .env parser, and its inverse on what it can print. Text is a sequence of
    Unicode code points. */
module DotEnv {
  import opened Common

  datatype KeyValue = KeyValue(key: string, value: string)

  datatype Error =
    | BadLine(line: nat)
    | OpenSingle(line: nat)
    | OpenDouble(line: nat)
    | BadEscape(line: nat, escape: char)

  // ---------------------------------------------------- library functions

  predicate IsSpace(c: char) {
    c in {'\t', '\n', '\U{B}', '\U{C}', '\r', ' ', '\U{85}', '\U{A0}', '\U{1680}', '\U{2028}', '\U{2029}', '\U{202F}',
      '\U{205F}', '\U{3000}'}
    || '\U{2000}' <= c <= '\U{200A}'
  }

  function TrimLeft(s: string, f: char -> bool): string {
    if s != "" && f(s[0]) then TrimLeft(s[1..], f) else s
  }

  function TrimRight(s: string, f: char -> bool): string {
    if s != "" && f(s[|s|-1]) then TrimRight(s[..|s|-1], f) else s
  }

  function TrimSpace(s: string): string { TrimRight(TrimLeft(s, IsSpace), IsSpace) }

  function IsBlank(c: char): bool { c == ' ' || c == '\t' }

  /** Where t first occurs in s. */
  function Index(s: string, t: string): (r: Option<nat>)
    ensures r.Some? ==> r.value + |t| <= |s| && s[r.value..r.value + |t|] == t
  {
    if t <= s then Some(0)
    else if s == "" then None
    else match Index(s[1..], t)
      case None => None
      case Some(i) => Some(i + 1)
  }

  function Replace(s: string, from: char, to: char): string {
    if s == "" then "" else [if s[0] == from then to else s[0]] + Replace(s[1..], from, to)
  }

  /** The lines a scanner reads: ended by a newline, less a carriage return
      before it; nothing follows the last newline if the text ends there. */
  function Lines(text: string): seq<string>
    decreases |text|
  {
    if text == "" then []
    else match Index(text, "\n")
      case None => [DropReturn(text)]
      case Some(i) => [DropReturn(text[..i])] + Lines(text[i+1..])
  }

  function DropReturn(line: string): string {
    if line != "" && line[|line|-1] == '\r' then line[..|line|-1] else line
  }

  // --------------------------------------------------------------- values

  predicate KeyChar(c: char) { c == '_' || 'a' <= c <= 'z' || 'A' <= c <= 'Z' || '0' <= c <= '9' }

  predicate ValidKey(k: string) {
    k != "" && !('0' <= k[0] <= '9') && forall i :: 0 <= i < |k| ==> KeyChar(k[i])
  }

  /** Where the first unescaped double quote is. */
  function ClosingQuote(s: string): (r: Option<nat>)
    ensures r.Some? ==> r.value < |s| && s[r.value] == '"'
  {
    if s == "" then None
    else if s[0] == '"' then Some(0)
    else
      var n := if s[0] == '\\' then 2 else 1;
      if |s| < n then None
      else match ClosingQuote(s[n..])
        case None => None
        case Some(i) => Some(i + n)
  }

  /** Stands for an escaped dollar until references are expanded. */
  const ESCAPED_DOLLAR: char := '\U{E000}'

  function Unescaped(c: char): Option<char> {
    match c
    case 'n' => Some('\n')
    case 't' => Some('\t')
    case 'r' => Some('\r')
    case '"' => Some('"')
    case '\\' => Some('\\')
    case '$' => Some(ESCAPED_DOLLAR)
    case _ => None
  }

  /** Escapes resolved, or the first that is unknown. */
  function Unescape(s: string): Result<string, char> {
    if s == "" then Ok("")
    else if s[0] != '\\' || |s| == 1 then
      match Unescape(s[1..])
      case Err(c) => Err(c)
      case Ok(r) => Ok([s[0]] + r)
    else match Unescaped(s[1])
      case None => Err(s[1])
      case Some(c) =>
        match Unescape(s[2..])
        case Err(e) => Err(e)
        case Ok(r) => Ok([c] + r)
  }

  function Resolve(vars: map<string, string>, k: string): string { if k in vars then vars[k] else "" }

  /** The key of the reference s begins with, if it does. */
  function KeyHere(s: string): (r: Option<string>)
    ensures r.Some? ==> |r.value| + 3 <= |s|
  {
    if !("${" <= s) then None
    else match Index(s, "}")
      case None => None
      case Some(j) => if j >= 2 && ValidKey(s[2..j]) then Some(s[2..j]) else None
  }

  /** Where the first reference begins, and its key. */
  function FirstRef(s: string): (r: Option<(nat, string)>)
    ensures r.Some? ==> r.value.0 + |r.value.1| + 3 <= |s|
  {
    if s == "" then None
    else match KeyHere(s)
      case Some(key) => Some((0, key))
      case None => Moved(FirstRef(s[1..]), 1)
  }

  function Moved(r: Option<(nat, string)>, n: nat): Option<(nat, string)> {
    match r case None => None case Some((i, key)) => Some((i + n, key))
  }

  /** The first reference replaced by what its key stands for, and so on behind
      it; what is put in is not looked at again. */
  function Expand(s: string, vars: map<string, string>): string
    decreases |s|
  {
    match FirstRef(s)
    case None => s
    case Some((i, key)) => s[..i] + Resolve(vars, key) + Expand(s[i+|key|+3..], vars)
  }

  /** There is a reference to key at position i. */
  predicate RefAt(s: string, i: nat, key: string) {
    i <= |s| && "${" + key + "}" <= s[i..] && ValidKey(key)
  }

  lemma {:induction false} IndexFirst(s: string, t: string)
    requires t != ""
    ensures forall k {:trigger s[k..]} :: 0 <= k <= |s| && t <= s[k..] ==> Index(s, t).Some? && Index(s, t).value <= k
  {
    if s != "" {
      IndexFirst(s[1..], t);
      forall k | 0 <= k <= |s| && t <= s[k..] ensures Index(s, t).Some? && Index(s, t).value <= k {
        if k > 0 { assert s[1..][k-1..] == s[k..]; } else { assert s[0..] == s; }
      }
    }
  }

  /** The text up to the first brace is the key, whatever follows. */
  lemma KeyHereIs(s: string)
    ensures forall key :: KeyHere(s) == Some(key) <==> RefAt(s, 0, key)
  {
    assert s[0..] == s;
    forall key ensures KeyHere(s) == Some(key) <==> RefAt(s, 0, key) {
      var r := "${" + key + "}";
      if r <= s && ValidKey(key) {
        assert s[..|r|] == r;
        var rest := s[|r|..];
        assert s == ("${" + key) + (['}'] + rest);
        assert '}' !in "${" + key by { assert forall j :: 0 <= j < |key| ==> KeyChar(key[j]); }
        FirstAt("${" + key, '}', rest);
        assert s[2..|key|+2] == key;
      }
      if KeyHere(s) == Some(key) { assert s[..|r|] == r; }
    }
  }

  /** The first reference is one, and the first: expansion replaces the
      references to valid keys, from left to right, and nothing else. */
  lemma {:induction false} FirstRefIs(s: string)
    ensures FirstRef(s).Some? ==> RefAt(s, FirstRef(s).value.0, FirstRef(s).value.1)
    ensures forall k: nat, key {:trigger RefAt(s, k, key)} :: RefAt(s, k, key) ==>
      FirstRef(s).Some? && FirstRef(s).value.0 <= k
  {
    if s != "" {
      KeyHereIs(s);
      FirstRefIs(s[1..]);
      if KeyHere(s).None? && FirstRef(s[1..]).Some? {
        var (i, key) := FirstRef(s[1..]).value;
        assert s[1..][i..] == s[i+1..];
      }
      forall k: nat, key | RefAt(s, k, key) ensures FirstRef(s).Some? && FirstRef(s).value.0 <= k {
        if k > 0 {
          assert s[1..][k-1..] == s[k..];
          assert RefAt(s[1..], k - 1, key);
        } else {
          assert RefAt(s, 0, key);
        }
      }
    }
  }

  // --------------------------------------------------------------- parsing

  /** A value in double quotes, begun at line number n, that has got as far as
      body: the value, and the lines left. */
  function Quoted(body: string, rest: seq<string>, n: nat,
    vars: map<string, string>): (r: Result<(string, seq<string>), Error>)
    ensures r.Ok? ==> |r.value.1| <= |rest|
    decreases |rest|
  {
    match ClosingQuote(body)
    case Some(end) =>
      (match Unescape(body[..end])
       case Err(c) => Err(BadEscape(n, c))
       case Ok(v) => Ok((Replace(Expand(v, vars), ESCAPED_DOLLAR, '$'), rest)))
    case None =>
      if rest == [] then Err(OpenDouble(n))
      else Quoted(body + "\n" + rest[0], rest[1..], n, vars)
  }

  /** The value that starts with raw on line n. */
  function Value(raw: string, rest: seq<string>, n: nat,
    vars: map<string, string>): (r: Result<(string, seq<string>), Error>)
    ensures r.Ok? ==> |r.value.1| <= |rest|
  {
    if raw != "" && raw[0] == '\'' then
      match Index(raw[1..], "'")
      case None => Err(OpenSingle(n))
      case Some(end) => Ok((raw[1..end+1], rest))
    else if raw != "" && raw[0] == '"' then Quoted(raw[1..], rest, n, vars)
    else
      var cut := match Index(raw, " #") case None => raw case Some(i) => raw[..i];
      Ok((Expand(TrimSpace(cut), vars), rest))
  }

  function Unexported(line: string): string { if "export " <= line then line[|"export "|..] else line }

  /** The lines left, of total in all; vars is what references resolve to. */
  function ParseLines(lines: seq<string>, total: nat, vars: map<string, string>): Result<seq<KeyValue>, Error>
    requires |lines| <= total
    decreases |lines|
  {
    if lines == [] then Ok([])
    else
      var n := total - |lines| + 1;
      var line := TrimSpace(lines[0]);
      if line == "" || line[0] == '#' then ParseLines(lines[1..], total, vars)
      else
        var entry := Unexported(line);
        match Index(entry, "=")
        case None => Err(BadLine(n))
        case Some(i) =>
          var key := TrimSpace(entry[..i]);
          if !ValidKey(key) then Err(BadLine(n))
          else match Value(TrimLeft(entry[i+1..], IsBlank), lines[1..], n, vars)
            case Err(e) => Err(e)
            case Ok((v, rest)) =>
              match ParseLines(rest, total, vars[key := v])
              case Err(e) => Err(e)
              case Ok(more) => Ok([KeyValue(key, v)] + more)
  }

  function Parse(text: string, env: map<string, string>): Result<seq<KeyValue>, Error> {
    var lines := Lines(text);
    ParseLines(lines, |lines|, env)
  }

  // -------------------------------------------------------------- printing

  function EscapeChar(c: char): string {
    match c
    case '\\' => "\\\\"
    case '"' => "\\\""
    case '\n' => "\\n"
    case '\r' => "\\r"
    case '$' => "\\$"
    case _ => [c]
  }

  function Escape(v: string): string { if v == "" then "" else EscapeChar(v[0]) + Escape(v[1..]) }

  function PrintLine(kv: KeyValue): string { kv.key + "=\"" + Escape(kv.value) + "\"" }

  function Print(kvs: seq<KeyValue>): string {
    if kvs == [] then "" else PrintLine(kvs[0]) + "\n" + Print(kvs[1..])
  }

  /** What parsing makes of a printed value. */
  function Restored(v: string): string { Replace(v, ESCAPED_DOLLAR, '$') }

  // ------------------------------------------------------------ round trip

  /** An escaped character holds no closing quote. */
  lemma PastEscape(ch: char, rest: string)
    ensures ClosingQuote(EscapeChar(ch) + rest) == match ClosingQuote(rest) case None => None
      case Some(i) => Some(i + |EscapeChar(ch)|)
  {
    var e := EscapeChar(ch);
    assert (e + rest)[|e|..] == rest;
    assert (e + rest)[0] == e[0];
  }

  lemma ClosedAtOnce(tail: string)
    ensures ClosingQuote("" + ("\"" + tail)) == Some(0)
  {
    assert "" + ("\"" + tail) == "\"" + tail;
  }

  lemma {:induction false} EscapeCloses(v: string, tail: string)
    ensures ClosingQuote(Escape(v) + ("\"" + tail)) == Some(|Escape(v)|)
  {
    if v == "" {
      ClosedAtOnce(tail);
    } else {
      var head, more, end := EscapeChar(v[0]), Escape(v[1..]), "\"" + tail;
      EscapeCloses(v[1..], tail);
      PastEscape(v[0], more + end);
      Onward(head, more, end);
      assert Escape(v) == head + more;
    }
  }

  lemma {:induction false} UnescapeEscape(v: string)
    ensures Unescape(Escape(v)) == Ok(Replace(v, '$', ESCAPED_DOLLAR))
  {
    if v != "" {
      var e := EscapeChar(v[0]);
      UnescapeEscape(v[1..]);
      assert (e + Escape(v[1..]))[|e|..] == Escape(v[1..]);
    }
  }

  lemma {:induction false} NoDollar(v: string)
    ensures '$' !in Replace(v, '$', ESCAPED_DOLLAR)
  {
    if v != "" { NoDollar(v[1..]); }
  }

  lemma {:induction false} NoSign(s: string)
    requires '$' !in s
    ensures FirstRef(s) == None
  {
    if s != "" {
      assert s[0] in s;
      NoSign(s[1..]);
    }
  }

  lemma {:induction false} RestoreMarked(v: string)
    ensures Restored(Replace(v, '$', ESCAPED_DOLLAR)) == Restored(v)
  {
    if v != "" { RestoreMarked(v[1..]); }
  }

  lemma QuotedBack(v: string, rest: seq<string>, n: nat, vars: map<string, string>)
    ensures Quoted(Escape(v) + "\"", rest, n, vars) == Ok((Restored(v), rest))
  {
    var body := Escape(v) + "\"";
    EscapeCloses(v, "");
    assert Escape(v) + ("\"" + "") == body;
    assert body[..|Escape(v)|] == Escape(v);
    UnescapeEscape(v);
    var marked := Replace(v, '$', ESCAPED_DOLLAR);
    NoDollar(v);
    NoSign(marked);
    RestoreMarked(v);
  }

  lemma {:induction false} EscapePlain(v: string)
    ensures '\n' !in Escape(v)
  {
    if v != "" { EscapePlain(v[1..]); }
  }

  lemma {:induction false} FirstAt(s: string, c: char, rest: string)
    requires c !in s
    ensures Index(s + ([c] + rest), [c]) == Some(|s|)
  {
    if s == "" {
      assert s + ([c] + rest) == [c] + rest && [c] <= [c] + rest;
    } else {
      FirstAt(s[1..], c, rest);
      assert (s + ([c] + rest))[1..] == s[1..] + ([c] + rest);
      assert s[0] in s && (s + ([c] + rest))[0] == s[0];
    }
  }

  lemma FirstLine(line: string, rest: string)
    requires '\n' !in line
    ensures Lines(line + ("\n" + rest)) == [DropReturn(line)] + Lines(rest)
  {
    var text := line + ("\n" + rest);
    FirstAt(line, '\n', rest);
    assert text[..|line|] == line && text[|line|+1..] == rest;
  }

  lemma PrintedLine(kv: KeyValue)
    requires ValidKey(kv.key)
    ensures '\n' !in PrintLine(kv) && DropReturn(PrintLine(kv)) == PrintLine(kv)
  {
    EscapePlain(kv.value);
    assert '\n' !in kv.key;
  }

  function PrintedLines(kvs: seq<KeyValue>): seq<string> {
    if kvs == [] then [] else [PrintLine(kvs[0])] + PrintedLines(kvs[1..])
  }

  /** Printed lines are read back as they were. */
  lemma {:induction false} LinesPrint(kvs: seq<KeyValue>)
    requires forall kv :: kv in kvs ==> ValidKey(kv.key)
    ensures Lines(Print(kvs)) == PrintedLines(kvs)
  {
    if kvs != [] {
      var line, rest := PrintLine(kvs[0]), Print(kvs[1..]);
      PrintedLine(kvs[0]);
      FirstLine(line, rest);
      LinesPrint(kvs[1..]);
      Onward(line, "\n", rest);
    }
  }

  lemma TrimNothing(s: string)
    requires s != "" && !IsSpace(s[0]) && !IsSpace(s[|s|-1])
    ensures TrimSpace(s) == s
  {
  }

  /** A printed line is not taken for an exported one. */
  lemma NotExported(line: string, key: string)
    requires ValidKey(key) && key + "=" <= line
    ensures Unexported(line) == line
  {
    assert "export " <= line ==> forall i :: 0 <= i < 7 ==> line[i] == "export "[i];
    assert line[|key|] == '=';
    assert |key| > 6 ==> line[6] == key[6] && KeyChar(key[6]);
    assert forall i :: 0 <= i < 7 ==> "export "[i] != '=';
  }

  /** A printed line is an entry: its key comes before the first equals sign. */
  lemma HeadBack(kv: KeyValue, raw: string, line: string)
    requires ValidKey(kv.key) && raw != "" && raw[|raw|-1] == '"' && line == kv.key + ("=" + raw)
    ensures TrimSpace(line) == line && Unexported(line) == line && line != "" && line[0] != '#'
    ensures Index(line, "=") == Some(|kv.key|) && line[..|kv.key|] == kv.key && TrimSpace(kv.key) == kv.key
    ensures line[|kv.key|+1..] == raw
  {
    TrimNothing(line);
    TrimNothing(kv.key);
    assert kv.key + "=" <= line;
    NotExported(line, kv.key);
    FirstAt(kv.key, '=', raw);
  }

  /** One printed line parses to its key and value. */
  lemma LineBack(kv: KeyValue, rest: seq<string>, n: nat, vars: map<string, string>)
    requires ValidKey(kv.key)
    ensures var line := PrintLine(kv);
      && TrimSpace(line) == line && Unexported(line) == line && line != "" && line[0] != '#'
      && Index(line, "=") == Some(|kv.key|) && line[..|kv.key|] == kv.key && TrimSpace(kv.key) == kv.key
      && Value(TrimLeft(line[|kv.key|+1..], IsBlank), rest, n, vars) == Ok((Restored(kv.value), rest))
  {
    var body := Escape(kv.value) + "\"";
    var raw := "\"" + body;
    assert PrintLine(kv) == kv.key + ("=" + raw);
    HeadBack(kv, raw, PrintLine(kv));
    ValueBack(kv.value, body, raw, rest, n, vars);
  }

  lemma ValueBack(v: string, body: string, raw: string, rest: seq<string>, n: nat, vars: map<string, string>)
    requires body == Escape(v) + "\"" && raw == "\"" + body
    ensures Value(TrimLeft(raw, IsBlank), rest, n, vars) == Ok((Restored(v), rest))
  {
    assert raw[0] == '"' && raw[1..] == body;
    assert TrimLeft(raw, IsBlank) == raw;
    QuotedBack(v, rest, n, vars);
  }

  lemma {:induction false} PrintedCount(kvs: seq<KeyValue>)
    ensures |PrintedLines(kvs)| == |kvs|
  {
    if kvs != [] { PrintedCount(kvs[1..]); }
  }

  /** An entry on one line. */
  lemma ParseHead(lines: seq<string>, total: nat, vars: map<string, string>, i: nat, key: string, v: string)
    requires 0 < |lines| <= total && TrimSpace(lines[0]) == lines[0] && lines[0] != "" && lines[0][0] != '#'
    requires Unexported(lines[0]) == lines[0]
    requires Index(lines[0], "=") == Some(i) && TrimSpace(lines[0][..i]) == key && ValidKey(key)
    requires Value(TrimLeft(lines[0][i+1..], IsBlank), lines[1..], total - |lines| + 1, vars) == Ok((v, lines[1..]))
    ensures ParseLines(lines, total, vars)
      == Following([KeyValue(key, v)], ParseLines(lines[1..], total, vars[key := v]))
  {
  }

  lemma {:induction false} ParsePrinted(kvs: seq<KeyValue>, total: nat, vars: map<string, string>)
    requires |PrintedLines(kvs)| <= total && forall kv :: kv in kvs ==> ValidKey(kv.key)
    ensures ParseLines(PrintedLines(kvs), total, vars) == Ok(AllRestored(kvs))
    decreases |kvs|
  {
    if kvs != [] {
      var lines, more := PrintedLines(kvs), PrintedLines(kvs[1..]);
      assert lines[0] == PrintLine(kvs[0]) && lines[1..] == more;
      LineBack(kvs[0], more, total - |lines| + 1, vars);
      ParseHead(lines, total, vars, |kvs[0].key|, kvs[0].key, Restored(kvs[0].value));
      ParsePrinted(kvs[1..], total, vars[kvs[0].key := Restored(kvs[0].value)]);
    }
  }

  function AllRestored(kvs: seq<KeyValue>): seq<KeyValue> {
    if kvs == [] then [] else [KeyValue(kvs[0].key, Restored(kvs[0].value))] + AllRestored(kvs[1..])
  }

  lemma {:induction false} RestoredSame(v: string)
    ensures Restored(v) == v <==> ESCAPED_DOLLAR !in v
  {
    if v != "" {
      RestoredSame(v[1..]);
      assert v == [v[0]] + v[1..];
    }
  }

  lemma {:induction false} AllRestoredSame(kvs: seq<KeyValue>)
    ensures AllRestored(kvs) == kvs <==> forall i :: 0 <= i < |kvs| ==> ESCAPED_DOLLAR !in kvs[i].value
  {
    if kvs != [] {
      AllRestoredSame(kvs[1..]);
      RestoredSame(kvs[0].value);
      assert kvs == [kvs[0]] + kvs[1..];
      if AllRestored(kvs) == kvs {
        assert AllRestored(kvs)[0] == kvs[0] && AllRestored(kvs)[1..] == kvs[1..];
      }
    }
  }

  /** Parsing what was printed gives the same keys and values back, in whatever
      environment, if and only if no value holds the stand-in for an escaped
      dollar; that comes back as a dollar. */
  lemma RoundTrip(kvs: seq<KeyValue>, env: map<string, string>)
    requires forall kv :: kv in kvs ==> ValidKey(kv.key)
    ensures Parse(Print(kvs), env) == Ok(AllRestored(kvs))
    ensures Parse(Print(kvs), env) == Ok(kvs) <==> forall i :: 0 <= i < |kvs| ==> ESCAPED_DOLLAR !in kvs[i].value
  {
    LinesPrint(kvs);
    PrintedCount(kvs);
    ParsePrinted(kvs, |kvs|, env);
    AllRestoredSame(kvs);
  }

  // ----------------------------------------------------------- the scanner

  function Shifted(r: Option<nat>, n: nat): Option<nat> {
    match r case None => None case Some(i) => Some(i + n)
  }

  lemma ClosingFrom(s: string, i: nat)
    requires i < |s|
    ensures s[i] == '"' ==> ClosingQuote(s[i..]) == Some(0)
    ensures s[i] == '\\' ==> ClosingQuote(s[i..]) == if i + 2 <= |s| then Shifted(ClosingQuote(s[i+2..]), 2) else None
    ensures s[i] != '"' && s[i] != '\\' ==> ClosingQuote(s[i..]) == Shifted(ClosingQuote(s[i+1..]), 1)
  {
    assert s[i..][1..] == s[i+1..];
    assert i + 2 <= |s| ==> s[i..][2..] == s[i+2..];
  }

  method FindClosingQuote(s: string) returns (r: int)
    ensures r == match ClosingQuote(s) case None => -1 case Some(i) => i
  {
    var i := 0;
    ghost var left := ClosingQuote(s);
    assert s[0..] == s;
    while i < |s|
      invariant 0 <= i
      invariant ClosingQuote(s) == Shifted(left, i)
      invariant left == if i <= |s| then ClosingQuote(s[i..]) else None
      decreases |s| - i
    {
      ClosingFrom(s, i);
      if s[i] == '"' { return i; }
      if s[i] == '\\' { i := i + 1; }
      i := i + 1;
      left := if i <= |s| then ClosingQuote(s[i..]) else None;
    }
    return -1;
  }

  function After(out: string, r: Result<string, char>): Result<string, char> {
    match r case Err(c) => Err(c) case Ok(v) => Ok(out + v)
  }

  lemma AfterMore(out: string, c: char, r: Result<string, char>)
    ensures After("", r) == r && After(out + [c], r) == After(out, After([c], r))
  {
    if r.Ok? { assert "" + r.value == r.value && (out + [c]) + r.value == out + ([c] + r.value); }
  }

  method UnescapeDouble(s: string) returns (r: Result<string, char>)
    ensures r == Unescape(s)
  {
    var b := "";
    var i := 0;
    assert s[0..] == s;
    AfterMore("", 'n', Unescape(s));
    while i < |s|
      invariant 0 <= i <= |s|
      invariant Unescape(s) == After(b, Unescape(s[i..]))
    {
      if s[i] != '\\' || i + 1 == |s| {
        assert s[i..][1..] == s[i+1..];
        AfterMore(b, s[i], Unescape(s[i+1..]));
        b := b + [s[i]];
        i := i + 1;
        continue;
      }
      i := i + 1;
      assert s[i-1..][2..] == s[i+1..] && s[i-1..][1] == s[i];
      match Unescaped(s[i])
      case None => return Err(s[i]);
      case Some(c) =>
        AfterMore(b, c, Unescape(s[i+1..]));
        b := b + [c];
        i := i + 1;
    }
    assert s[i..] == "" && b + "" == b;
    r := Ok(b);
  }

  lemma {:induction false} Skip(s: string, n: nat)
    requires n <= |s| && forall k :: 0 <= k < n ==> KeyHere(s[k..]) == None
    ensures FirstRef(s) == Moved(FirstRef(s[n..]), n)
  {
    if n == 0 {
      assert s[0..] == s;
    } else {
      assert s[0..] == s;
      forall k | 0 <= k < n - 1 ensures KeyHere(s[1..][k..]) == None { assert s[1..][k..] == s[k+1..]; }
      Skip(s[1..], n - 1);
      assert s[1..][n-1..] == s[n..];
    }
  }

  /** No reference begins before the first sign, or right behind it. */
  lemma BeforeSign(s: string, i: nat)
    requires Index(s, "${") == Some(i)
    ensures forall k :: 0 <= k < i ==> KeyHere(s[k..]) == None
    ensures KeyHere(s[i+1..]) == None
  {
    IndexFirst(s, "${");
    assert s[i+1..][0] == s[i..i+2][1];
  }

  lemma NoSignAhead(s: string)
    requires Index(s, "${") == None
    ensures FirstRef(s) == None
  {
    IndexFirst(s, "${");
    assert s[|s|..] == "";
    Skip(s, |s|);
  }

  lemma ExpandBy(s: string, i: nat, key: string, rest: string, vars: map<string, string>)
    requires FirstRef(s) == Some((i, key)) && rest == s[i+|key|+3..]
    ensures Expand(s, vars) == s[..i] + Resolve(vars, key) + Expand(rest, vars)
  {
  }

  lemma ExpandNone(s: string, vars: map<string, string>)
    requires FirstRef(s) == None
    ensures Expand(s, vars) == s
  {
  }

  /** Text without a reference in it is put out as it is. */
  lemma ExpandPast(s: string, n: nat, tail: string, vars: map<string, string>)
    requires n <= |s| && tail == s[n..] && FirstRef(s) == Moved(FirstRef(tail), n)
    ensures Expand(s, vars) == s[..n] + Expand(tail, vars)
  {
    match FirstRef(tail)
    case None =>
      ExpandNone(tail, vars);
      ExpandNone(s, vars);
      assert s[..n] + tail == s;
    case Some((m, key)) =>
      SliceLater(s, n, m + |key| + 3);
      ExpandPastRef(s, n, tail, m, m + n, key, tail[m+|key|+3..], vars);
  }

  lemma ExpandPastRef(s: string, n: nat, tail: string, m: nat, i: nat, key: string, rest: string,
    vars: map<string, string>)
    requires n <= |s| && tail == s[n..] && i == m + n
    requires FirstRef(tail) == Some((m, key)) && FirstRef(s) == Some((i, key))
    requires rest == tail[m+|key|+3..] && rest == s[i+|key|+3..]
    ensures Expand(s, vars) == s[..n] + Expand(tail, vars)
  {
    ExpandBy(tail, m, key, rest, vars);
    ExpandBy(s, i, key, rest, vars);
    Reassemble(s, n, tail, m, Resolve(vars, key), Expand(rest, vars), Expand(s, vars), Expand(tail, vars));
  }

  lemma SliceLater(s: string, n: nat, e: nat)
    requires n + e <= |s|
    ensures s[n..][e..] == s[e+n..]
  {
  }

  lemma Reassemble(s: string, n: nat, tail: string, m: nat, put: string, done: string, whole: string, part: string)
    requires n <= |s| && tail == s[n..] && m <= |tail|
    requires whole == s[..m+n] + put + done && part == tail[..m] + put + done
    ensures whole == s[..n] + part
  {
    assert s[..n] + tail[..m] == s[..m+n];
    Onward(s[..n], tail[..m], put);
    Onward(s[..n], tail[..m] + put, done);
  }

  lemma KeyOf(here: string, j: Option<nat>)
    requires "${" <= here && j == Index(here, "}")
    ensures KeyHere(here) == if j.Some? && j.value >= 2 && ValidKey(here[2..j.value]) then Some(here[2..j.value])
      else None
  {
  }

  lemma SameKey(s: string, i: nat, j: nat)
    requires i + 2 <= |s| && 2 <= j && i + j <= |s|
    ensures s[i..][2..j] == s[i+2..i+j]
  {
  }

  lemma RefFirst(s: string, key: string)
    requires KeyHere(s) == Some(key)
    ensures FirstRef(s) == Some((0, key))
  {
  }

  lemma Untaken(s: string, i: nat, vars: map<string, string>)
    requires Index(s, "${") == Some(i) && KeyHere(s[i..]) == None
    ensures Expand(s, vars) == s[..i+2] + Expand(s[i+2..], vars)
  {
    BeforeSign(s, i);
    Skip(s, i + 2);
    ExpandPast(s, i + 2, s[i+2..], vars);
  }

  lemma Taken(s: string, i: nat, key: string, vars: map<string, string>)
    requires Index(s, "${") == Some(i) && KeyHere(s[i..]) == Some(key)
    ensures Expand(s, vars) == s[..i] + Resolve(vars, key) + Expand(s[i+|key|+3..], vars)
  {
    BeforeSign(s, i);
    Skip(s, i);
    RefFirst(s[i..], key);
    ExpandBy(s, i, key, s[i+|key|+3..], vars);
  }

  lemma KeyAtSign(s: string, i: nat, j: Option<nat>)
    requires Index(s, "${") == Some(i) && j == Index(s[i..], "}")
    ensures KeyHere(s[i..]) == if j.Some? && j.value >= 2 && ValidKey(s[i+2..i+j.value]) then Some(s[i+2..i+j.value])
      else None
  {
    assert s[i..][..2] == s[i..i+2];
    KeyOf(s[i..], j);
    if j.Some? && j.value >= 2 { SameKey(s, i, j.value); }
  }

  /** One turn of the loop, at the first sign: what is put out, and what is left. */
  method ExpandOnce(s: string, i: nat, vars: map<string, string>) returns (out: string, rest: string)
    requires Index(s, "${") == Some(i)
    ensures |rest| < |s| && Expand(s, vars) == out + Expand(rest, vars)
  {
    var j := Index(s[i..], "}");
    KeyAtSign(s, i, j);
    if j.None? || j.value < 2 || !ValidKey(s[i+2..i+j.value]) {
      Untaken(s, i, vars);
      return s[..i+2], s[i+2..];
    }
    var key := s[i+2..i+j.value];
    Taken(s, i, key, vars);
    return s[..i] + Resolve(vars, key), s[i+|key|+3..];
  }

  method ExpandAll(s0: string, vars: map<string, string>) returns (r: string)
    ensures r == Expand(s0, vars)
  {
    var s, b := s0, "";
    var i := Index(s, "${");
    while i.Some?
      invariant Expand(s0, vars) == b + Expand(s, vars) && i == Index(s, "${")
      decreases |s|
    {
      var out, rest := ExpandOnce(s, i.value, vars);
      Onward(b, out, Expand(rest, vars));
      b, s := b + out, rest;
      i := Index(s, "${");
    }
    NoSignAhead(s);
    r := b + s;
  }

  lemma Onward(a: string, b: string, c: string)
    ensures (a + b) + c == a + (b + c)
  {
  }

  function Following(out: seq<KeyValue>, r: Result<seq<KeyValue>, Error>): Result<seq<KeyValue>, Error> {
    match r case Err(e) => Err(e) case Ok(more) => Ok(out + more)
  }

  lemma FollowingMore(out: seq<KeyValue>, kv: KeyValue, r: Result<seq<KeyValue>, Error>)
    ensures Following([], r) == r && Following(out + [kv], r) == Following(out, Following([kv], r))
  {
    if r.Ok? { assert [] + r.value == r.value && (out + [kv]) + r.value == out + ([kv] + r.value); }
  }

  /** The value in double quotes that starts on line i - 1 with body and may run
      over the lines from i. */
  method ReadQuoted(first: string, lines: seq<string>, i: nat, vars: map<string, string>)
    returns (r: Result<string, Error>, next: nat)
    requires 1 <= i <= |lines|
    ensures i <= next <= |lines|
    ensures match r case Err(e) => Quoted(first, lines[i..], i, vars) == Err(e)
      case Ok(v) => Quoted(first, lines[i..], i, vars) == Ok((v, lines[next..]))
  {
    var body := first;
    next := i;
    var end := FindClosingQuote(body);
    while end < 0
      invariant i <= next <= |lines| && end == match ClosingQuote(body) case None => -1 case Some(k) => k
      invariant Quoted(first, lines[i..], i, vars) == Quoted(body, lines[next..], i, vars)
      decreases |lines| - next
    {
      if next == |lines| { return Err(OpenDouble(i)), next; }
      assert lines[next..][1..] == lines[next+1..];
      body := body + "\n" + lines[next];
      next := next + 1;
      end := FindClosingQuote(body);
    }
    var v := UnescapeDouble(body[..end]);
    if v.Err? { return Err(BadEscape(i, v.error)), next; }
    var e := ExpandAll(v.value, vars);
    return Ok(Replace(e, ESCAPED_DOLLAR, '$')), next;
  }

  method ReadValue(raw: string, lines: seq<string>, i: nat, vars: map<string, string>)
    returns (r: Result<string, Error>, next: nat)
    requires 1 <= i <= |lines|
    ensures i <= next <= |lines|
    ensures match r case Err(e) => Value(raw, lines[i..], i, vars) == Err(e)
      case Ok(v) => Value(raw, lines[i..], i, vars) == Ok((v, lines[next..]))
  {
    next := i;
    if raw != "" && raw[0] == '\'' {
      var end := Index(raw[1..], "'");
      r := if end.None? then Err(OpenSingle(i)) else Ok(raw[1..end.value+1]);
    } else if raw != "" && raw[0] == '"' {
      r, next := ReadQuoted(raw[1..], lines, i, vars);
    } else {
      var cut := Index(raw, " #");
      var v := ExpandAll(TrimSpace(if cut.None? then raw else raw[..cut.value]), vars);
      r := Ok(v);
    }
  }

  predicate Skipped(line: string) { var t := TrimSpace(line); t == "" || t[0] == '#' }

  /** The entry on line i, counted from 0. */
  method ReadEntry(lines: seq<string>, i: nat, vars: map<string, string>)
    returns (r: Result<KeyValue, Error>, next: nat)
    requires i < |lines| && !Skipped(lines[i])
    ensures i < next <= |lines|
    ensures ParseLines(lines[i..], |lines|, vars) == match r
      case Err(e) => Err(e)
      case Ok(kv) => Following([kv], ParseLines(lines[next..], |lines|, vars[kv.key := kv.value]))
  {
    assert lines[i..][0] == lines[i] && lines[i..][1..] == lines[i+1..];
    next := i + 1;
    var entry := Unexported(TrimSpace(lines[i]));
    var at := Index(entry, "=");
    if at.None? { return Err(BadLine(i + 1)), next; }
    var key := TrimSpace(entry[..at.value]);
    if !ValidKey(key) { return Err(BadLine(i + 1)), next; }
    var v, n := ReadValue(TrimLeft(entry[at.value+1..], IsBlank), lines, i + 1, vars);
    next := n;
    r := if v.Err? then Err(v.error) else Ok(KeyValue(key, v.value));
  }

  lemma Define(env: map<string, string>, defined: map<string, string>, kv: KeyValue)
    ensures (env + defined)[kv.key := kv.value] == env + defined[kv.key := kv.value]
  {
  }

  /** Line by line, keeping what has been defined so far. */
  method ParseDotEnv(text: string, env: map<string, string>) returns (r: Result<seq<KeyValue>, Error>)
    ensures r == Parse(text, env)
  {
    var lines := Lines(text);
    var out: seq<KeyValue> := [];
    var defined: map<string, string> := map[];
    var i := 0;
    assert lines[0..] == lines && env + defined == env;
    FollowingMore([], KeyValue("", ""), ParseLines(lines, |lines|, env));
    while i < |lines|
      invariant 0 <= i <= |lines|
      invariant Parse(text, env) == Following(out, ParseLines(lines[i..], |lines|, env + defined))
      decreases |lines| - i
    {
      if Skipped(lines[i]) {
        assert lines[i..][0] == lines[i] && lines[i..][1..] == lines[i+1..];
        i := i + 1;
        continue;
      }
      var kv, next := ReadEntry(lines, i, env + defined);
      if kv.Err? { return Err(kv.error); }
      Define(env, defined, kv.value);
      defined := defined[kv.value.key := kv.value.value];
      FollowingMore(out, kv.value, ParseLines(lines[next..], |lines|, env + defined));
      out := out + [kv.value];
      i := next;
    }
    assert lines[i..] == [] && out + [] == out;
    r := Ok(out);
  }
}
