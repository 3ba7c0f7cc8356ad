/** What .env files are made of and what they mean: the forms entries are written
    in, and what each assignment stands for after those before it. */
module EnvForm {
  import opened Common
  import opened DotEnv
  import opened Text

  /** A part of a value: text as it is, a backslash and the character behind it,
      or a reference. */
  datatype Piece = Verbatim(text: string) | Slash(c: char) | Ref(key: string)

  /** A value in double quotes, in single quotes, or in none. What follows the
      closing quote, or a blank and "#", is not part of it. */
  datatype Form =
    | Double(pieces: seq<Piece>, note: string)
    | Single(text: string, note: string)
    | Bare(pieces: seq<Piece>, tail: string)

  /** A line that is blank or a comment, or an assignment, which takes more than
      one line if its value does. */
  datatype Entry =
    | Filler(indent: string, comment: string)
    | Assign(indent: string, prefix: string, key: string, gap: string, blanks: string, form: Form)

  // ------------------------------------------------------------- how written

  function Written(p: Piece): string {
    match p
    case Verbatim(t) => t
    case Slash(c) => ['\\', c]
    case Ref(k) => "${" + k + "}"
  }

  function Body(pieces: seq<Piece>): string {
    if pieces == [] then "" else Written(pieces[0]) + Body(pieces[1..])
  }

  function Raw(f: Form): string {
    match f
    case Double(pieces, note) => "\"" + (Body(pieces) + ("\"" + note))
    case Single(text, note) => "'" + (text + ("'" + note))
    case Bare(pieces, tail) => Body(pieces) + tail
  }

  /** An assignment up to its value. */
  function Head(e: Entry): string
    requires e.Assign?
  {
    e.indent + (e.prefix + (e.key + (e.gap + ("=" + e.blanks))))
  }

  /** The lines of an entry. */
  function Physical(e: Entry): seq<string> {
    match e
    case Filler(indent, comment) => [indent + comment]
    case Assign(_, _, _, _, _, form) =>
      var lines := Split(Raw(form), '\n');
      [Head(e) + lines[0]] + lines[1..]
  }

  function AllLines(file: seq<Entry>): seq<string> {
    if file == [] then [] else Physical(file[0]) + AllLines(file[1..])
  }

  /** The text, with this at the end of every line. */
  function Ended(lines: seq<string>, eol: string): string {
    if lines == [] then "" else lines[0] + (eol + Ended(lines[1..], eol))
  }

  // --------------------------------------------------------- what is allowed

  ghost predicate OneLine(s: string) { '\n' !in s && '\r' !in s }

  ghost predicate Spaces(s: string) { OneLine(s) && forall c :: c in s ==> IsSpace(c) }

  ghost predicate Blanks(s: string) { forall c :: c in s ==> c == ' ' || c == '\t' }

  ghost predicate InQuotes(p: Piece) {
    match p
    case Verbatim(t) => '"' !in t && '\\' !in t && '$' !in t && '\r' !in t
    case Slash(c) => c in {'n', 't', 'r', '"', '\\', '$'}
    case Ref(k) => ValidKey(k)
  }

  ghost predicate Outside(p: Piece) {
    match p
    case Verbatim(t) => '$' !in t && OneLine(t)
    case Slash(_) => false
    case Ref(k) => ValidKey(k)
  }

  /** No white space before the first line break. */
  ghost predicate FirstLineKept(s: string) {
    forall i :: 0 < i < |s| && s[i] == '\n' && '\n' !in s[..i] ==> !IsSpace(s[i-1])
  }

  ghost predicate Keeps(f: Form) { f.Double? ==> FirstLineKept(Body(f.pieces)) }

  /** Text that is not trimmed, or taken for a quoted value or a comment. */
  ghost predicate Solid(b: string) {
    && b != "" && !IsSpace(b[0]) && !IsSpace(b[|b|-1]) && b[0] != '"' && b[0] != '\''
    && forall i :: 0 < i < |b| && b[i] == '#' ==> b[i-1] != ' '
  }

  /** White space, with or without a comment behind it. */
  ghost predicate Tail(s: string) {
    OneLine(s) && (Spaces(s) || exists i :: NoteAt(s, i))
  }

  ghost predicate NoteAt(s: string, i: nat) { i <= |s| && Spaces(s[..i]) && " #" <= s[i..] }

  ghost predicate ProperForm(f: Form) {
    match f
    case Double(pieces, note) => (forall p :: p in pieces ==> InQuotes(p)) && OneLine(note)
    case Single(text, note) => '\'' !in text && OneLine(text) && OneLine(note)
    case Bare(pieces, tail) =>
      && (forall p :: p in pieces ==> Outside(p))
      && if Body(pieces) == "" then Spaces(tail) else Solid(Body(pieces)) && Tail(tail)
  }

  ghost predicate Proper(e: Entry) {
    Spaces(e.indent) && match e
      case Filler(_, comment) => OneLine(comment) && (comment == "" || comment[0] == '#')
      case Assign(_, prefix, key, gap, blanks, form) =>
        && (prefix == "" || ("export " <= prefix && Spaces(prefix[|"export "|..])))
        && ValidKey(key) && Spaces(gap) && Blanks(blanks) && ProperForm(form)
        && (prefix == "" && key == "export" ==> !(" " <= gap))
  }

  // ---------------------------------------------------------- what is meant

  /** What k stands for after some entries: the value of the last of them for k,
      or else what the environment says, or else nothing. */
  function Before(earlier: seq<KeyValue>, env: map<string, string>, k: string): string {
    if earlier == [] then if k in env then env[k] else ""
    else
      var last := earlier[|earlier|-1];
      if last.key == k then last.value else Before(earlier[..|earlier|-1], env, k)
  }

  /** Entry j is the last for key k. */
  ghost predicate LastFor(entries: seq<KeyValue>, j: nat, k: string) {
    j < |entries| && entries[j].key == k && forall m :: j < m < |entries| ==> entries[m].key != k
  }

  lemma {:induction false} BeforeIs(earlier: seq<KeyValue>, env: map<string, string>, k: string)
    ensures forall j: nat :: LastFor(earlier, j, k) ==> Before(earlier, env, k) == earlier[j].value
    ensures (forall m :: 0 <= m < |earlier| ==> earlier[m].key != k) ==>
      Before(earlier, env, k) == if k in env then env[k] else ""
  {
    if earlier != [] {
      var n := |earlier| - 1;
      BeforeIs(earlier[..n], env, k);
      forall j: nat | LastFor(earlier, j, k) ensures Before(earlier, env, k) == earlier[j].value {
        if j < n { assert LastFor(earlier[..n], j, k); }
      }
    }
  }

  lemma BeforeNext(earlier: seq<KeyValue>, env: map<string, string>, kv: KeyValue, k: string)
    ensures Before(earlier + [kv], env, k) == if kv.key == k then kv.value else Before(earlier, env, k)
  {
    assert (earlier + [kv])[..|earlier|] == earlier;
  }

  function Meant(p: Piece, earlier: seq<KeyValue>, env: map<string, string>): string {
    match p
    case Verbatim(t) => t
    case Slash(c) => if c == 'n' then "\n" else if c == 't' then "\t" else if c == 'r' then "\r" else [c]
    case Ref(k) => Before(earlier, env, k)
  }

  /** The pieces with escapes resolved and references replaced. */
  function Filled(pieces: seq<Piece>, earlier: seq<KeyValue>, env: map<string, string>): string {
    if pieces == [] then "" else Meant(pieces[0], earlier, env) + Filled(pieces[1..], earlier, env)
  }

  /** Single quotes are literal. In double quotes the stand-in for an escaped
      dollar becomes a dollar. */
  function Stands(f: Form, earlier: seq<KeyValue>, env: map<string, string>): string {
    match f
    case Double(pieces, _) => Restored(Filled(pieces, earlier, env))
    case Single(text, _) => text
    case Bare(pieces, _) => Filled(pieces, earlier, env)
  }

  function Assigns(file: seq<Entry>): (r: seq<Entry>)
    ensures forall e :: e in r ==> e.Assign?
  {
    if file == [] then [] else (if file[0].Assign? then [file[0]] else []) + Assigns(file[1..])
  }

  /** Every assignment has its key, and for value what its form stands for after
      those before it. */
  ghost predicate MeansAfter(kvs: seq<KeyValue>, file: seq<Entry>, earlier: seq<KeyValue>, env: map<string, string>)
    requires forall e :: e in file ==> e.Assign?
  {
    && |kvs| == |file|
    && forall i :: 0 <= i < |file| ==>
      kvs[i] == KeyValue(file[i].key, Stands(file[i].form, earlier + kvs[..i], env))
  }
}
