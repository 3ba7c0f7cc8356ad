/** Deriving JSON Schemas from types: named structs become components, emitted
    once and referred to by name, so recursive types come out finite. Pointers
    are looked through wherever they occur, so references between types here
    are to what is pointed to. */
module Schema {
  import opened Common
  import opened Text

  // ----------------------------------------------------------------- types

  type TypeId = nat

  /** tag is the name in the JSON tag, which may be empty. */
  datatype Field = Field(name: string, tag: string, skipped: bool, anonymous: bool, exported: bool, required: bool,
    of: TypeId)

  datatype Kind = Basic | List(elem: TypeId) | Dict(elem: TypeId) | Struct(name: string, pkg: string,
    fields: seq<Field>)

  /** special types describe themselves, whatever their kind. */
  datatype Type = Type(kind: Kind, special: bool)

  type Types = seq<Type>

  function Refers(k: Kind): set<TypeId> {
    match k
    case Basic => {}
    case List(e) => {e}
    case Dict(e) => {e}
    case Struct(_, _, fields) => set f | f in fields :: f.of
  }

  /** Types emitted once, as components. */
  predicate Component(types: Types, t: TypeId)
    requires t < |types|
  {
    !types[t].special && types[t].kind.Struct? && types[t].kind.name != ""
  }

  /** A field whose own fields become those of the struct it is in. */
  predicate Embeds(types: Types, f: Field)
    requires f.of < |types|
  {
    f.anonymous && f.tag == "" && types[f.of].kind.Struct?
  }

  ghost predicate Closed(types: Types) {
    forall t, u :: 0 <= t < |types| && u in Refers(types[t].kind) ==> u < |types|
  }

  /** What the generator may be at: describing a type, or taking a struct apart
      into properties. */
  datatype Work = Describing(t: TypeId) | Apart(t: TypeId)

  ghost predicate InRange(types: Types, a: Work) { a.t < |types| && (a.Apart? ==> types[a.t].kind.Struct?) }

  /** Work on b is done in the course of work on a. A type that describes itself
      leads nowhere, and neither does a component, which is referred to. */
  ghost predicate Leads(types: Types, a: Work, b: Work)
    requires InRange(types, a) && InRange(types, b)
  {
    match a
    case Apart(t) => exists f {:trigger Handles(types, f, b)} :: f in types[t].kind.fields && Handles(types, f, b)
    case Describing(t) =>
      !types[t].special && match types[t].kind
        case Basic => false
        case List(e) => b == Describing(e) && !Component(types, e)
        case Dict(e) => b == Describing(e) && !Component(types, e)
        case Struct(name, _, _) => name == "" && b == Apart(t)
  }

  /** A field taken apart, or described. */
  ghost predicate Handles(types: Types, f: Field, b: Work)
    requires InRange(types, b)
  {
    && f.of == b.t && !f.skipped
    && if Embeds(types, f) then b.Apart? else f.exported && b.Describing? && !Component(types, f.of)
  }

  /** rank goes down from any work to the work it leads to. */
  ghost predicate Grounded(types: Types, rank: map<Work, nat>) {
    && Closed(types) && (forall a :: a in rank <==> InRange(types, a))
    && forall a, b {:trigger Leads(types, a, b)} :: a in rank && b in rank && Leads(types, a, b) ==> rank[b] < rank[a]
  }

  ghost predicate Walk(types: Types, w: seq<Work>) {
    && |w| >= 2 && (forall i :: 0 <= i < |w| ==> InRange(types, w[i]))
    && forall i :: 0 <= i < |w| - 1 ==> Leads(types, w[i], w[i+1])
  }

  /** No work leads back to itself: every cycle of types passes through one that
      describes itself or, not embedded, through a component. */
  ghost predicate CyclesCut(types: Types) {
    forall w :: Walk(types, w) ==> w[0] != w[|w|-1]
  }

  lemma {:induction false} WalkDescends(types: Types, rank: map<Work, nat>, w: seq<Work>)
    requires Grounded(types, rank) && Walk(types, w)
    ensures w[|w|-1] in rank && w[0] in rank && rank[w[|w|-1]] < rank[w[0]]
  {
    var n := |w| - 1;
    assert Leads(types, w[n-1], w[n]);
    if n > 1 { WalkDescends(types, rank, w[..n]); }
  }

  ghost predicate Reaches(types: Types, a: Work, b: Work) {
    exists w :: Walk(types, w) && w[0] == a && w[|w|-1] == b
  }

  ghost function AllWork(types: Types): set<Work> {
    (set t | 0 <= t < |types| :: Describing(t)) + (set t | 0 <= t < |types| && types[t].kind.Struct? :: Apart(t))
  }

  ghost function Reach(types: Types, a: Work): set<Work> {
    set b | b in AllWork(types) && Reaches(types, a, b)
  }

  lemma AllWorkIs(types: Types)
    ensures forall a :: a in AllWork(types) <==> InRange(types, a)
  {
  }

  lemma ReachShrinks(types: Types, a: Work, b: Work)
    requires InRange(types, a) && InRange(types, b) && Leads(types, a, b) && CyclesCut(types)
    ensures |Reach(types, b)| < |Reach(types, a)|
  {
    AllWorkIs(types);
    assert Walk(types, [a, b]) && [a, b][|[a, b]| - 1] == b;
    forall c | c in Reach(types, b) ensures c in Reach(types, a) {
      var w :| Walk(types, w) && w[0] == b && w[|w|-1] == c;
      var longer := [a] + w;
      assert forall i :: 0 <= i < |longer| ==> InRange(types, longer[i]);
      forall i | 0 <= i < |longer| - 1 ensures Leads(types, longer[i], longer[i+1]) {
        if i > 0 { assert longer[i] == w[i-1] && Leads(types, w[i-1], w[i]); }
      }
      assert Walk(types, longer) && longer[|longer|-1] == c;
    }
    SubsetSize(Reach(types, b) + {b}, Reach(types, a));
  }

  /** There is such a rank if and only if every cycle is cut. */
  lemma GroundedWhenCut(types: Types)
    requires Closed(types)
    ensures CyclesCut(types) <==> exists rank :: Grounded(types, rank)
  {
    if CyclesCut(types) {
      AllWorkIs(types);
      var rank := map a | a in AllWork(types) :: |Reach(types, a)|;
      forall a, b | a in rank && b in rank && Leads(types, a, b) ensures rank[b] < rank[a] {
        ReachShrinks(types, a, b);
      }
      assert Grounded(types, rank);
    }
    if rank :| Grounded(types, rank) {
      forall w | Walk(types, w) ensures w[0] != w[|w|-1] { WalkDescends(types, rank, w); }
    }
  }

  /** A type that refers to itself but describes itself is no obstacle. */
  lemma SelfDescribing()
    ensures CyclesCut([Type(Struct("Node", "p", [Field("Parent", "", false, false, true, false, 0)]), true)])
  {
    var types := [Type(Struct("Node", "p", [Field("Parent", "", false, false, true, false, 0)]), true)];
    var rank := map[Describing(0) := 0, Apart(0) := 1];
    assert Grounded(types, rank);
    GroundedWhenCut(types);
  }

  // --------------------------------------------------------------- schemas

  /** Leaf is what a basic or special type comes to, its details left out. */
  datatype Schema =
    | Pending
    | Leaf(of: TypeId)
    | Array(items: Schema)
    | Map(values: Schema)
    | Object(props: seq<Property>, required: seq<string>)
    | Ref(name: string)

  datatype Property = Property(name: string, schema: Schema)

  /** The properties so far of the struct being described. */
  datatype Draft = Draft(props: seq<Property>, required: seq<string>)

  function Put(props: seq<Property>, p: Property): seq<Property> {
    if props == [] then [p]
    else if props[0].name == p.name then [p] + props[1..]
    else [props[0]] + Put(props[1..], p)
  }

  function Added(d: Draft, name: string, s: Schema, required: bool): Draft {
    Draft(Put(d.props, Property(name, s)), if required then d.required + [name] else d.required)
  }

  function PropName(f: Field): string { if f.tag == "" then f.name else f.tag }

  ghost function Height(types: Types, rank: map<Work, nat>, t: TypeId): nat
    requires t < |types| && Describing(t) in rank
  {
    if Component(types, t) then 0 else rank[Describing(t)] + 1
  }

  lemma ItemLower(types: Types, rank: map<Work, nat>, t: TypeId)
    requires Grounded(types, rank) && t < |types| && !types[t].special && (types[t].kind.List? || types[t].kind.Dict?)
    ensures types[t].kind.elem < |types| && Height(types, rank, types[t].kind.elem) < Height(types, rank, t)
  {
    var e := types[t].kind.elem;
    assert e in Refers(types[t].kind);
    assert Component(types, e) || Leads(types, Describing(t), Describing(e));
  }

  lemma BodyLower(types: Types, rank: map<Work, nat>, t: TypeId)
    requires Grounded(types, rank) && t < |types| && !types[t].special && types[t].kind.Struct?
    requires types[t].kind.name == ""
    ensures rank[Apart(t)] + 1 < Height(types, rank, t)
  {
    assert Leads(types, Describing(t), Apart(t));
  }

  lemma FieldLower(types: Types, rank: map<Work, nat>, t: TypeId, f: Field)
    requires Grounded(types, rank) && t < |types| && types[t].kind.Struct? && f in types[t].kind.fields
    ensures f.of < |types|
    ensures !f.skipped && Embeds(types, f) ==> rank[Apart(f.of)] < rank[Apart(t)]
    ensures !f.skipped && !Embeds(types, f) && f.exported ==> Height(types, rank, f.of) < rank[Apart(t)] + 1
  {
    assert f.of in Refers(types[t].kind);
    if !f.skipped && Embeds(types, f) { assert Handles(types, f, Apart(f.of)) && Leads(types, Apart(t), Apart(f.of)); }
    if !f.skipped && !Embeds(types, f) && f.exported && !Component(types, f.of) {
      assert Handles(types, f, Describing(f.of)) && Leads(types, Apart(t), Describing(f.of));
    }
  }

  /** The schema of t, components being known by these names. */
  ghost function Shape(types: Types, rank: map<Work, nat>, names: map<TypeId, string>, t: TypeId): Schema
    requires Grounded(types, rank) && t < |types|
    decreases Height(types, rank, t), 1, 0
  {
    if types[t].special then Leaf(t)
    else match types[t].kind
      case Basic => Leaf(t)
      case List(e) => ItemLower(types, rank, t); Array(Shape(types, rank, names, e))
      case Dict(e) => ItemLower(types, rank, t); Map(Shape(types, rank, names, e))
      case Struct(name, _, _) =>
        if name != "" then (if t in names then Ref(names[t]) else Pending)
        else BodyLower(types, rank, t); Body(types, rank, names, t)
  }

  /** The schema of a struct's fields. */
  ghost function Body(types: Types, rank: map<Work, nat>, names: map<TypeId, string>, t: TypeId): Schema
    requires Grounded(types, rank) && t < |types| && types[t].kind.Struct?
    decreases rank[Apart(t)] + 1, 0, |types[t].kind.fields| + 1
  {
    var d := Fields(types, rank, names, t, |types[t].kind.fields|, Draft([], []));
    Object(d.props, d.required)
  }

  /** d with the first n fields of t added. */
  ghost function Fields(types: Types, rank: map<Work, nat>, names: map<TypeId, string>, t: TypeId, n: nat,
    d: Draft): Draft
    requires Grounded(types, rank) && t < |types| && types[t].kind.Struct? && n <= |types[t].kind.fields|
    decreases rank[Apart(t)] + 1, 0, n
  {
    if n == 0 then d
    else
      var f := types[t].kind.fields[n-1];
      var before := Fields(types, rank, names, t, n - 1, d);
      FieldLower(types, rank, t, f);
      if f.skipped then before
      else if Embeds(types, f) then
        Fields(types, rank, names, f.of, |types[f.of].kind.fields|, before)
      else if !f.exported then before
      else
        Added(before, PropName(f), Shape(types, rank, names, f.of), f.required)
  }

  // ------------------------------------------------------------ references

  /** The components a schema of t refers to. */
  ghost function Uses(types: Types, rank: map<Work, nat>, t: TypeId): (s: set<TypeId>)
    requires Grounded(types, rank) && t < |types|
    ensures forall u :: u in s ==> u < |types| && Component(types, u)
    decreases Height(types, rank, t), 1, 0
  {
    if types[t].special then {}
    else match types[t].kind
      case Basic => {}
      case List(e) => ItemLower(types, rank, t); Uses(types, rank, e)
      case Dict(e) => ItemLower(types, rank, t); Uses(types, rank, e)
      case Struct(name, _, fields) => if name != "" then {t}
        else BodyLower(types, rank, t); FieldUses(types, rank, t, |fields|)
  }

  ghost function FieldUses(types: Types, rank: map<Work, nat>, t: TypeId, n: nat): (s: set<TypeId>)
    requires Grounded(types, rank) && t < |types| && types[t].kind.Struct? && n <= |types[t].kind.fields|
    ensures forall u :: u in s ==> u < |types| && Component(types, u)
    decreases rank[Apart(t)] + 1, 0, n
  {
    if n == 0 then {}
    else
      var f := types[t].kind.fields[n-1];
      FieldLower(types, rank, t, f);
      FieldUses(types, rank, t, n - 1) +
        if f.skipped then {}
        else if Embeds(types, f) then
          FieldUses(types, rank, f.of, |types[f.of].kind.fields|)
        else if !f.exported then {}
        else
          Uses(types, rank, f.of)
  }

  ghost predicate Agree(a: map<TypeId, string>, b: map<TypeId, string>, s: set<TypeId>) {
    forall u :: u in s ==> u in a && u in b && a[u] == b[u]
  }

  /** A schema depends only on the names of the components it uses. */
  lemma {:induction false} ShapeStable(types: Types, rank: map<Work, nat>, a: map<TypeId, string>,
    b: map<TypeId, string>, t: TypeId)
    requires Grounded(types, rank) && t < |types| && Agree(a, b, Uses(types, rank, t))
    ensures Shape(types, rank, a, t) == Shape(types, rank, b, t)
    decreases Height(types, rank, t), 1, 0
  {
    if !types[t].special {
      match types[t].kind
      case Basic =>
      case List(e) =>
        ItemLower(types, rank, t);
        ShapeStable(types, rank, a, b, e);
      case Dict(e) =>
        ItemLower(types, rank, t);
        ShapeStable(types, rank, a, b, e);
      case Struct(name, _, fields) =>
        if name == "" { BodyLower(types, rank, t); FieldsStable(types, rank, a, b, t, |fields|, Draft([], [])); }
    }
  }

  /** All the components the fields of a struct refer to. */
  ghost function BodyUses(types: Types, rank: map<Work, nat>, t: TypeId): set<TypeId>
    requires Grounded(types, rank) && t < |types| && types[t].kind.Struct?
  {
    FieldUses(types, rank, t, |types[t].kind.fields|)
  }

  lemma BodyStable(types: Types, rank: map<Work, nat>, a: map<TypeId, string>, b: map<TypeId, string>, t: TypeId)
    requires Grounded(types, rank) && t < |types| && types[t].kind.Struct? && Agree(a, b, BodyUses(types, rank, t))
    ensures Body(types, rank, a, t) == Body(types, rank, b, t)
  {
    FieldsStable(types, rank, a, b, t, |types[t].kind.fields|, Draft([], []));
  }

  lemma {:induction false} FieldsStable(types: Types, rank: map<Work, nat>, a: map<TypeId, string>,
    b: map<TypeId, string>, t: TypeId, n: nat, d: Draft)
    requires Grounded(types, rank) && t < |types| && types[t].kind.Struct? && n <= |types[t].kind.fields|
    requires Agree(a, b, FieldUses(types, rank, t, n))
    ensures Fields(types, rank, a, t, n, d) == Fields(types, rank, b, t, n, d)
    decreases rank[Apart(t)] + 1, 0, n
  {
    if n > 0 {
      var f := types[t].kind.fields[n-1];
      FieldLower(types, rank, t, f);
      FieldsStable(types, rank, a, b, t, n - 1, d);
      if f.skipped {
      } else if Embeds(types, f) {
        FieldsStable(types, rank, a, b, f.of, |types[f.of].kind.fields|, Fields(types, rank, a, t, n - 1, d));
      } else if f.exported {
        ShapeStable(types, rank, a, b, f.of);
      }
    }
  }

  /** The names a schema refers to. */
  ghost function Refs(s: Schema): set<string> {
    match s
    case Array(items) => Refs(items)
    case Map(values) => Refs(values)
    case Object(props, _) => RefsOf(props)
    case Ref(name) => {name}
    case _ => {}
  }

  ghost function RefsOf(props: seq<Property>): set<string> {
    if props == [] then {} else Refs(props[0].schema) + RefsOf(props[1..])
  }

  /** No part of a schema is left to be filled in. */
  predicate Finished(s: Schema) {
    match s
    case Pending => false
    case Array(items) => Finished(items)
    case Map(values) => Finished(values)
    case Object(props, _) => AllFinished(props)
    case _ => true
  }

  predicate AllFinished(props: seq<Property>) {
    props == [] || (Finished(props[0].schema) && AllFinished(props[1..]))
  }

  lemma {:induction false} PutRefs(props: seq<Property>, p: Property)
    ensures RefsOf(Put(props, p)) <= RefsOf(props) + Refs(p.schema)
    ensures AllFinished(props) && Finished(p.schema) ==> AllFinished(Put(props, p))
  {
    if props != [] {
      PutRefs(props[1..], p);
      assert Put(props, p)[1..] == if props[0].name == p.name then props[1..] else Put(props[1..], p);
    }
  }

  ghost function NamesOf(names: map<TypeId, string>, s: set<TypeId>): set<string>
  {
    set u | u in s && u in names :: names[u]
  }

  /** Every reference in a schema is to the name of a component it uses. */
  lemma {:induction false} ShapeRefs(types: Types, rank: map<Work, nat>, names: map<TypeId, string>, t: TypeId)
    requires Grounded(types, rank) && t < |types| && Uses(types, rank, t) <= names.Keys
    ensures Refs(Shape(types, rank, names, t)) <= NamesOf(names, Uses(types, rank, t))
    ensures Finished(Shape(types, rank, names, t))
    decreases Height(types, rank, t), 1, 0
  {
    if !types[t].special {
      match types[t].kind
      case Basic =>
      case List(e) =>
        ItemLower(types, rank, t);
        ShapeRefs(types, rank, names, e);
      case Dict(e) =>
        ItemLower(types, rank, t);
        ShapeRefs(types, rank, names, e);
      case Struct(name, _, fields) =>
        if name == "" {
          BodyLower(types, rank, t);
          FieldsRefs(types, rank, names, t, |fields|, Draft([], []));
        } else {
          assert t in Uses(types, rank, t);
        }
    }
  }

  lemma {:induction false} FieldsRefs(types: Types, rank: map<Work, nat>, names: map<TypeId, string>, t: TypeId,
    n: nat, d: Draft)
    requires Grounded(types, rank) && t < |types| && types[t].kind.Struct? && n <= |types[t].kind.fields|
    requires FieldUses(types, rank, t, n) <= names.Keys && AllFinished(d.props)
    ensures RefsOf(Fields(types, rank, names, t, n, d).props) <= RefsOf(d.props)
      + NamesOf(names, FieldUses(types, rank, t, n))
    ensures AllFinished(Fields(types, rank, names, t, n, d).props)
    decreases rank[Apart(t)] + 1, 0, n
  {
    if n > 0 {
      var f := types[t].kind.fields[n-1];
      FieldLower(types, rank, t, f);
      FieldsRefs(types, rank, names, t, n - 1, d);
      var before := Fields(types, rank, names, t, n - 1, d);
      if f.skipped {
      } else if Embeds(types, f) {
        FieldsRefs(types, rank, names, f.of, |types[f.of].kind.fields|, before);
      } else if f.exported {
        ShapeRefs(types, rank, names, f.of);
        PutRefs(before.props, Property(PropName(f), Shape(types, rank, names, f.of)));
      }
    }
  }

  // ----------------------------------------------------------------- names

  function Replaced(name: string): string {
    if name == "" then ""
    else (if name[0] == '[' then "_" else if name[0] in {']', '*', ' '} then "" else [name[0]]) + Replaced(name[1..])
  }

  predicate Safe(c: char) {
    'A' <= c <= 'Z' || 'a' <= c <= 'z' || '0' <= c <= '9' || c == '.' || c == '_' || c == '-'
  }

  /** Every run of unsafe characters is one underscore; inside says that the
      text follows an unsafe character. */
  function Squashed(name: string, inside: bool): string {
    if name == "" then ""
    else if Safe(name[0]) then [name[0]] + Squashed(name[1..], false)
    else (if inside then "" else "_") + Squashed(name[1..], true)
  }

  function TrimUnderscores(name: string): string
    decreases |name|
  {
    if name != "" && name[0] == '_' then TrimUnderscores(name[1..])
    else if name != "" && name[|name|-1] == '_' then TrimUnderscores(name[..|name|-1])
    else name
  }

  function SanitizeName(name: string): string { TrimUnderscores(Squashed(Replaced(name), false)) }

  ghost predicate AllSafe(s: string) { forall c :: c in s ==> Safe(c) }

  ghost predicate Trimmed(s: string) { s != "" ==> s[0] != '_' && s[|s|-1] != '_' }

  /** Component names are of safe characters, and a name that already is stays as
      it is. */
  lemma SanitizeIs(name: string)
    ensures AllSafe(SanitizeName(name)) && Trimmed(SanitizeName(name))
    ensures AllSafe(name) && Trimmed(name) ==> SanitizeName(name) == name
  {
    SquashedIs(Replaced(name), false);
    TrimIs(Squashed(Replaced(name), false));
    if AllSafe(name) {
      ReplacedClean(name);
      SquashedIs(name, false);
    }
  }

  lemma {:induction false} ReplacedClean(name: string)
    requires AllSafe(name)
    ensures Replaced(name) == name
  {
    if name != "" {
      assert name[0] in name;
      ReplacedClean(name[1..]);
    }
  }

  lemma {:induction false} SquashedIs(name: string, inside: bool)
    ensures AllSafe(Squashed(name, inside))
    ensures AllSafe(name) ==> Squashed(name, inside) == name
  {
    if name != "" {
      assert name[0] in name;
      SquashedIs(name[1..], !Safe(name[0]));
    }
  }

  lemma {:induction false} TrimIs(name: string)
    requires AllSafe(name)
    ensures AllSafe(TrimUnderscores(name)) && Trimmed(TrimUnderscores(name))
    ensures Trimmed(name) ==> TrimUnderscores(name) == name
    decreases |name|
  {
    if name != "" && name[0] == '_' {
      TrimIs(name[1..]);
    } else if name != "" && name[|name|-1] == '_' {
      TrimIs(name[..|name|-1]);
    }
  }

  lemma {:induction false} DecimalDiffer(base: string, a: nat, b: nat)
    requires base + Decimal(a) == base + Decimal(b)
    ensures a == b
  {
    assert (base + Decimal(a))[|base|..] == Decimal(a) && (base + Decimal(b))[|base|..] == Decimal(b);
    NumberDecimal(a);
    NumberDecimal(b);
  }

  /** x is base with a number from 2 up to, but not, i. */
  ghost predicate IsNumbered(base: string, x: string, i: nat) {
    exists k: nat {:trigger Decimal(k)} :: 2 <= k < i && x == base + Decimal(k)
  }

  /** The numbered names are all different, so only so many can be taken. */
  lemma {:induction false} Numbered(base: string, i: nat, taken: set<string>) returns (s: set<string>)
    requires i >= 2 && forall k :: 2 <= k < i ==> base + Decimal(k) in taken
    ensures |s| == i - 2 <= |taken| && s <= taken && forall x :: x in s ==> IsNumbered(base, x, i)
  {
    s := {};
    if i > 2 {
      var r := Numbered(base, i - 1, taken);
      var x := base + Decimal(i - 1);
      if x in r {
        var k: nat :| 2 <= k < i - 1 && x == base + Decimal(k);
        DecimalDiffer(base, k, i - 1);
        assert false;
      }
      s := r + {x};
      assert IsNumbered(base, x, i);
      forall y | y in r ensures IsNumbered(base, y, i) { assert IsNumbered(base, y, i - 1); }
    }
    SubsetSize(s, taken);
  }

  ghost predicate AllTaken(base: string, i: nat, taken: set<string>) {
    forall k: nat {:trigger Decimal(k)} :: 2 <= k < i ==> base + Decimal(k) in taken
  }

  /** name is base, or base with the first number from 2 that makes it new. */
  ghost predicate FirstFree(base: string, name: string, taken: set<string>) {
    if base !in taken then name == base
    else exists i: nat {:trigger Decimal(i)} :: i >= 2 && name == base + Decimal(i) && AllTaken(base, i, taken)
  }

  // ------------------------------------------------------------- generator

  function Components(types: Types): set<TypeId> { set t | 0 <= t < |types| && Component(types, t) }

  ghost predicate Extends(a: map<TypeId, string>, b: map<TypeId, string>) {
    a.Keys <= b.Keys && forall t {:trigger b[t]} :: t in a ==> b[t] == a[t]
  }

  lemma ExtendsFurther(a: map<TypeId, string>, b: map<TypeId, string>, c: map<TypeId, string>)
    requires Extends(a, b) && Extends(b, c)
    ensures Extends(a, c)
  {
  }

  class Generator {
    const types: Types
    ghost const rank: map<Work, nat>
    var schemas: map<string, Schema>
    var names: map<TypeId, string>
    var owners: map<string, TypeId>

    /** Names and owners are each other's inverse: no two types share a name. */
    ghost predicate Named()
      reads this
    {
      && Grounded(types, rank) && schemas.Keys == owners.Keys
      && (forall t {:trigger NameOk(t)} :: t in names ==> NameOk(t))
      && (forall n {:trigger OwnerOk(n)} :: n in owners ==> OwnerOk(n))
    }

    ghost predicate NameOk(t: TypeId)
      requires t in names
      reads this
    {
      t < |types| && Component(types, t) && names[t] in owners && owners[names[t]] == t
    }

    ghost predicate OwnerOk(n: string)
      requires n in owners
      reads this
    {
      owners[n] in names && names[owners[n]] == n
    }

    /** The component of t is there, with everything it refers to. */
    ghost predicate Done(t: TypeId)
      requires Named() && t in names
      reads this
    {
      && NameOk(t) && BodyUses(types, rank, t) <= names.Keys
      && schemas[names[t]] == Body(types, rank, names, t)
    }

    /** All components but those being described are done. */
    ghost predicate Valid(active: set<TypeId>)
      reads this
    {
      Named() && active <= names.Keys && forall t {:trigger Done(t)} :: t in names && t !in active ==> Done(t)
    }

    constructor (all: Types, ghost r: map<Work, nat>)
      requires Grounded(all, r)
      ensures Valid({}) && types == all && rank == r && schemas == map[]
    {
      types, rank, schemas, names, owners := all, r, map[], map[], map[];
    }

    ghost function Left(): nat
      reads this
    {
      |Components(types) - names.Keys|
    }

    /** Names are only ever added. */
    twostate predicate Grown()
      reads this
    {
      Extends(old(names), names)
    }

    /** A name nobody owns: the type's own, else with its package, else with the
        first number that makes it new. */
    method ComponentName(t: TypeId) returns (name: string)
      requires Named() && t < |types| && Component(types, t) && t !in names
      ensures name !in owners && AllSafe(name)
      ensures var own, long := types[t].kind.name, types[t].kind.pkg + "." + types[t].kind.name;
        AllSafe(long) && Trimmed(long) && Trimmed(own) ==>
          if own !in owners then name == own else FirstFree(long, name, owners.Keys)
    {
      ghost var own, long := types[t].kind.name, types[t].kind.pkg + "." + types[t].kind.name;
      SanitizeIs(own);
      SanitizeIs(long);
      assert AllSafe(long) ==> AllSafe(own) by { forall c | c in own ensures c in long {} }
      name := SanitizeName(types[t].kind.name);
      assert name in owners ==> OwnerOk(name);
      if name !in owners || owners[name] == t { return; }
      name := FreeName(t, SanitizeName(types[t].kind.pkg + "." + types[t].kind.name));
    }

    method FreeName(t: TypeId, base: string) returns (name: string)
      requires Named() && t !in names && AllSafe(base)
      ensures name !in owners && AllSafe(name) && FirstFree(base, name, owners.Keys)
    {
      name := base;
      var i := 2;
      while name in owners && owners[name] != t
        invariant i >= 2 && AllSafe(name) && (i > 2 ==> base in owners) && AllTaken(base, i - 1, owners.Keys)
        invariant name == if i == 2 then base else base + Decimal(i - 1)
        decreases |owners| + 4 - i
      {
        ghost var s := Numbered(base, if i == 2 then 2 else i, owners.Keys);
        assert |owners.Keys| == |owners|;
        NumberDecimal(i);
        name := base + Decimal(i);
        i := i + 1;
      }
      assert name in owners ==> OwnerOk(name);
    }

    /** The schema of any type. */
    method SchemaFor(t: TypeId, ghost active: set<TypeId>) returns (s: Schema)
      requires Valid(active) && t < |types|
      modifies this
      ensures Valid(active) && Grown()
      ensures Uses(types, rank, t) <= names.Keys && s == Shape(types, rank, names, t)
      decreases Left(), Height(types, rank, t), 2, 0
    {
      if types[t].special { return Leaf(t); }
      match types[t].kind
      case Basic => return Leaf(t);
      case List(e) =>
        ItemLower(types, rank, t);
        var items := SchemaFor(e, active);
        return Array(items);
      case Dict(e) =>
        ItemLower(types, rank, t);
        var values := SchemaFor(e, active);
        return Map(values);
      case Struct(name, _, _) =>
        if name == "" {
          BodyLower(types, rank, t);
          s := StructSchema(t, active);
        } else {
          s := RefTo(t, active);
        }
    }

    /** A reference to a component, which is described first unless it is known
        already, or being described. */
    method RefTo(t: TypeId, ghost active: set<TypeId>) returns (s: Schema)
      requires Valid(active) && t < |types| && Component(types, t)
      modifies this
      ensures Valid(active) && Grown() && t in names && s == Ref(names[t])
      decreases Left(), 0, 1, 0
    {
      if t in names { return Ref(names[t]); }
      var name := Describe(t, active);
      return Ref(name);
    }

    method Describe(t: TypeId, ghost active: set<TypeId>) returns (name: string)
      requires Valid(active) && t < |types| && Component(types, t) && t !in names
      modifies this
      ensures Valid(active) && Grown() && t in names && name == names[t]
      decreases Left(), 0, 0, 0
    {
      name := Reserve(t, active);
      ghost var reserved := names;
      var body := StructSchema(t, active + {t});
      ExtendsFurther(old(names), reserved, names);
      assert active <= names.Keys && name == names[t] && NameOk(t);
      Place(t, body, active);
    }

    method Reserve(t: TypeId, ghost active: set<TypeId>) returns (name: string)
      requires Valid(active) && t < |types| && Component(types, t) && t !in names
      modifies this
      ensures Valid(active + {t}) && Left() < old(Left()) && Grown() && t in names && names[t] == name
    {
      name := ComponentName(t);
      label Before:
      names := names[t := name];
      owners := owners[name := t];
      schemas := schemas[name := Pending];
      Reserved@Before(t, name, active);
    }

    method Place(t: TypeId, body: Schema, ghost active: set<TypeId>)
      requires Valid(active + {t}) && active <= names.Keys && t in names && NameOk(t)
      requires BodyUses(types, rank, t) <= names.Keys && body == Body(types, rank, names, t)
      modifies this`schemas
      ensures Valid(active)
    {
      schemas := schemas[names[t] := body];
      Placed(t, active);
    }

    twostate lemma Reserved(t: TypeId, new name: string, new active: set<TypeId>)
      requires old(Valid(active)) && t < |types| && Component(types, t) && t !in old(names) && name !in old(owners)
      requires names == old(names)[t := name] && owners == old(owners)[name := t]
      requires schemas == old(schemas)[name := Pending]
      ensures Valid(active + {t}) && Left() < old(Left())
    {
      ReservedName(t, name);
      forall u | u in names && u !in active + {t} ensures Done(u) { StillDone(t, name, u); }
      assert Components(types) - names.Keys == (Components(types) - old(names).Keys) - {t};
      assert t in Components(types);
    }

    twostate lemma ReservedName(t: TypeId, new name: string)
      requires old(Named()) && t < |types| && Component(types, t) && t !in old(names) && name !in old(owners)
      requires names == old(names)[t := name] && owners == old(owners)[name := t]
      requires schemas == old(schemas)[name := Pending]
      ensures Named()
    {
      forall u | u in names ensures NameOk(u) { if u != t { assert old(NameOk(u)); } }
      forall n | n in owners ensures OwnerOk(n) { if n != name { assert old(OwnerOk(n)); } }
    }

    twostate lemma StillDone(t: TypeId, new name: string, new u: TypeId)
      requires old(Named()) && Named() && u in old(names) && old(Done(u)) && t !in old(names) && name !in old(owners)
      requires names == old(names)[t := name] && schemas == old(schemas)[name := Pending]
      ensures Done(u)
    {
      assert NameOk(u) && old(NameOk(u));
      BodyStable(types, rank, old(names), names, u);
    }

    twostate lemma Placed(t: TypeId, new active: set<TypeId>)
      requires old(Valid(active + {t})) && t in names && NameOk(t) && names == old(names) && owners == old(owners)
      requires active <= names.Keys && BodyUses(types, rank, t) <= names.Keys
      requires schemas == old(schemas)[names[t] := Body(types, rank, names, t)]
      ensures Valid(active)
    {
      forall u | u in names ensures NameOk(u) { assert old(NameOk(u)); }
      forall n | n in owners ensures OwnerOk(n) { assert old(OwnerOk(n)); }
      forall u | u in names && u !in active ensures Done(u) {
        if u != t { assert old(Done(u)); }
      }
    }

    method StructSchema(t: TypeId, ghost active: set<TypeId>) returns (s: Schema)
      requires Valid(active) && t < |types| && types[t].kind.Struct?
      modifies this
      ensures Valid(active) && Grown()
      ensures BodyUses(types, rank, t) <= names.Keys && s == Body(types, rank, names, t)
      decreases Left(), rank[Apart(t)] + 1, 1, 0
    {
      var d := AddFields(t, Draft([], []), active);
      return Object(d.props, d.required);
    }

    method AddFields(t: TypeId, d0: Draft, ghost active: set<TypeId>) returns (d: Draft)
      requires Valid(active) && t < |types| && types[t].kind.Struct?
      modifies this
      ensures Valid(active) && Grown()
      ensures BodyUses(types, rank, t) <= names.Keys
      ensures d == Fields(types, rank, names, t, |types[t].kind.fields|, d0)
      decreases Left(), rank[Apart(t)] + 1, 0, |types[t].kind.fields| + 1
    {
      d := d0;
      var n := |types[t].kind.fields|;
      for i := 0 to n
        invariant Valid(active) && Grown() && AddedUpTo(t, i, d0, d)
      {
        ghost var was := names;
        Fewer();
        d := AddField(t, i, d0, d, active);
        ExtendsFurther(old(names), was, names);
      }
    }

    /** d is d0 with the first n fields of t added, whose components are known. */
    ghost predicate AddedUpTo(t: TypeId, n: nat, d0: Draft, d: Draft)
      requires Grounded(types, rank) && t < |types| && types[t].kind.Struct? && n <= |types[t].kind.fields|
      reads this
    {
      FieldUses(types, rank, t, n) <= names.Keys && d == Fields(types, rank, names, t, n, d0)
    }

    /** One field: passed over, taken apart, or described. */
    method AddField(t: TypeId, i: nat, ghost d0: Draft, before: Draft, ghost active: set<TypeId>) returns (d: Draft)
      requires Valid(active) && t < |types| && types[t].kind.Struct? && i < |types[t].kind.fields|
      requires AddedUpTo(t, i, d0, before)
      modifies this
      ensures Valid(active) && Grown() && AddedUpTo(t, i + 1, d0, d)
      decreases Left(), rank[Apart(t)] + 1, 0, |types[t].kind.fields|
    {
      var f := types[t].kind.fields[i];
      FieldLower(types, rank, t, f);
      if f.skipped { return before; }
      if Embeds(types, f) {
        d := AddFields(f.of, before, active);
      } else if !f.exported {
        return before;
      } else {
        var s := SchemaFor(f.of, active);
        d := Added(before, PropName(f), s, f.required);
      }
      FieldsStable(types, rank, old(names), names, t, i, d0);
    }

    twostate lemma Fewer()
      requires Grown()
      ensures Left() <= old(Left())
    {
      SubsetSize(Components(types) - names.Keys, Components(types) - old(names.Keys));
    }

    // ------------------------------------------------------------- results

    /** A schema is complete: every reference in it is to a component that is
        there, and is the finished schema of the type that owns the name. */
    ghost predicate Resolves(s: Schema)
      requires Named()
      reads this
    {
      Finished(s) && forall n :: n in Refs(s) ==> n in schemas && OwnerOk(n) && Done(owners[n])
    }

    /** What the whole generator is for: the schema of a type, and every
        component there is by then, refer only to finished components; and
        components of different types have different names. */
    method Generate(t: TypeId) returns (s: Schema)
      requires Valid({}) && t < |types|
      modifies this
      ensures Valid({}) && Grown() && s == Shape(types, rank, names, t) && Resolves(s)
      ensures Uses(types, rank, t) <= names.Keys
      ensures forall n :: n in schemas ==> Resolves(schemas[n])
      ensures forall u, v :: u in names && v in names && u != v ==> names[u] != names[v]
    {
      s := SchemaFor(t, {});
      ShapeRefs(types, rank, names, t);
      forall n | n in Refs(s) ensures n in schemas && OwnerOk(n) && Done(owners[n]) {
        assert n in NamesOf(names, Uses(types, rank, t));
        var u :| u in names && names[u] == n;
        assert NameOk(u) && OwnerOk(n);
      }
      forall n | n in schemas ensures Resolves(schemas[n]) { ComponentResolves(n); }
      forall u, v | u in names && v in names && u != v ensures names[u] != names[v] { assert NameOk(u) && NameOk(v); }
    }

    lemma ComponentResolves(n: string)
      requires Valid({}) && n in schemas
      ensures Resolves(schemas[n])
    {
      assert OwnerOk(n);
      var t := owners[n];
      assert NameOk(t) && Done(t);
      BodyRefs(t);
      forall m | m in Refs(schemas[n]) ensures m in schemas && OwnerOk(m) && Done(owners[m]) {
        assert m in NamesOf(names, BodyUses(types, rank, t));
        var u :| u in names && names[u] == m;
        assert NameOk(u) && OwnerOk(m);
      }
    }

    lemma BodyRefs(t: TypeId)
      requires Named() && t in names && NameOk(t) && BodyUses(types, rank, t) <= names.Keys
      ensures Refs(Body(types, rank, names, t)) <= NamesOf(names, BodyUses(types, rank, t))
      ensures Finished(Body(types, rank, names, t))
    {
      FieldsRefs(types, rank, names, t, |types[t].kind.fields|, Draft([], []));
    }
  }
}
