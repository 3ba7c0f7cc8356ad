/** What generated schemas mean: the JSON they accept, through references to
    components, is the JSON that fits the types they were made from. */
module Conforming {
  import opened Common
  import opened Schema

  /** A JSON value: one of a basic or special type, a list, or an object. */
  datatype Json = Atom(of: TypeId) | Items(items: seq<Json>) | Members(members: seq<(string, Json)>)

  ghost predicate Has(j: Json, n: string)
    requires j.Members?
  {
    exists i :: 0 <= i < |j.members| && j.members[i].0 == n
  }

  ghost predicate HasAll(j: Json, names: seq<string>)
    requires j.Members?
  {
    forall n :: n in names ==> Has(j, n)
  }

  // ------------------------------------------------------ what a schema says

  /** A reference is as good as the component it is to. An object may have other
      members than its schema names. */
  ghost predicate Accepts(schemas: map<string, Schema>, s: Schema, j: Json)
    decreases j, if s.Ref? then 1 else 0
  {
    match s
    case Pending => true
    case Leaf(t) => j == Atom(t)
    case Array(items) => j.Items? && forall i :: 0 <= i < |j.items| ==> Accepts(schemas, items, j.items[i])
    case Map(values) => j.Members? && forall i :: 0 <= i < |j.members| ==> Accepts(schemas, values, j.members[i].1)
    case Object(props, required) =>
      && j.Members? && HasAll(j, required)
      && forall i :: 0 <= i < |j.members| ==> PropsAccept(schemas, props, j.members[i].0, j.members[i].1)
    case Ref(n) => n in schemas && !schemas[n].Ref? && Accepts(schemas, schemas[n], j)
  }

  /** The properties called x do. */
  ghost predicate PropsAccept(schemas: map<string, Schema>, props: seq<Property>, x: string, v: Json)
    decreases v, 2
  {
    forall k :: 0 <= k < |props| && props[k].name == x ==> Accepts(schemas, props[k].schema, v)
  }

  // -------------------------------------------------------- what a type says

  /** Field indices that lead into embedded structs, and there to a field. */
  type Chain = seq<nat>

  function Called(f: Field): string { if f.tag != "" then f.tag else f.name }

  /** c leads to the exported field f of t, or of a struct embedded in it. */
  ghost predicate Member(types: Types, t: TypeId, c: Chain, f: Field)
    requires t < |types|
    decreases |c|
  {
    && c != [] && types[t].kind.Struct? && c[0] < |types[t].kind.fields|
    && var g := types[t].kind.fields[c[0]];
      && !g.skipped && g.of < |types|
      && if g.anonymous && g.tag == "" && types[g.of].kind.Struct? then Member(types, g.of, c[1..], f)
         else g.exported && f == g && |c| == 1
  }

  /** a leads to an earlier field than b. */
  ghost predicate Before(a: Chain, b: Chain)
    decreases |a|
  {
    a != [] && b != [] && (a[0] < b[0] || (a[0] == b[0] && Before(a[1..], b[1..])))
  }

  /** Nothing of the same name comes after it. */
  ghost predicate LastCalled(types: Types, t: TypeId, c: Chain, f: Field)
    requires t < |types|
  {
    && Member(types, t, c, f)
    && forall c', f' :: Member(types, t, c', f') && Called(f') == Called(f) ==> !Before(c, c')
  }

  ghost predicate Fits(types: Types, t: TypeId, j: Json)
    requires Closed(types) && t < |types|
    decreases j, 1
  {
    if types[t].special then j == Atom(t)
    else match types[t].kind
      case Basic => j == Atom(t)
      case List(e) =>
        Refer(types, t, e);
        j.Items? && forall i :: 0 <= i < |j.items| ==> Fits(types, e, j.items[i])
      case Dict(e) =>
        Refer(types, t, e);
        j.Members? && forall i :: 0 <= i < |j.members| ==> Fits(types, e, j.members[i].1)
      case Struct(_, _, _) => FitsStruct(types, t, j)
  }

  /** Required members are there, and every member fits the field called so. */
  ghost predicate FitsStruct(types: Types, t: TypeId, j: Json)
    requires Closed(types) && t < |types|
    decreases j, 0
  {
    && j.Members? && HasRequired(types, t, j)
    && forall i :: 0 <= i < |j.members| ==> FieldsFit(types, t, j.members[i].0, j.members[i].1)
  }

  ghost predicate HasRequired(types: Types, t: TypeId, j: Json)
    requires t < |types| && j.Members?
  {
    forall c, f :: Member(types, t, c, f) && f.required ==> Has(j, Called(f))
  }

  /** It does fit the last field called x, if there is one. */
  ghost predicate FieldsFit(types: Types, t: TypeId, x: string, v: Json)
    requires Closed(types) && t < |types|
    decreases v, 2
  {
    forall c, f :: LastCalled(types, t, c, f) && Called(f) == x ==> f.of < |types| && Fits(types, f.of, v)
  }

  lemma Refer(types: Types, t: TypeId, e: TypeId)
    requires Closed(types) && t < |types| && (types[t].kind == List(e) || types[t].kind == Dict(e))
    ensures e < |types|
  {
    assert e in Refers(types[t].kind);
  }

  // ------------------------------------------------------------ field lists

  /** Two fields come one before the other. */
  lemma {:induction false} ChainsOrdered(types: Types, t: TypeId, c: Chain, f: Field, c': Chain, f': Field)
    requires t < |types| && Member(types, t, c, f) && Member(types, t, c', f')
    ensures (c == c' && f == f') || Before(c, c') || Before(c', c)
    decreases |c|
  {
    if c[0] == c'[0] {
      var g := types[t].kind.fields[c[0]];
      if g.anonymous && g.tag == "" && types[g.of].kind.Struct? {
        ChainsOrdered(types, g.of, c[1..], f, c'[1..], f');
        assert c == [c[0]] + c[1..] && c' == [c'[0]] + c'[1..];
      }
    }
  }

  /** Among the first n fields, and what is embedded in them. */
  ghost predicate Among(types: Types, t: TypeId, n: nat, c: Chain, f: Field)
    requires t < |types|
  {
    Member(types, t, c, f) && c[0] < n
  }

  ghost predicate LastAmong(types: Types, t: TypeId, n: nat, c: Chain, f: Field)
    requires t < |types|
  {
    && Among(types, t, n, c, f)
    && forall c', f' :: Among(types, t, n, c', f') && Called(f') == Called(f) ==> !Before(c, c')
  }

  ghost predicate NoneCalled(types: Types, t: TypeId, n: nat, x: string)
    requires t < |types|
  {
    forall c, f :: Among(types, t, n, c, f) ==> Called(f) != x
  }

  ghost predicate Unique(props: seq<Property>) {
    forall i, k :: 0 <= i < k < |props| ==> props[i].name != props[k].name
  }

  /** What is said of the property of this name, if there is one. */
  function PropOf(props: seq<Property>, x: string): Option<Schema> {
    if props == [] then None else if props[0].name == x then Some(props[0].schema) else PropOf(props[1..], x)
  }

  lemma {:induction false} PropOfIs(props: seq<Property>, x: string)
    requires Unique(props)
    ensures forall k :: 0 <= k < |props| && props[k].name == x ==> PropOf(props, x) == Some(props[k].schema)
    ensures PropOf(props, x).Some? ==> exists k :: 0 <= k < |props| && props[k] == Property(x, PropOf(props, x).value)
  {
    if props != [] {
      PropOfIs(props[1..], x);
      if PropOf(props, x).Some? && props[0].name != x {
        var k :| 0 <= k < |props[1..]| && props[1..][k] == Property(x, PropOf(props, x).value);
        assert props[k+1] == Property(x, PropOf(props, x).value);
      }
    }
  }

  lemma {:induction false} PutIs(props: seq<Property>, p: Property, x: string)
    ensures PropOf(Put(props, p), x) == if x == p.name then Some(p.schema) else PropOf(props, x)
    ensures Unique(props) ==> Unique(Put(props, p))
    ensures forall q :: q in Put(props, p) ==> q == p || q in props
  {
    if props != [] {
      PutIs(props[1..], p, x);
      var rest := Put(props[1..], p);
      if props[0].name != p.name {
        assert Put(props, p)[1..] == rest;
        if Unique(props) {
          forall k | 0 <= k < |rest| ensures rest[k].name != props[0].name { assert rest[k] in rest; }
        }
      }
    }
  }

  /** w is the last field called x, among those. */
  ghost predicate Best(types: Types, t: TypeId, n: nat, x: string, w: Option<(Chain, Field)>)
    requires t < |types|
  {
    if w.None? then NoneCalled(types, t, n, x)
    else LastAmong(types, t, n, w.value.0, w.value.1) && Called(w.value.1) == x
  }

  lemma PassedOver(types: Types, t: TypeId, n: nat, x: string, w: Option<(Chain, Field)>)
    requires t < |types| && types[t].kind.Struct? && 0 < n <= |types[t].kind.fields| && Best(types, t, n - 1, x, w)
    requires var g := types[t].kind.fields[n-1]; g.of < |types| && (g.skipped || (!Embeds(types, g) && !g.exported))
    ensures Best(types, t, n, x, w)
  {
    forall c, f ensures Among(types, t, n, c, f) <==> Among(types, t, n - 1, c, f) {}
  }

  lemma TakenApart(types: Types, t: TypeId, n: nat, x: string, w: Option<(Chain, Field)>, v: Option<(Chain, Field)>)
    returns (u: Option<(Chain, Field)>)
    requires t < |types| && types[t].kind.Struct? && 0 < n <= |types[t].kind.fields| && Best(types, t, n - 1, x, w)
    requires var g := types[t].kind.fields[n-1]; g.of < |types| && !g.skipped && Embeds(types, g)
    requires var g := types[t].kind.fields[n-1]; Best(types, g.of, |types[g.of].kind.fields|, x, v)
    ensures Best(types, t, n, x, u)
    ensures if v.Some? then u.Some? && u.value.1 == v.value.1 else u == w
  {
    var g := types[t].kind.fields[n-1];
    var m := |types[g.of].kind.fields|;
    forall c, f | Among(types, t, n, c, f) ensures if c[0] < n - 1 then Among(types, t, n - 1, c, f) else
      Among(types, g.of, m, c[1..], f) {}
    if v.Some? {
      var c := [n - 1] + v.value.0;
      assert c[1..] == v.value.0 && Among(types, t, n, c, v.value.1);
      u := Some((c, v.value.1));
    } else {
      u := w;
    }
  }

  lemma Counted(types: Types, t: TypeId, n: nat, x: string, w: Option<(Chain, Field)>)
    returns (u: Option<(Chain, Field)>)
    requires t < |types| && types[t].kind.Struct? && 0 < n <= |types[t].kind.fields| && Best(types, t, n - 1, x, w)
    requires var g := types[t].kind.fields[n-1]; g.of < |types| && !g.skipped && !Embeds(types, g) && g.exported
    ensures Best(types, t, n, x, u)
    ensures var g := types[t].kind.fields[n-1]; if Called(g) == x then u.Some? && u.value.1 == g else u == w
  {
    var g := types[t].kind.fields[n-1];
    forall c, f | Among(types, t, n, c, f) ensures Among(types, t, n - 1, c, f) || (c == [n - 1] && f == g) {}
    if Called(g) == x {
      assert Among(types, t, n, [n - 1], g);
      u := Some(([n - 1], g));
    } else {
      u := w;
    }
  }

  /** The property of a name is that of the last field called so. */
  lemma {:induction false} FieldsProps(types: Types, rank: map<Work, nat>, names: map<TypeId, string>, t: TypeId,
    n: nat, d: Draft, x: string) returns (w: Option<(Chain, Field)>)
    requires Grounded(types, rank) && t < |types| && types[t].kind.Struct? && n <= |types[t].kind.fields|
    ensures Unique(d.props) ==> Unique(Fields(types, rank, names, t, n, d).props)
    ensures Best(types, t, n, x, w) && (w.Some? ==> w.value.1.of < |types|)
    ensures PropOf(Fields(types, rank, names, t, n, d).props, x) ==
      if w.Some? then Some(Shape(types, rank, names, w.value.1.of)) else PropOf(d.props, x)
    decreases rank[Apart(t)] + 1, n
  {
    if n == 0 {
      w := None;
    } else {
      var g := types[t].kind.fields[n-1];
      FieldLower(types, rank, t, g);
      w := FieldsProps(types, rank, names, t, n - 1, d, x);
      var before := Fields(types, rank, names, t, n - 1, d);
      if g.skipped {
        PassedOver(types, t, n, x, w);
      } else if Embeds(types, g) {
        var v := FieldsProps(types, rank, names, g.of, |types[g.of].kind.fields|, before, x);
        w := TakenApart(types, t, n, x, w, v);
      } else if !g.exported {
        PassedOver(types, t, n, x, w);
      } else {
        PutIs(before.props, Property(PropName(g), Shape(types, rank, names, g.of)), x);
        w := Counted(types, t, n, x, w);
      }
    }
  }

  /** A name is required if some field called so is. */
  ghost predicate Requires(types: Types, t: TypeId, n: nat, x: string)
    requires t < |types|
  {
    exists c, f :: Among(types, t, n, c, f) && f.required && Called(f) == x
  }

  lemma {:induction false} FieldsRequired(types: Types, rank: map<Work, nat>, names: map<TypeId, string>, t: TypeId,
    n: nat, d: Draft, x: string)
    requires Grounded(types, rank) && t < |types| && types[t].kind.Struct? && n <= |types[t].kind.fields|
    ensures x in Fields(types, rank, names, t, n, d).required <==> x in d.required || Requires(types, t, n, x)
    decreases rank[Apart(t)] + 1, n
  {
    if n > 0 {
      var g := types[t].kind.fields[n-1];
      FieldLower(types, rank, t, g);
      FieldsRequired(types, rank, names, t, n - 1, d, x);
      RequiresNext(types, t, n, x);
      if !g.skipped && Embeds(types, g) {
        FieldsRequired(types, rank, names, g.of, |types[g.of].kind.fields|, Fields(types, rank, names, t, n - 1, d), x);
      }
    }
  }

  lemma RequiresNext(types: Types, t: TypeId, n: nat, x: string)
    requires t < |types| && types[t].kind.Struct? && 0 < n <= |types[t].kind.fields|
    requires types[t].kind.fields[n-1].of < |types|
    ensures var g := types[t].kind.fields[n-1];
      var here := if Embeds(types, g) then Requires(types, g.of, |types[g.of].kind.fields|, x)
        else g.exported && g.required && Called(g) == x;
      Requires(types, t, n, x) <==> Requires(types, t, n - 1, x) || (!g.skipped && here)
  {
    var g := types[t].kind.fields[n-1];
    if Requires(types, t, n, x) {
      var c, f :| Among(types, t, n, c, f) && f.required && Called(f) == x;
      if c[0] < n - 1 {
        assert Among(types, t, n - 1, c, f);
      } else if Embeds(types, g) {
        assert Member(types, g.of, c[1..], f);
        assert Among(types, g.of, |types[g.of].kind.fields|, c[1..], f);
      }
    }
    if Requires(types, t, n - 1, x) {
      var c, f :| Among(types, t, n - 1, c, f) && f.required && Called(f) == x;
      assert Among(types, t, n, c, f);
    }
    if !g.skipped && Embeds(types, g) {
      if Requires(types, g.of, |types[g.of].kind.fields|, x) {
        var c, f :| Among(types, g.of, |types[g.of].kind.fields|, c, f) && f.required && Called(f) == x;
        assert ([n - 1] + c)[1..] == c;
        assert Among(types, t, n, [n - 1] + c, f);
      }
    } else if !g.skipped && g.exported && g.required && Called(g) == x {
      assert Among(types, t, n, [n - 1], g);
    }
  }

  /** What a field refers to, its struct does. */
  lemma {:induction false} MemberUses(types: Types, rank: map<Work, nat>, t: TypeId, n: nat, c: Chain, f: Field)
    requires Grounded(types, rank) && t < |types| && types[t].kind.Struct? && n <= |types[t].kind.fields|
    requires Among(types, t, n, c, f)
    ensures f.of < |types| && Uses(types, rank, f.of) <= FieldUses(types, rank, t, n)
    decreases rank[Apart(t)] + 1, n
  {
    var g := types[t].kind.fields[n-1];
    FieldLower(types, rank, t, g);
    if c[0] < n - 1 {
      MemberUses(types, rank, t, n - 1, c, f);
    } else if Embeds(types, g) {
      MemberUses(types, rank, g.of, |types[g.of].kind.fields|, c[1..], f);
    }
  }

  // ------------------------------------------------------------ the meaning

  /** Every component is there, and so is all it refers to. */
  ghost predicate Documented(types: Types, rank: map<Work, nat>, names: map<TypeId, string>,
    schemas: map<string, Schema>)
    requires Grounded(types, rank)
  {
    forall t :: t in names ==>
      && t < |types| && Component(types, t) && BodyUses(types, rank, t) <= names.Keys
      && names[t] in schemas && schemas[names[t]] == Body(types, rank, names, t)
  }

  /** The schema of a type accepts the JSON that fits it, and no other. */
  lemma {:induction false} ShapeFits(types: Types, rank: map<Work, nat>, names: map<TypeId, string>,
    schemas: map<string, Schema>, t: TypeId, j: Json)
    requires Grounded(types, rank) && Documented(types, rank, names, schemas)
    requires t < |types| && Uses(types, rank, t) <= names.Keys
    ensures Accepts(schemas, Shape(types, rank, names, t), j) <==> Fits(types, t, j)
    decreases j, 2
  {
    if !types[t].special {
      match types[t].kind
      case Basic =>
      case List(e) => ItemsFit(types, rank, names, schemas, t, j);
      case Dict(e) => ValuesFit(types, rank, names, schemas, t, j);
      case Struct(name, _, _) => BodyFits(types, rank, names, schemas, t, j);
    }
  }

  lemma {:induction false} ItemsFit(types: Types, rank: map<Work, nat>, names: map<TypeId, string>,
    schemas: map<string, Schema>, t: TypeId, j: Json)
    requires Grounded(types, rank) && Documented(types, rank, names, schemas)
    requires t < |types| && Uses(types, rank, t) <= names.Keys && !types[t].special && types[t].kind.List?
    ensures Accepts(schemas, Shape(types, rank, names, t), j) <==> Fits(types, t, j)
    decreases j, 1
  {
    var e := types[t].kind.elem;
    ItemLower(types, rank, t);
    if j.Items? {
      forall i | 0 <= i < |j.items|
        ensures Accepts(schemas, Shape(types, rank, names, e), j.items[i]) <==> Fits(types, e, j.items[i])
      {
        ShapeFits(types, rank, names, schemas, e, j.items[i]);
      }
    }
  }

  lemma {:induction false} ValuesFit(types: Types, rank: map<Work, nat>, names: map<TypeId, string>,
    schemas: map<string, Schema>, t: TypeId, j: Json)
    requires Grounded(types, rank) && Documented(types, rank, names, schemas)
    requires t < |types| && Uses(types, rank, t) <= names.Keys && !types[t].special && types[t].kind.Dict?
    ensures Accepts(schemas, Shape(types, rank, names, t), j) <==> Fits(types, t, j)
    decreases j, 1
  {
    var e := types[t].kind.elem;
    ItemLower(types, rank, t);
    if j.Members? {
      forall i | 0 <= i < |j.members|
        ensures Accepts(schemas, Shape(types, rank, names, e), j.members[i].1) <==> Fits(types, e, j.members[i].1)
      {
        ShapeFits(types, rank, names, schemas, e, j.members[i].1);
      }
    }
  }

  lemma {:induction false} BodyFits(types: Types, rank: map<Work, nat>, names: map<TypeId, string>,
    schemas: map<string, Schema>, t: TypeId, j: Json)
    requires Grounded(types, rank) && Documented(types, rank, names, schemas)
    requires t < |types| && types[t].kind.Struct? && BodyUses(types, rank, t) <= names.Keys
    ensures Accepts(schemas, Body(types, rank, names, t), j) <==> FitsStruct(types, t, j)
    decreases j, 1
  {
    var d := Fields(types, rank, names, t, |types[t].kind.fields|, Draft([], []));
    assert Body(types, rank, names, t) == Object(d.props, d.required);
    if j.Members? {
      RequiredFits(types, rank, names, t, j);
      forall i | 0 <= i < |j.members|
        ensures PropsAccept(schemas, d.props, j.members[i].0, j.members[i].1)
          <==> FieldsFit(types, t, j.members[i].0, j.members[i].1)
      {
        MemberFits(types, rank, names, schemas, t, j.members[i].0, j.members[i].1);
      }
    }
  }

  lemma RequiredFits(types: Types, rank: map<Work, nat>, names: map<TypeId, string>, t: TypeId, j: Json)
    requires Grounded(types, rank) && t < |types| && types[t].kind.Struct? && j.Members?
    ensures var d := Fields(types, rank, names, t, |types[t].kind.fields|, Draft([], []));
      HasAll(j, d.required) <==> HasRequired(types, t, j)
  {
    var n := |types[t].kind.fields|;
    var d := Fields(types, rank, names, t, n, Draft([], []));
    forall x ensures x in d.required <==> Requires(types, t, n, x) {
      FieldsRequired(types, rank, names, t, n, Draft([], []), x);
    }
    if HasAll(j, d.required) {
      forall c, f | Member(types, t, c, f) && f.required ensures Has(j, Called(f)) {
        assert Among(types, t, n, c, f);
        assert Requires(types, t, n, Called(f));
      }
    }
    if HasRequired(types, t, j) {
      forall x | x in d.required ensures Has(j, x) {
        assert Requires(types, t, n, x);
        var c, f :| Among(types, t, n, c, f) && f.required && Called(f) == x;
        assert Member(types, t, c, f);
      }
    }
  }

  lemma {:induction false} MemberFits(types: Types, rank: map<Work, nat>, names: map<TypeId, string>,
    schemas: map<string, Schema>, t: TypeId, x: string, v: Json)
    requires Grounded(types, rank) && Documented(types, rank, names, schemas)
    requires t < |types| && types[t].kind.Struct? && BodyUses(types, rank, t) <= names.Keys
    ensures var d := Fields(types, rank, names, t, |types[t].kind.fields|, Draft([], []));
      PropsAccept(schemas, d.props, x, v) <==> FieldsFit(types, t, x, v)
    decreases v, 3
  {
    var n := |types[t].kind.fields|;
    var d := Fields(types, rank, names, t, n, Draft([], []));
    var w := FieldsProps(types, rank, names, t, n, Draft([], []), x);
    PropOfIs(d.props, x);
    if w.Some? {
      var (c, f) := w.value;
      MemberUses(types, rank, t, n, c, f);
      ShapeFits(types, rank, names, schemas, f.of, v);
      OnlyLast(types, t, n, c, f);
    } else {
      forall c, f | LastCalled(types, t, c, f) ensures Called(f) != x { assert Among(types, t, n, c, f); }
    }
  }

  /** The last field of its name is the only one that is. */
  lemma OnlyLast(types: Types, t: TypeId, n: nat, c: Chain, f: Field)
    requires t < |types| && types[t].kind.Struct? && n == |types[t].kind.fields| && LastAmong(types, t, n, c, f)
    ensures LastCalled(types, t, c, f)
    ensures forall c', f' :: LastCalled(types, t, c', f') && Called(f') == Called(f) ==> f' == f
  {
    forall c', f' | Member(types, t, c', f') ensures Among(types, t, n, c', f') {}
    forall c', f' | LastCalled(types, t, c', f') && Called(f') == Called(f) ensures f' == f {
      ChainsOrdered(types, t, c, f, c', f');
    }
  }

  /** The document for a type: its schema accepts just the JSON that fits the
      type, and a reference to any component just what fits its owner. */
  method Document(g: Generator, t: TypeId) returns (s: Schema)
    requires g.Valid({}) && t < |g.types|
    modifies g
    ensures g.Valid({})
    ensures forall j :: Accepts(g.schemas, s, j) <==> Fits(g.types, t, j)
    ensures forall n :: n in g.schemas ==> MeansOwner(g, n)
  {
    s := g.Generate(t);
    AllDocumented(g);
    forall j ensures Accepts(g.schemas, s, j) <==> Fits(g.types, t, j) {
      ShapeFits(g.types, g.rank, g.names, g.schemas, t, j);
    }
    forall n | n in g.schemas ensures MeansOwner(g, n) { ComponentMeans(g, n); }
  }

  ghost predicate MeansOwner(g: Generator, n: string)
    requires Closed(g.types)
    reads g
  {
    && n in g.owners && g.owners[n] < |g.types|
    && forall j :: Accepts(g.schemas, Ref(n), j) <==> Fits(g.types, g.owners[n], j)
  }

  lemma ComponentMeans(g: Generator, n: string)
    requires g.Valid({}) && n in g.schemas
    ensures MeansOwner(g, n)
  {
    AllDocumented(g);
    assert g.OwnerOk(n) && g.NameOk(g.owners[n]);
    assert Shape(g.types, g.rank, g.names, g.owners[n]) == Ref(n);
    forall j ensures Accepts(g.schemas, Ref(n), j) <==> Fits(g.types, g.owners[n], j) {
      ShapeFits(g.types, g.rank, g.names, g.schemas, g.owners[n], j);
    }
  }

  lemma AllDocumented(g: Generator)
    requires g.Valid({})
    ensures Documented(g.types, g.rank, g.names, g.schemas)
  {
    forall t | t in g.names ensures g.Done(t) {}
  }

  const INNER: Field := Field("ID", "", false, false, true, false, 3)

  /** A struct with an ID of type 1, and an embedded one with an ID of type 3. */
  const SHADOWED: Types := [
    Type(Struct("Outer", "p", [Field("ID", "", false, false, true, false, 1),
      Field("Base", "", false, true, true, false, 2)]), false),
    Type(Basic, false), Type(Struct("Base", "p", [INNER]), false), Type(Basic, false)]

  /** Go's encoding/json would have the outer field of two called the same, but
      the schema has the one that comes last, though it is embedded. */
  lemma OuterFieldShadowed(v: Json)
    ensures Closed(SHADOWED) && (Fits(SHADOWED, 0, Members([("ID", v)])) <==> v == Atom(3))
  {
    assert Closed(SHADOWED);
    assert Member(SHADOWED, 2, [0], INNER) && [1, 0][1..] == [0];
    forall c, f | Member(SHADOWED, 0, c, f) ensures c == [0] || (c == [1, 0] && f == INNER) {
      if c[0] == 1 {
        assert c == [1] + c[1..] && Member(SHADOWED, 2, c[1..], f);
      }
    }
    assert Member(SHADOWED, 0, [1, 0], INNER);
    forall f | Member(SHADOWED, 0, [0], f) ensures !LastCalled(SHADOWED, 0, [0], f) {
      assert Before([0], [1, 0]) && Called(f) == "ID" == Called(INNER);
    }
    assert LastCalled(SHADOWED, 0, [1, 0], INNER);
    var j := Members([("ID", v)]);
    assert FieldsFit(SHADOWED, 0, "ID", v) <==> v == Atom(3);
    assert Fits(SHADOWED, 0, j) <==> FitsStruct(SHADOWED, 0, j);
    assert j.members[0].0 == "ID" && j.members[0].1 == v;
  }
}
