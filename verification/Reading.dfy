/** The whole report on a value, said by position: which values of which structs
    are judged, and what their types' own Validate methods add, in order. */
module Reading {
  import opened Common
  import opened Text
  import opened Positions
  import opened Validate
  import opened Judging

  function Named(path: string, name: string): string {
    if path == "" then name else if name == "" then path else path + "." + name
  }

  /** Something is said at position c of a struct: [i, 0] and more, about the
      value of field i as its tag asks; [i, 1] and more, about a struct inside
      it, if it is sound; and behind all fields, what the type's own Validate
      complains of, if it can be called on a value at this place. */
  ghost predicate Says(p: Program, v: Value, a: Place, path: string, c: Position, e: FieldError)
    requires v.Record? && v.id in p.types && |v.fields| == |p.types[v.id].fields|
    decreases v, 1
  {
    |c| >= 2 &&
    if c[0] < |v.fields| then
      var f, x := p.types[v.id].fields[c[0]], v.fields[c[0]];
      f.visible && !f.tag.Ignored? && FieldValid(p, f) && SaysOfField(p, f, x, a, Named(path, f.name), c[1], c[2..], e)
    else
      && c[0] == |v.fields| && |c| == 2 && Runs(p.types[v.id].receiver, a) && c[1] < |p.custom(v)|
      && e == p.custom(v)[c[1]].(field := Named(path, p.custom(v)[c[1]].field))
  }

  ghost predicate SaysOfField(p: Program, f: Field, x: Value, a: Place, here: string, part: nat, c: Position,
    e: FieldError)
    requires f.tag.Rules? && RulesValid(p, f.tag.rules, f.typ)
    decreases x, 3
  {
    var extra := if f.pattern.Some? && f.pattern.value.Some? then [f.pattern.value.value] else [];
    if part == 0 then Reports(p, f.tag.rules, f.typ, extra, x, here, c, e)
    else
      && part == 1 && Sound(p, Own(f.tag.rules), Unpointer(f.typ), extra, x)
      && SaysInside(p, f.typ, x, a, here, c, e)
  }

  /** Something is said of a struct inside a value of static type t: through
      pointers, whose targets can be addressed, and items. */
  ghost predicate SaysInside(p: Program, t: Type, v: Value, a: Place, path: string, c: Position, e: FieldError)
    decreases v, 2
  {
    match t
    case Pointer(s) => v.Ref? && SaysInside(p, s, v.target, Onto(a, Addressable), path, c, e)
    case Struct(id) =>
      && v.Record? && v.id == id && id in p.types && |v.fields| == |p.types[id].fields|
      && Says(p, v, a, path, c, e)
    case Slice(s) => v.List? && SaysOfItem(p, s, v, a, path, c, e)
    case Array(s) => v.List? && SaysOfItem(p, s, v, a, path, c, e)
    case MapOf(s) => v.Dict? && SaysOfItem(p, s, v, a, path, c, e)
    case _ => false
  }

  /** Items of a slice can be addressed, of an array if the array can, of a map
      they cannot. */
  ghost predicate SaysOfItem(p: Program, t: Type, v: Value, a: Place, path: string, c: Position, e: FieldError)
    requires HasItems(v)
    decreases v, 1
  {
    && c != [] && c[0] < Count(v)
    && var mark := if v.List? then Decimal(c[0]) else v.entries[c[0]].key;
      var b := if v.Dict? then Onto(a, Loose) else if v.fixed then a else Onto(a, Addressable);
      SaysInside(p, t, Item(v, c[0]), b, path + "[" + mark + "]", c[1..], e)
  }

  // ------------------------------------------------------------- the proof

  ghost function OfStruct(p: Program, v: Value, a: Place, path: string, i: nat): Saying
    requires v.Record? && v.id in p.types && |v.fields| == |p.types[v.id].fields|
  {
    (c: Position, e: FieldError) => c != [] && c[0] >= i && Says(p, v, a, path, c, e)
  }

  ghost function OfField(p: Program, f: Field, x: Value, a: Place, here: string): Saying
    requires f.tag.Rules? && RulesValid(p, f.tag.rules, f.typ)
  {
    (c: Position, e: FieldError) => c != [] && SaysOfField(p, f, x, a, here, c[0], c[1..], e)
  }

  ghost function Inside(p: Program, t: Type, v: Value, a: Place, path: string): Saying {
    (c: Position, e: FieldError) => SaysInside(p, t, v, a, path, c, e)
  }

  ghost function OfItems(p: Program, t: Type, v: Value, i: nat, a: Place, path: string): Saying
    requires HasItems(v)
  {
    (c: Position, e: FieldError) =>
      c != [] && i <= c[0] < Count(v) && SaysInside(p, t, Item(v, c[0]), a, ItemPath(v, c[0], path), c[1..], e)
  }

  ghost function WithinField(p: Program, f: Field, x: Value, a: Place, here: string): Saying
    requires f.tag.Rules?
  {
    if Sound(p, Own(f.tag.rules), Unpointer(f.typ), Extra(f), x) then Inside(p, f.typ, x, a, here) else Nothing()
  }

  /** What is said of a field's value and of what is inside it, put together. */
  lemma FieldParts(p: Program, f: Field, x: Value, a: Place, here: string, es: seq<FieldError>, cs: seq<Position>,
    said: Saying, es': seq<FieldError>, cs': seq<Position>)
    requires f.tag.Rules? && RulesValid(p, f.tag.rules, f.typ)
    requires Full(Reporting(p, f.tag.rules, f.typ, Extra(f), x, here), es, cs) && Full(said, es', cs')
    requires said == WithinField(p, f, x, a, here)
    ensures Full(OfField(p, f, x, a, here), es + es', Prefixed(0, cs) + Prefixed(1, cs'))
  {
    var tag, inside := Reporting(p, f.tag.rules, f.typ, Extra(f), x, here), Under(1, said);
    FullUnder(1, said, es', cs');
    FullNext(0, tag, inside, es, cs, es', Prefixed(1, cs'));
    forall c, e ensures Either(Under(0, tag), inside)(c, e) <==> OfField(p, f, x, a, here)(c, e) {
      FieldPart(p, f, x, a, here, said, c, e);
    }
    FullSame(Either(Under(0, tag), inside), OfField(p, f, x, a, here), es + es', Prefixed(0, cs) + Prefixed(1, cs'));
  }

  lemma FieldPart(p: Program, f: Field, x: Value, a: Place, here: string, said: Saying, c: Position, e: FieldError)
    requires f.tag.Rules? && RulesValid(p, f.tag.rules, f.typ)
    requires said == WithinField(p, f, x, a, here)
    ensures Either(Under(0, Reporting(p, f.tag.rules, f.typ, Extra(f), x, here)), Under(1, said))(c, e)
      <==> OfField(p, f, x, a, here)(c, e)
  {
  }

  /** What is said of a field: of its value as the tag asks, then of the structs
      inside it. */
  lemma FieldSays(p: Program, f: Field, x: Value, a: Place, path: string) returns (cs: seq<Position>)
    requires Judged(f) && FieldValid(p, f)
    ensures Full(OfField(p, f, x, a, Named(path, f.name)), ReadField(p, f, x, a, path), cs)
    decreases x, 3, 0
  {
    var here := Named(path, f.name);
    var verdict, tagged := TagSays(p, f, x, path);
    var inside: seq<Position>, said, errors := [], Nothing(), [];
    if verdict.passed {
      inside := LookSays(p, f.typ, x, a, here);
      said, errors := Inside(p, f.typ, x, a, here), Look(p, f.typ, x, a, here);
    } else {
      FullNothing(Nothing());
    }
    FieldParts(p, f, x, a, here, verdict.errors, tagged, said, errors, inside);
    cs := Prefixed(0, tagged) + Prefixed(1, inside);
    assert ReadField(p, f, x, a, path) == verdict.errors + errors;
  }

  /** What is said of a field's value as its tag asks. */
  lemma TagSays(p: Program, f: Field, x: Value, path: string) returns (verdict: Verdict, cs: seq<Position>)
    requires Judged(f) && FieldValid(p, f)
    ensures verdict == Judge(p, f.tag.rules, f.typ, Extra(f), x, path, f.name)
    ensures verdict.passed <==> Sound(p, Own(f.tag.rules), Unpointer(f.typ), Extra(f), x)
    ensures Full(Reporting(p, f.tag.rules, f.typ, Extra(f), x, Named(path, f.name)), verdict.errors, cs)
  {
    verdict := Judge(p, f.tag.rules, f.typ, Extra(f), x, path, f.name);
    cs := JudgeIs(p, f.tag.rules, f.typ, Extra(f), x, path, f.name);
  }

  /** What is said of the structs inside a value. */
  lemma LookSays(p: Program, t: Type, v: Value, a: Place, path: string) returns (cs: seq<Position>)
    ensures Full(Inside(p, t, v, a, path), Look(p, t, v, a, path), cs)
    decreases v, 2, 1
  {
    cs := [];
    match t
    case Pointer(s) =>
      if v.Ref? {
        cs := LookSays(p, s, v.target, Onto(a, Addressable), path);
        var within := Inside(p, s, v.target, Onto(a, Addressable), path);
        FullSame(within, Inside(p, t, v, a, path), Look(p, t, v, a, path), cs);
      } else {
        FullNothing(Inside(p, t, v, a, path));
      }
    case Struct(id) =>
      if v.Record? && v.id == id && id in p.types && |v.fields| == |p.types[id].fields| {
        cs := StructSays(p, v, a, path);
        forall c, e ensures OfStruct(p, v, a, path, 0)(c, e) <==> Inside(p, t, v, a, path)(c, e) {
          InsideStruct(p, t, v, a, path, c, e);
        }
        FullSame(OfStruct(p, v, a, path, 0), Inside(p, t, v, a, path), Look(p, t, v, a, path), cs);
      } else {
        FullNothing(Inside(p, t, v, a, path));
      }
    case Slice(s) => cs := CollectionSays(p, t, s, v, a, path);
    case Array(s) => cs := CollectionSays(p, t, s, v, a, path);
    case MapOf(s) => cs := CollectionSays(p, t, s, v, a, path);
    case _ => FullNothing(Inside(p, t, v, a, path));
  }

  lemma InsideStruct(p: Program, t: Type, v: Value, a: Place, path: string, c: Position, e: FieldError)
    requires v.Record? && v.id in p.types && |v.fields| == |p.types[v.id].fields| && t == Struct(v.id)
    ensures OfStruct(p, v, a, path, 0)(c, e) <==> Inside(p, t, v, a, path)(c, e)
  {
    assert SaysInside(p, t, v, a, path, c, e) <==> Says(p, v, a, path, c, e);
    assert Says(p, v, a, path, c, e) ==> c != [];
  }

  lemma InsideItems(p: Program, t: Type, s: Type, v: Value, a: Place, path: string, c: Position, e: FieldError)
    requires IsCollection(t) && t.elem == s && (if t.MapOf? then v.Dict? else v.List?)
    ensures OfItems(p, s, v, 0, ItemPlace(v, a), path)(c, e) <==> Inside(p, t, v, a, path)(c, e)
  {
    assert SaysInside(p, t, v, a, path, c, e) <==> SaysOfItem(p, s, v, a, path, c, e);
    if c != [] && c[0] < Count(v) {
      ghost var b := if v.Dict? then Onto(a, Loose) else if v.fixed then a else Onto(a, Addressable);
      assert b == ItemPlace(v, a);
      ghost var at := path + "[" + (if v.List? then Decimal(c[0]) else v.entries[c[0]].key) + "]";
      assert at == ItemPath(v, c[0], path);
      assert SaysOfItem(p, s, v, a, path, c, e) <==> SaysInside(p, s, Item(v, c[0]), b, at, c[1..], e);
    }
  }

  lemma CollectionSays(p: Program, t: Type, s: Type, v: Value, a: Place, path: string) returns (cs: seq<Position>)
    requires IsCollection(t) && t.elem == s
    ensures Full(Inside(p, t, v, a, path), Look(p, t, v, a, path), cs)
    decreases v, 2, 0
  {
    if (if t.MapOf? then v.Dict? else v.List?) {
      cs := ItemsSay(p, s, v, 0, ItemPlace(v, a), path);
      forall c, e ensures OfItems(p, s, v, 0, ItemPlace(v, a), path)(c, e) <==> Inside(p, t, v, a, path)(c, e) {
        InsideItems(p, t, s, v, a, path, c, e);
      }
      FullSame(OfItems(p, s, v, 0, ItemPlace(v, a), path), Inside(p, t, v, a, path), Look(p, t, v, a, path), cs);
    } else {
      cs := [];
      FullNothing(Inside(p, t, v, a, path));
    }
  }

  lemma ItemsSay(p: Program, t: Type, v: Value, i: nat, a: Place, path: string) returns (cs: seq<Position>)
    requires HasItems(v) && i <= Count(v)
    ensures Full(OfItems(p, t, v, i, a, path), LookItems(p, t, v, i, a, path), cs)
    decreases v, 1, Count(v) - i
  {
    if i == Count(v) {
      cs := [];
      FullNothing(OfItems(p, t, v, i, a, path));
    } else {
      var here := ItemPath(v, i, path);
      var first := LookSays(p, t, Item(v, i), a, here);
      var rest := ItemsSay(p, t, v, i + 1, a, path);
      cs := Prefixed(i, first) + rest;
      ItemParts(p, t, v, i, a, path, Look(p, t, Item(v, i), a, here), first, LookItems(p, t, v, i + 1, a, path), rest);
    }
  }

  lemma ItemParts(p: Program, t: Type, v: Value, i: nat, a: Place, path: string, es: seq<FieldError>, cs: seq<Position>,
    es': seq<FieldError>, cs': seq<Position>)
    requires HasItems(v) && i < Count(v)
    requires Full(Inside(p, t, Item(v, i), a, ItemPath(v, i, path)), es, cs)
    requires Full(OfItems(p, t, v, i + 1, a, path), es', cs')
    ensures Full(OfItems(p, t, v, i, a, path), es + es', Prefixed(i, cs) + cs')
  {
    var first, rest := Inside(p, t, Item(v, i), a, ItemPath(v, i, path)), OfItems(p, t, v, i + 1, a, path);
    FullNext(i, first, rest, es, cs, es', cs');
    FullSame(Either(Under(i, first), rest), OfItems(p, t, v, i, a, path), es + es', Prefixed(i, cs) + cs');
  }

  lemma StructSays(p: Program, v: Value, a: Place, path: string) returns (cs: seq<Position>)
    requires v.Record? && v.id in p.types && |v.fields| == |p.types[v.id].fields|
    ensures Full(OfStruct(p, v, a, path, 0), Read(p, v, a, path), cs)
    decreases v, 2, 0
  {
    cs := FieldsSay(p, v, 0, a, path);
  }

  /** The fields from i on, and then the type's own Validate. */
  lemma FieldsSay(p: Program, v: Value, i: nat, a: Place, path: string) returns (cs: seq<Position>)
    requires v.Record? && v.id in p.types && |v.fields| == |p.types[v.id].fields| && i <= |v.fields|
    ensures Full(OfStruct(p, v, a, path, i), ReadFields(p, v, i, a, path) + Custom(p, v, a, path), cs)
    decreases v, 1, |v.fields| - i
  {
    if i == |v.fields| {
      cs := CustomSays(p, v, a, path);
      assert [] + Custom(p, v, a, path) == Custom(p, v, a, path);
    } else {
      var first, said, errors := FieldOrNothing(p, v, i, a, path);
      var rest := FieldsSay(p, v, i + 1, a, path);
      var later := ReadFields(p, v, i + 1, a, path) + Custom(p, v, a, path);
      FieldParted(p, v, i, a, path, said, errors, first, later, rest);
      cs := Prefixed(i, first) + rest;
      assert errors + later == ReadFields(p, v, i, a, path) + Custom(p, v, a, path) by {
        assert errors + later == (errors + ReadFields(p, v, i + 1, a, path)) + Custom(p, v, a, path);
      }
    }
  }

  /** What is said of field i, if it is judged at all. */
  ghost function FieldSaying(p: Program, v: Value, i: nat, a: Place, path: string): Saying
    requires v.Record? && v.id in p.types && |v.fields| == |p.types[v.id].fields| && i < |v.fields|
  {
    var f := p.types[v.id].fields[i];
    if Judged(f) && FieldValid(p, f) then OfField(p, f, v.fields[i], a, Named(path, f.name)) else Nothing()
  }

  lemma FieldOrNothing(p: Program, v: Value, i: nat, a: Place, path: string)
    returns (cs: seq<Position>, said: Saying, errors: seq<FieldError>)
    requires v.Record? && v.id in p.types && |v.fields| == |p.types[v.id].fields| && i < |v.fields|
    ensures said == FieldSaying(p, v, i, a, path)
    ensures errors == if Judged(p.types[v.id].fields[i])
      then ReadField(p, p.types[v.id].fields[i], v.fields[i], a, path) else []
    ensures Full(said, errors, cs)
    decreases v, 0
  {
    var f, x := p.types[v.id].fields[i], v.fields[i];
    cs, said, errors := [], Nothing(), [];
    if Judged(f) && FieldValid(p, f) {
      cs := FieldSays(p, f, x, a, path);
      said, errors := OfField(p, f, x, a, Named(path, f.name)), ReadField(p, f, x, a, path);
    }
  }

  lemma FieldParted(p: Program, v: Value, i: nat, a: Place, path: string, said: Saying, es: seq<FieldError>,
    cs: seq<Position>, es': seq<FieldError>, cs': seq<Position>)
    requires v.Record? && v.id in p.types && |v.fields| == |p.types[v.id].fields| && i < |v.fields|
    requires said == FieldSaying(p, v, i, a, path)
    requires Full(said, es, cs) && Full(OfStruct(p, v, a, path, i + 1), es', cs')
    ensures Full(OfStruct(p, v, a, path, i), es + es', Prefixed(i, cs) + cs')
  {
    var rest := OfStruct(p, v, a, path, i + 1);
    FullNext(i, said, rest, es, cs, es', cs');
    FieldFirst(p, v, i, a, path, said);
    FullSame(Either(Under(i, said), rest), OfStruct(p, v, a, path, i), es + es', Prefixed(i, cs) + cs');
  }

  lemma FieldFirst(p: Program, v: Value, i: nat, a: Place, path: string, said: Saying)
    requires v.Record? && v.id in p.types && |v.fields| == |p.types[v.id].fields| && i < |v.fields|
    requires said == FieldSaying(p, v, i, a, path)
    ensures var parts, all := Either(Under(i, said), OfStruct(p, v, a, path, i + 1)), OfStruct(p, v, a, path, i);
      forall c, e :: parts(c, e) <==> all(c, e)
  {
    var parts, all := Either(Under(i, said), OfStruct(p, v, a, path, i + 1)), OfStruct(p, v, a, path, i);
    forall c, e ensures parts(c, e) <==> all(c, e) {
      if c != [] && c[0] == i {
        assert |c| >= 2 ==> c[1..][0] == c[1] && c[1..][1..] == c[2..];
      }
    }
  }

  lemma CustomSays(p: Program, v: Value, a: Place, path: string) returns (cs: seq<Position>)
    requires v.Record? && v.id in p.types && |v.fields| == |p.types[v.id].fields|
    ensures Full(OfStruct(p, v, a, path, |v.fields|), Custom(p, v, a, path), cs)
  {
    var n, errors := |v.fields|, Custom(p, v, a, path);
    cs := seq(|errors|, j => [n, j]);
    forall i, j | 0 <= i < j < |cs| ensures Earlier(cs[i], cs[j]) {
      assert cs[i][..1] == cs[j][..1];
    }
    forall c, e | OfStruct(p, v, a, path, n)(c, e) ensures Listed(cs, errors, c, e) {
      assert c == [n, c[1]];
      assert cs[c[1]] == c && errors[c[1]] == e;
    }
  }

  /** The whole report: what is said of the value, in order of position, each
      thing once, and nothing else. */
  lemma ReportIs(p: Program, v: Value, a: Place) returns (cs: seq<Position>)
    requires v.Record? && v.id in p.types && |v.fields| == |p.types[v.id].fields|
    ensures Full((c: Position, e: FieldError) => Says(p, v, a, "", c, e), Read(p, v, a, ""), cs)
  {
    cs := StructSays(p, v, a, "");
    FullSame(OfStruct(p, v, a, "", 0), (c: Position, e: FieldError) => Says(p, v, a, "", c, e), Read(p, v, a, ""), cs);
  }
}
