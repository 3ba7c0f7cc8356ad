/** When validation runs every Validate method there is: a method on a pointer
    receiver is passed over on a value that cannot be addressed. */
module Addressing {
  import opened Common
  import opened Validate

  // ------------------------------------------------- what is passed over

  /** This very struct has something to say and is not asked. */
  predicate Mute(p: Program, v: Value, a: Place)
    requires v.Record? && v.id in p.types
  {
    p.types[v.id].receiver.OnPointer? && a.Loose? && p.custom(v) != []
  }

  /** So is this struct, or one that validation looks into below it: through
      fields that pass their own checks. */
  predicate Unheard(p: Program, v: Value, a: Place)
    requires v.Record? && v.id in p.types && |v.fields| == |p.types[v.id].fields|
    decreases v, 2, 0
  {
    UnheardFields(p, v, 0, a) || Mute(p, v, a)
  }

  predicate UnheardFields(p: Program, v: Value, i: nat, a: Place)
    requires v.Record? && v.id in p.types && |v.fields| == |p.types[v.id].fields| && i <= |v.fields|
    decreases v, 1, |v.fields| - i
  {
    i < |v.fields| && (UnheardField(p, p.types[v.id].fields[i], v.fields[i], a) || UnheardFields(p, v, i + 1, a))
  }

  predicate UnheardField(p: Program, f: Field, v: Value, a: Place)
    decreases v, 3, 0
  {
    FieldValid(p, f) && Judged(f) && Judge(p, f.tag.rules, f.typ, Extra(f), v, "", "").passed
      && UnheardIn(p, f.typ, v, a)
  }

  predicate UnheardIn(p: Program, t: Type, v: Value, a: Place)
    decreases v, 2, 1
  {
    match t
    case Pointer(e) => v.Ref? && UnheardIn(p, e, v.target, Onto(a, Addressable))
    case Slice(e) => v.List? && UnheardItems(p, e, v, 0, ItemPlace(v, a))
    case Array(e) => v.List? && UnheardItems(p, e, v, 0, ItemPlace(v, a))
    case MapOf(e) => v.Dict? && UnheardItems(p, e, v, 0, ItemPlace(v, a))
    case Struct(id) => v.Record? && v.id == id && id in p.types && |v.fields| == |p.types[id].fields|
      && Unheard(p, v, a)
    case _ => false
  }

  predicate UnheardItems(p: Program, t: Type, v: Value, i: nat, a: Place)
    requires HasItems(v) && i <= Count(v)
    decreases v, 1, Count(v) - i
  {
    i < Count(v) && (UnheardIn(p, t, Item(v, i), a) || UnheardItems(p, t, v, i + 1, a))
  }

  // --------------------------------------------------- what difference it makes

  /** few is the report given, all the one with nobody passed over. */
  predicate Compares(few: seq<FieldError>, all: seq<FieldError>, unheard: bool) {
    |few| <= |all| && (if unheard then |few| < |all| else few == all)
  }

  lemma Joins(few: seq<FieldError>, all: seq<FieldError>, u: bool, few': seq<FieldError>, all': seq<FieldError>,
    u': bool)
    requires Compares(few, all, u) && Compares(few', all', u')
    ensures Compares(few + few', all + all', u || u')
  {
  }

  /** Whether a value passes its checks does not depend on what it is called. */
  lemma PassedAnywhere(p: Program, rules: seq<Rule>, t: Type, extra: seq<Check>, v: Value, parent: string, name: string)
    requires RulesValid(p, rules, t)
    ensures Judge(p, rules, t, extra, v, parent, name).passed == Judge(p, rules, t, extra, v, "", "").passed
  {
  }

  lemma {:induction false} ReadCompares(p: Program, v: Value, a: Place, path: string)
    requires v.Record? && v.id in p.types && |v.fields| == |p.types[v.id].fields|
    ensures Compares(Read(p, v, a, path), Read(p, v, Anywhere, path), Unheard(p, v, a))
    decreases v, 2, 0
  {
    FieldsCompare(p, v, 0, a, path);
    Joins(ReadFields(p, v, 0, a, path), ReadFields(p, v, 0, Anywhere, path), UnheardFields(p, v, 0, a),
          Custom(p, v, a, path), Custom(p, v, Anywhere, path), Mute(p, v, a));
  }

  lemma {:induction false} FieldsCompare(p: Program, v: Value, i: nat, a: Place, path: string)
    requires v.Record? && v.id in p.types && |v.fields| == |p.types[v.id].fields| && i <= |v.fields|
    ensures Compares(ReadFields(p, v, i, a, path), ReadFields(p, v, i, Anywhere, path), UnheardFields(p, v, i, a))
    decreases v, 1, |v.fields| - i
  {
    if i < |v.fields| {
      var f := p.types[v.id].fields[i];
      FieldCompares(p, f, v.fields[i], a, path);
      FieldsCompare(p, v, i + 1, a, path);
      var few := if Judged(f) then ReadField(p, f, v.fields[i], a, path) else [];
      var all := if Judged(f) then ReadField(p, f, v.fields[i], Anywhere, path) else [];
      Joins(few, all, UnheardField(p, f, v.fields[i], a),
            ReadFields(p, v, i + 1, a, path), ReadFields(p, v, i + 1, Anywhere, path), UnheardFields(p, v, i + 1, a));
    }
  }

  lemma {:induction false} FieldCompares(p: Program, f: Field, v: Value, a: Place, path: string)
    ensures Compares(ReadField(p, f, v, a, path), ReadField(p, f, v, Anywhere, path), UnheardField(p, f, v, a))
    decreases v, 3, 0
  {
    if FieldValid(p, f) && Judged(f) {
      PassedAnywhere(p, f.tag.rules, f.typ, Extra(f), v, path, f.name);
      var verdict := Judge(p, f.tag.rules, f.typ, Extra(f), v, path, f.name);
      if verdict.passed {
        var here := JoinPath(path, f.name);
        LookCompares(p, f.typ, v, a, here);
        Joins(verdict.errors, verdict.errors, false, Look(p, f.typ, v, a, here), Look(p, f.typ, v, Anywhere, here),
          UnheardIn(p, f.typ, v, a));
      }
    }
  }

  lemma {:induction false} LookCompares(p: Program, t: Type, v: Value, a: Place, path: string)
    ensures Compares(Look(p, t, v, a, path), Look(p, t, v, Anywhere, path), UnheardIn(p, t, v, a))
    decreases v, 2, 1
  {
    match t
    case Pointer(e) => if v.Ref? { LookCompares(p, e, v.target, Onto(a, Addressable), path); }
    case Slice(e) => if v.List? { ItemsCompare(p, e, v, 0, ItemPlace(v, a), path); }
    case Array(e) => if v.List? { ItemsCompare(p, e, v, 0, ItemPlace(v, a), path); }
    case MapOf(e) => if v.Dict? { ItemsCompare(p, e, v, 0, ItemPlace(v, a), path); }
    case Struct(id) => if v.Record? && v.id == id && id in p.types
      && |v.fields| == |p.types[id].fields| { ReadCompares(p, v, a, path); }
    case _ =>
  }

  lemma {:induction false} ItemsCompare(p: Program, t: Type, v: Value, i: nat, a: Place, path: string)
    requires HasItems(v) && i <= Count(v)
    ensures Compares(LookItems(p, t, v, i, a, path), LookItems(p, t, v, i, Anywhere, path), UnheardItems(p, t, v, i, a))
    decreases v, 1, Count(v) - i
  {
    if i < Count(v) {
      var at := ItemPath(v, i, path);
      LookCompares(p, t, Item(v, i), a, at);
      ItemsCompare(p, t, v, i + 1, a, path);
      Joins(Look(p, t, Item(v, i), a, at), Look(p, t, Item(v, i), Anywhere, at), UnheardIn(p, t, Item(v, i), a),
            LookItems(p, t, v, i + 1, a, path), LookItems(p, t, v, i + 1, Anywhere, path),
              UnheardItems(p, t, v, i + 1, a));
    }
  }

  /** The report is the one with every Validate run if and only if nobody with
      something to say is passed over. */
  lemma EveryValidateRuns(p: Program, v: Value, a: Place, path: string)
    requires v.Record? && v.id in p.types && |v.fields| == |p.types[v.id].fields|
    ensures Read(p, v, a, path) == Read(p, v, Anywhere, path) <==> !Unheard(p, v, a)
  {
    ReadCompares(p, v, a, path);
  }

  // ------------------------------------------------------------- an example

  function Never(v: Value): bool { false }

  function Complaint(v: Value): seq<FieldError> {
    if v.Record? && v.id == "Item" then [FieldError("name", "custom", "")] else []
  }

  /** A struct with a map of items, whose Validate is on the pointer. */
  function Shop(): Program {
    Program(
      map["Item" := StructDef([], OnPointer),
          "Shop" := StructDef([Field("items", true, MapOf(Struct("Item")), Rules([]), None)], NoValidate)],
      map[], Never, Never, Complaint)
  }

  /** However the shop is passed, its items are never asked. */
  lemma MapValuesUnheard(a: Place)
    requires !a.Anywhere?
    ensures var v := Record("Shop", [Dict([Entry("k", Record("Item", []))])]);
      && Read(Shop(), v, a, "") == []
      && Read(Shop(), v, Anywhere, "") == [FieldError("items[k].name", "custom", "")]
  {
    var p, item := Shop(), Record("Item", []);
    var d := Dict([Entry("k", item)]);
    var v := Record("Shop", [d]);
    var f := p.types["Shop"].fields[0];
    assert FieldValid(p, f) && Own([]) == [] && Inner([]) == None;
    forall b: Place ensures ReadField(p, f, d, b, "") == Look(p, f.typ, d, b, "items") {
      assert Judge(p, [], f.typ, [], d, "", "items") == Verdict(true, []);
      assert [] + Look(p, f.typ, d, b, "items") == Look(p, f.typ, d, b, "items");
    }
    assert ItemPath(d, 0, "items") == "items[k]" && "items[k]" + "." + "name" == "items[k].name";
    forall b: Place ensures LookItems(p, Struct("Item"), d, 0, b, "items") == Read(p, item, b, "items[k]") {
      assert LookItems(p, Struct("Item"), d, 1, b, "items") == [];
      assert Read(p, item, b, "items[k]") + [] == Read(p, item, b, "items[k]");
    }
    assert ReadFields(p, v, 1, a, "") == [] && ReadFields(p, v, 1, Anywhere, "") == [];
    assert ReadFields(p, item, 0, a, "items[k]") == [] && ReadFields(p, item, 0, Anywhere, "items[k]") == [];
    assert Located([FieldError("name", "custom", "")], "items[k]") == [FieldError("items[k].name", "custom", "")];
  }
}
