/** What `validate` struct tags mean: a direct reading of the tags that knows
    nothing of compiled plans. Reflection is replaced by a small algebra of
    types and values. */
module Validate {
  import opened Common
  import opened Text

  type Id = string

  /** A Go type, as far as validation looks into it. Structs are named, so type
      graphs may be cyclic. */
  datatype Type =
    | Scalar
    | Interface
    | Pointer(elem: Type)
    | Slice(elem: Type)
    | Array(elem: Type)
    | MapOf(elem: Type)
    | Struct(id: Id)

  /** A value. Ref is a non-nil pointer, Box a non-nil interface; a List is fixed
      if it is an array and not a slice; Dict lists its entries in iteration
      order. */
  datatype Value =
    | Plain(content: string)
    | Nil
    | Ref(target: Value)
    | Box(target: Value)
    | List(items: seq<Value>, fixed: bool)
    | Dict(entries: seq<Entry>)
    | Record(id: Id, fields: seq<Value>)

  datatype Entry = Entry(key: string, value: Value)

  datatype Rule = Rule(name: string, param: string)

  datatype Tag = Ignored | Rules(rules: seq<Rule>) | Malformed

  /** Field: wire name, type and tags. visible is "exported or embedded". A
      pattern is None when absent and Some(None) when it does not compile. */
  datatype Field = Field(name: string, visible: bool, typ: Type, tag: Tag, pattern: Option<Option<Check>>)

  /** Whether a type has a Validate method, and if so on what receiver. */
  datatype Receiver = NoValidate | OnValue | OnPointer

  datatype StructDef = StructDef(fields: seq<Field>, receiver: Receiver)

  /** The type, or a pointer to it, has a Validate method. */
  predicate Validatable(d: StructDef) { d.receiver != NoValidate }

  datatype FieldError = FieldError(field: string, rule: string, param: string)

  /** A parsed rule ready to run. */
  datatype Check = Check(rule: string, param: string, fn: Test)

  type Test = Value -> bool

  type Factory = (string, Type) -> Option<Test>

  /** The program under validation: its struct types, the registered rule
      factories (None when the parameter is rejected), reflect's IsZero, the
      emptiness test, and the Validate methods. */
  datatype Program = Program(
    types: map<Id, StructDef>,
    factories: map<string, Factory>,
    zero: Value -> bool,
    empty: Value -> bool,
    custom: Value -> seq<FieldError>)

  // ------------------------------------------------------ types and values

  /** The struct at the bottom of a type, found through pointers, slices,
      arrays and maps but not through interfaces. */
  function Base(t: Type): Option<Id> {
    match t
    case Scalar => None
    case Interface => None
    case Struct(id) => Some(id)
    case _ => Base(t.elem)
  }

  function Unpointer(t: Type): Type {
    if t.Pointer? then Unpointer(t.elem) else t
  }

  predicate IsCollection(t: Type) { t.Slice? || t.Array? || t.MapOf? }

  /** Every struct mentioned is declared. */
  ghost predicate Closed(p: Program) {
    forall id, i :: id in p.types && 0 <= i < |p.types[id].fields| ==>
      var b := Base(p.types[id].fields[i].typ); b.Some? ==> b.value in p.types
  }

  ghost predicate HasType(p: Program, v: Value, t: Type)
    decreases v
  {
    match t
    case Scalar => v.Plain?
    case Interface => v.Nil? || v.Box?
    case Pointer(e) => v.Nil? || (v.Ref? && HasType(p, v.target, e))
    case Slice(e) => v.List? && !v.fixed && forall i :: 0 <= i < |v.items| ==> HasType(p, v.items[i], e)
    case Array(e) => v.List? && v.fixed && forall i :: 0 <= i < |v.items| ==> HasType(p, v.items[i], e)
    case MapOf(e) => v.Dict? && forall i :: 0 <= i < |v.entries| ==> HasType(p, v.entries[i].value, e)
    case Struct(id) =>
      && v.Record? && v.id == id && id in p.types && |v.fields| == |p.types[id].fields|
      && forall i :: 0 <= i < |v.fields| ==> HasType(p, v.fields[i], p.types[id].fields[i].typ)
  }

  /** Follows pointers and interfaces; None when one of them is nil. */
  function Deref(v: Value): (d: Option<Value>)
    ensures d.Some? ==> (d.value == v || d.value < v) && !d.value.Nil? && !d.value.Ref? && !d.value.Box?
  {
    match v
    case Nil => None
    case Ref(w) => Deref(w)
    case Box(w) => Deref(w)
    case _ => Some(v)
  }

  // --------------------------------------------------------- addressability

  /** Whether a value reached by reflection can be addressed. Anywhere stands for
      a reading that takes every value to be. */
  datatype Place = Loose | Addressable | Anywhere

  function Onto(a: Place, b: Place): Place { if a.Anywhere? then a else b }

  /** Where what a value is dereferenced to is: the target of a pointer can be
      addressed, the content of an interface cannot. */
  function DerefPlace(v: Value, a: Place): Place {
    match v
    case Ref(w) => DerefPlace(w, Onto(a, Addressable))
    case Box(w) => DerefPlace(w, Onto(a, Loose))
    case _ => a
  }

  /** Where the items of a collection are: those of a slice can be addressed,
      those of an array if the array can, those of a map cannot. */
  function ItemPlace(v: Value, a: Place): Place
    requires HasItems(v)
  {
    if v.Dict? then Onto(a, Loose) else if v.fixed then a else Onto(a, Addressable)
  }

  /** A method on a pointer is only found on a value that can be addressed. */
  predicate Runs(m: Receiver, a: Place) { m.OnValue? || (m.OnPointer? && !a.Loose?) }

  function JoinPath(base: string, name: string): string {
    if base == "" then name else if name == "" then base else base + "." + name
  }

  predicate HasItems(v: Value) { v.List? || v.Dict? }

  function Count(v: Value): nat
    requires HasItems(v)
  {
    if v.List? then |v.items| else |v.entries|
  }

  function Item(v: Value, i: nat): (w: Value)
    requires HasItems(v) && i < Count(v)
    ensures w < v
  {
    if v.List? then v.items[i] else v.entries[i].value
  }

  function ItemPath(v: Value, i: nat, path: string): string
    requires HasItems(v) && i < Count(v)
  {
    path + "[" + (if v.List? then Decimal(i) else v.entries[i].key) + "]"
  }

  // -------------------------------------------------------- reading a tag

  /** The rules for the value itself: those before "dive". */
  function Own(rules: seq<Rule>): seq<Rule> {
    if rules == [] || rules[0].name == "dive" then [] else [rules[0]] + Own(rules[1..])
  }

  /** The rules for the elements: those after "dive". */
  function Inner(rules: seq<Rule>): (r: Option<seq<Rule>>)
    ensures r.Some? ==> |r.value| < |rules|
  {
    if rules == [] then None
    else if rules[0].name == "dive" then Some(rules[1..])
    else Inner(rules[1..])
  }

  predicate Mentions(rules: seq<Rule>, name: string) {
    exists i :: 0 <= i < |rules| && rules[i].name == name
  }

  predicate IsCheck(r: Rule) { r.name != "required" && r.name != "omitempty" }

  /** The rule is registered and accepts its parameter for this type. */
  predicate Known(p: Program, r: Rule, t: Type) {
    r.name in p.factories && p.factories[r.name](r.param, t).Some?
  }

  function CheckOf(p: Program, r: Rule, t: Type): Check
    requires Known(p, r, t)
  {
    Check(r.name, r.param, p.factories[r.name](r.param, t).value)
  }

  /** Every rule is usable on a value of type t. */
  predicate RulesValid(p: Program, rules: seq<Rule>, t: Type)
    decreases |rules|
  {
    && (forall i :: 0 <= i < |Own(rules)| && IsCheck(Own(rules)[i]) ==> Known(p, Own(rules)[i], Unpointer(t)))
    && (Inner(rules).Some? ==> IsCollection(Unpointer(t)) && RulesValid(p, Inner(rules).value, Unpointer(t).elem))
  }

  predicate FieldValid(p: Program, f: Field) {
    !f.visible || f.tag.Ignored? || (
      && f.tag.Rules? && RulesValid(p, f.tag.rules, f.typ)
      && (f.pattern.Some? ==> f.pattern.value.Some?))
  }

  predicate StructValid(p: Program, id: Id)
    requires id in p.types
  {
    forall i :: 0 <= i < |p.types[id].fields| ==> FieldValid(p, p.types[id].fields[i])
  }

  // ------------------------------------------------------ what a tag means

  /** The checks among a value's own rules, in order. */
  function Checks(p: Program, rules: seq<Rule>, t: Type): seq<Check>
    requires forall i :: 0 <= i < |rules| && IsCheck(rules[i]) ==> Known(p, rules[i], t)
  {
    if rules == [] then []
    else (if IsCheck(rules[0]) then [CheckOf(p, rules[0], t)] else []) + Checks(p, rules[1..], t)
  }

  /** The first check a value fails, if any. */
  function Failing(checks: seq<Check>, v: Value): Option<Check> {
    if checks == [] then None
    else if !checks[0].fn(v) then Some(checks[0])
    else Failing(checks[1..], v)
  }

  datatype Verdict = Verdict(passed: bool, errors: seq<FieldError>)

  function Missing(where: string): seq<FieldError> { [FieldError(where, "required", "")] }

  /** A value judged by its rules, plus extra checks (the pattern tag). An
      absent value, or a zero one under omitempty, is only held to "required";
      otherwise the first failing check is reported, and elements are judged
      when all checks pass. */
  function Judge(p: Program, rules: seq<Rule>, t: Type, extra: seq<Check>, v: Value, parent: string,
    name: string): Verdict
    requires RulesValid(p, rules, t)
    decreases |rules|, 0
  {
    var here := JoinPath(parent, name);
    var needed := Mentions(Own(rules), "required");
    var d := Deref(v);
    if d.None? || (Mentions(Own(rules), "omitempty") && p.zero(d.value)) then
      Verdict(false, if needed then Missing(here) else [])
    else if needed && p.empty(d.value) then
      Verdict(false, Missing(here))
    else
      var failing := Failing(Checks(p, Own(rules), Unpointer(t)) + extra, d.value);
      if failing.Some? then
        Verdict(false, [FieldError(here, failing.value.rule, failing.value.param)])
      else
        Verdict(true, if Inner(rules).Some? && HasItems(d.value)
                      then JudgeItems(p, Inner(rules).value, Unpointer(t).elem, d.value, 0, here) else [])
  }

  function JudgeItems(p: Program, rules: seq<Rule>, t: Type, v: Value, i: nat, path: string): seq<FieldError>
    requires RulesValid(p, rules, t) && HasItems(v) && i <= Count(v)
    decreases |rules|, Count(v) - i + 1
  {
    if i == Count(v) then []
    else Judge(p, rules, t, [], Item(v, i), ItemPath(v, i, path), "").errors + JudgeItems(p, rules, t, v, i + 1, path)
  }

  // ---------------------------------------------------- the whole reading

  function Extra(f: Field): seq<Check> {
    if f.pattern.Some? && f.pattern.value.Some? then [f.pattern.value.value] else []
  }

  predicate Judged(f: Field) { f.visible && !f.tag.Ignored? }

  /** The direct interpreter: judge each field in turn and look into every
      struct its static type can hold, then run the type's own Validate, if it
      can be found on a value at this place. */
  function Read(p: Program, v: Value, a: Place, path: string): seq<FieldError>
    requires v.Record? && v.id in p.types && |v.fields| == |p.types[v.id].fields|
    decreases v, 2, 0
  {
    ReadFields(p, v, 0, a, path) + Custom(p, v, a, path)
  }

  function Custom(p: Program, v: Value, a: Place, path: string): seq<FieldError>
    requires v.Record? && v.id in p.types
  {
    if Runs(p.types[v.id].receiver, a) then Located(p.custom(v), path) else []
  }

  /** Validate's own errors, reported relative to the value. */
  function Located(es: seq<FieldError>, path: string): seq<FieldError> {
    seq(|es|, i requires 0 <= i < |es| => es[i].(field := JoinPath(path, es[i].field)))
  }

  function ReadFields(p: Program, v: Value, i: nat, a: Place, path: string): seq<FieldError>
    requires v.Record? && v.id in p.types && |v.fields| == |p.types[v.id].fields| && i <= |v.fields|
    decreases v, 1, |v.fields| - i
  {
    if i == |v.fields| then []
    else
      var f := p.types[v.id].fields[i];
      (if Judged(f) then ReadField(p, f, v.fields[i], a, path) else []) + ReadFields(p, v, i + 1, a, path)
  }

  function ReadField(p: Program, f: Field, v: Value, a: Place, path: string): seq<FieldError>
    decreases v, 3, 0
  {
    if !FieldValid(p, f) || !Judged(f) then []
    else
      var verdict := Judge(p, f.tag.rules, f.typ, Extra(f), v, path, f.name);
      verdict.errors + (if verdict.passed then Look(p, f.typ, v, a, JoinPath(path, f.name)) else [])
  }

  /** Looks for structs inside a value of static type t. */
  function Look(p: Program, t: Type, v: Value, a: Place, path: string): seq<FieldError>
    decreases v, 2, 1
  {
    match t
    case Pointer(e) => if v.Ref? then Look(p, e, v.target, Onto(a, Addressable), path) else []
    case Slice(e) => if v.List? then LookItems(p, e, v, 0, ItemPlace(v, a), path) else []
    case Array(e) => if v.List? then LookItems(p, e, v, 0, ItemPlace(v, a), path) else []
    case MapOf(e) => if v.Dict? then LookItems(p, e, v, 0, ItemPlace(v, a), path) else []
    case Struct(id) =>
      if v.Record? && v.id == id && id in p.types && |v.fields| == |p.types[id].fields| then Read(p, v, a, path) else []
    case _ => []
  }

  /** The items from i on, all at place a. */
  function LookItems(p: Program, t: Type, v: Value, i: nat, a: Place, path: string): seq<FieldError>
    requires HasItems(v) && i <= Count(v)
    decreases v, 1, Count(v) - i
  {
    if i == Count(v) then []
    else Look(p, t, Item(v, i), a, ItemPath(v, i, path)) + LookItems(p, t, v, i + 1, a, path)
  }
}
