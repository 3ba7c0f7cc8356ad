/** The plan compiler and the plan runner, proved to report exactly what the
    direct reading of the tags reports. */
module ValidatePlan {
  import opened Common
  import opened Validate

  // ---------------------------------------------------------- value plans

  /** The checks applied to one value: a field, or an element after "dive". */
  datatype ValuePlan = ValuePlan(required: bool, omitempty: bool, checks: seq<Check>, dive: Option<ValuePlan>)

  datatype FieldPlan = FieldPlan(index: nat, name: string, checks: ValuePlan, nested: bool)

  datatype CompileError = BadTag | DiveOnScalar | UnknownRule(name: string) | BadParam(name: string) | BadPattern

  /** The plan says the same as the rules (with extra checks appended). */
  ghost predicate Realizes(vp: ValuePlan, p: Program, rules: seq<Rule>, t: Type, extra: seq<Check>)
    requires RulesValid(p, rules, t)
    decreases |rules|
  {
    && (vp.required <==> Mentions(Own(rules), "required"))
    && (vp.omitempty <==> Mentions(Own(rules), "omitempty"))
    && vp.checks == Checks(p, Own(rules), Unpointer(t)) + extra
    && (vp.dive.Some? <==> Inner(rules).Some?)
    && (vp.dive.Some? ==> Realizes(vp.dive.value, p, Inner(rules).value, Unpointer(t).elem, []))
  }

  function CheckFor(p: Program, r: Rule, t: Type): seq<Check> {
    if IsCheck(r) && Known(p, r, t) then [CheckOf(p, r, t)] else []
  }

  /** One rule that is not "dive" taken off the front. */
  lemma PeelRule(p: Program, rules: seq<Rule>, t: Type)
    requires rules != [] && rules[0].name != "dive"
    ensures Own(rules) == [rules[0]] + Own(rules[1..]) && Inner(rules) == Inner(rules[1..])
    ensures RulesValid(p, rules, t)
        <==> (IsCheck(rules[0]) ==> Known(p, rules[0], Unpointer(t))) && RulesValid(p, rules[1..], t)
    ensures forall n :: Mentions(Own(rules), n) <==> rules[0].name == n || Mentions(Own(rules[1..]), n)
    ensures var u := Unpointer(t);
      RulesValid(p, rules, t) ==> Checks(p, Own(rules), u) == CheckFor(p, rules[0], u) + Checks(p, Own(rules[1..]), u)
  {
    var own, rest := Own(rules), Own(rules[1..]);
    assert own[0] == rules[0] && own[1..] == rest;
    assert forall i :: 0 <= i < |rest| ==> own[i+1] == rest[i];
    forall n ensures Mentions(own, n) <==> rules[0].name == n || Mentions(rest, n) {
      if Mentions(rest, n) {
        var i :| 0 <= i < |rest| && rest[i].name == n;
        assert own[i+1].name == n;
      }
    }
    if RulesValid(p, rules[1..], t) && (IsCheck(rules[0]) ==> Known(p, rules[0], Unpointer(t))) {
      assert forall i :: 1 <= i < |own| ==> own[i] == rest[i-1];
    }
  }

  /** All that a rule list says about the value itself. */
  datatype Gist = Gist(valid: bool, required: bool, omitempty: bool, inner: Option<seq<Rule>>, checks: seq<Check>)

  ghost function GistOf(p: Program, rules: seq<Rule>, t: Type): Gist {
    Gist(RulesValid(p, rules, t), Mentions(Own(rules), "required"), Mentions(Own(rules), "omitempty"), Inner(rules),
         if RulesValid(p, rules, t) then Checks(p, Own(rules), Unpointer(t)) else [])
  }

  /** What the plan built so far and the rules still to come add up to. */
  ghost predicate Completes(vp: ValuePlan, rest: Gist, all: Gist) {
    && vp.dive == None
    && (all.valid <==> rest.valid)
    && (all.required <==> vp.required || rest.required)
    && (all.omitempty <==> vp.omitempty || rest.omitempty)
    && all.inner == rest.inner
    && (all.valid ==> all.checks == vp.checks + rest.checks)
  }

  /** Reading one more rule. */
  function Extend(vp: ValuePlan, p: Program, r: Rule, base: Type): ValuePlan {
    if r.name == "required" then vp.(required := true)
    else if r.name == "omitempty" then vp.(omitempty := true)
    else vp.(checks := vp.checks + CheckFor(p, r, base))
  }

  lemma CompletesStep(vp: ValuePlan, p: Program, rest: seq<Rule>, all: Gist, t: Type)
    requires rest != [] && rest[0].name != "dive" && Completes(vp, GistOf(p, rest, t), all)
    ensures IsCheck(rest[0]) && !Known(p, rest[0], Unpointer(t)) ==> !all.valid
    ensures !IsCheck(rest[0]) || Known(p, rest[0], Unpointer(t)) ==>
      Completes(Extend(vp, p, rest[0], Unpointer(t)), GistOf(p, rest[1..], t), all)
  {
    PeelRule(p, rest, t);
    if !IsCheck(rest[0]) || Known(p, rest[0], Unpointer(t)) {
      var more := CheckFor(p, rest[0], Unpointer(t));
      GistStep(vp, GistOf(p, rest, t), GistOf(p, rest[1..], t), all, rest[0], more);
      ExtendIs(vp, p, rest[0], Unpointer(t));
    }
  }

  lemma ExtendIs(vp: ValuePlan, p: Program, r: Rule, base: Type)
    ensures Extend(vp, p, r, base) == Extended(vp, r, CheckFor(p, r, base))
  {
    assert !IsCheck(r) ==> vp.checks + CheckFor(p, r, base) == vp.checks;
  }

  function Extended(vp: ValuePlan, r: Rule, more: seq<Check>): ValuePlan {
    vp.(required := vp.required || r.name == "required", omitempty := vp.omitempty || r.name == "omitempty",
      checks := vp.checks + more)
  }

  lemma GistStep(vp: ValuePlan, rest: Gist, next: Gist, all: Gist, r: Rule, more: seq<Check>)
    requires Completes(vp, rest, all)
    requires rest.valid <==> next.valid
    requires rest.required <==> r.name == "required" || next.required
    requires rest.omitempty <==> r.name == "omitempty" || next.omitempty
    requires rest.inner == next.inner
    requires next.valid ==> rest.checks == more + next.checks
    ensures Completes(Extended(vp, r, more), next, all)
  {
    if next.valid { Append3(vp.checks, more, next.checks); }
  }

  lemma Append3<T>(a: seq<T>, b: seq<T>, c: seq<T>)
    ensures a + (b + c) == a + b + c
  {
  }

  lemma CompletesEnd(vp: ValuePlan, p: Program, rules: seq<Rule>, t: Type)
    requires Completes(vp, GistOf(p, [], t), GistOf(p, rules, t))
    ensures RulesValid(p, rules, t) && Realizes(vp, p, rules, t, [])
  {
  }

  lemma CompletesDive(vp: ValuePlan, p: Program, rest: seq<Rule>, rules: seq<Rule>, t: Type)
    requires rest != [] && rest[0].name == "dive" && Completes(vp, GistOf(p, rest, t), GistOf(p, rules, t))
    ensures RulesValid(p, rules, t) <==> IsCollection(Unpointer(t)) && RulesValid(p, rest[1..], Unpointer(t).elem)
    ensures RulesValid(p, rules, t) ==>
      forall elem :: Realizes(elem, p, rest[1..], Unpointer(t).elem, []) ==>
        Realizes(vp.(dive := Some(elem)), p, rules, t, [])
  {
    assert Own(rest) == [];
  }

  /** One rule that is not "dive" read into the plan. */
  method ReadRule(p: Program, rule: Rule, base: Type, vp: ValuePlan) returns (r: Result<ValuePlan, CompileError>)
    ensures r.Ok? <==> !IsCheck(rule) || Known(p, rule, base)
    ensures r.Ok? ==> r.value == Extend(vp, p, rule, base)
  {
    if rule.name == "required" {
      return Ok(vp.(required := true));
    } else if rule.name == "omitempty" {
      return Ok(vp.(omitempty := true));
    }
    if rule.name !in p.factories {
      return Err(UnknownRule(rule.name));
    }
    var fn := p.factories[rule.name](rule.param, base);
    if fn.None? {
      return Err(BadParam(rule.name));
    }
    return Ok(vp.(checks := vp.checks + [Check(rule.name, rule.param, fn.value)]));
  }

  /** compileRules accepts exactly the valid rule lists. */
  method CompileRules(p: Program, rules: seq<Rule>, t: Type) returns (r: Result<ValuePlan, CompileError>)
    ensures r.Ok? <==> RulesValid(p, rules, t)
    ensures r.Ok? ==> Realizes(r.value, p, rules, t, [])
    decreases |rules|
  {
    var vp := ValuePlan(false, false, [], None);
    var base := Unpointer(t);
    var rest := rules;
    while rest != []
      invariant |rest| <= |rules| && Completes(vp, GistOf(p, rest, t), GistOf(p, rules, t))
      decreases |rest|
    {
      if rest[0].name == "dive" {
        CompletesDive(vp, p, rest, rules, t);
        if !IsCollection(base) {
          return Err(DiveOnScalar);
        }
        var elem := CompileRules(p, rest[1..], base.elem);
        if elem.Err? {
          return elem;
        }
        return Ok(vp.(dive := Some(elem.value)));
      }
      CompletesStep(vp, p, rest, GistOf(p, rules, t), t);
      var next := ReadRule(p, rest[0], base, vp);
      if next.Err? {
        return next;
      }
      vp, rest := next.value, rest[1..];
    }
    CompletesEnd(vp, p, rules, t);
    return Ok(vp);
  }

  // ---------------------------------------------------- running one value

  class Errors {
    var list: seq<FieldError>

    constructor ()
      ensures list == []
    {
      list := [];
    }

    method Add(e: FieldError)
      modifies this
      ensures list == old(list) + [e]
    {
      list := list + [e];
    }
  }

  /** The first failing check, found by running them in order. */
  method FirstFailing(checks: seq<Check>, v: Value) returns (c: Option<Check>)
    ensures c == Failing(checks, v)
  {
    var k := 0;
    while k < |checks|
      invariant 0 <= k <= |checks|
      invariant Failing(checks, v) == Failing(checks[k..], v)
    {
      if !checks[k].fn(v) {
        return Some(checks[k]);
      }
      k := k + 1;
    }
    return None;
  }

  /** Runs a plan over a value, appending what it finds. */
  method ApplyValuePlan(v: Value, vp: ValuePlan, parent: string, name: string, errs: Errors,
                        p: Program, ghost rules: seq<Rule>, ghost t: Type, ghost extra: seq<Check>)
    returns (passed: bool)
    requires RulesValid(p, rules, t) && Realizes(vp, p, rules, t, extra)
    modifies errs
    ensures passed == Judge(p, rules, t, extra, v, parent, name).passed
    ensures errs.list == old(errs.list) + Judge(p, rules, t, extra, v, parent, name).errors
    decreases vp, 1
  {
    var d := Deref(v);
    if d.None? || (vp.omitempty && p.zero(d.value)) {
      if vp.required {
        errs.Add(FieldError(JoinPath(parent, name), "required", ""));
      }
      return false;
    }
    if vp.required && p.empty(d.value) {
      errs.Add(FieldError(JoinPath(parent, name), "required", ""));
      return false;
    }
    var failing := FirstFailing(vp.checks, d.value);
    if failing.Some? {
      errs.Add(FieldError(JoinPath(parent, name), failing.value.rule, failing.value.param));
      return false;
    }
    if vp.dive.Some? && HasItems(d.value) {
      Dive(d.value, vp.dive.value, JoinPath(parent, name), errs, p, Inner(rules).value, Unpointer(t).elem);
    }
    return true;
  }

  lemma JudgeItemsStep(p: Program, rules: seq<Rule>, t: Type, v: Value, i: nat, path: string, before: seq<FieldError>)
    requires RulesValid(p, rules, t) && HasItems(v) && i < Count(v)
    ensures before + JudgeItems(p, rules, t, v, i, path)
         == before + Judge(p, rules, t, [], Item(v, i), ItemPath(v, i, path), "").errors
           + JudgeItems(p, rules, t, v, i + 1, path)
  {
  }

  /** The loops over a slice's, array's or map's elements. */
  method Dive(dv: Value, vp: ValuePlan, path: string, errs: Errors, p: Program, ghost rules: seq<Rule>, ghost t: Type)
    requires RulesValid(p, rules, t) && Realizes(vp, p, rules, t, []) && HasItems(dv)
    modifies errs
    ensures errs.list == old(errs.list) + JudgeItems(p, rules, t, dv, 0, path)
    decreases vp, 2
  {
    var i := 0;
    while i < Count(dv)
      invariant 0 <= i <= Count(dv)
      invariant errs.list + JudgeItems(p, rules, t, dv, i, path)
        == old(errs.list) + JudgeItems(p, rules, t, dv, 0, path)
    {
      JudgeItemsStep(p, rules, t, dv, i, path, errs.list);
      var _ := ApplyValuePlan(Item(dv, i), vp, ItemPath(dv, i, path), "", errs, p, rules, t, []);
      i := i + 1;
    }
  }

  // ---------------------------------------------------------- struct plans

  datatype PlanView = PlanView(fields: seq<FieldPlan>, validatable: bool, hasWork: bool)

  class TypePlan {
    var fields: seq<FieldPlan>
    var validatable: bool
    var hasWork: bool

    /** Work is assumed while compiling, so that recursive types are traversed. */
    constructor (v: bool)
      ensures View() == PlanView([], v, true)
    {
      fields, validatable, hasWork := [], v, true;
    }

    ghost function View(): PlanView
      reads this
    {
      PlanView(fields, validatable, hasWork)
    }
  }

  /** No struct of interest can be inside a value of this type: none at all, or
      one from the quiet set. */
  ghost predicate Quiet(t: Type, quiet: set<Id>) {
    Base(t).None? || Base(t).value in quiet
  }

  /** A kept field plan does what its field asks; nested is false only when the
      field's type holds quiet structs at most. */
  ghost predicate Faithful(p: Program, known: set<Id>, quiet: set<Id>, f: Field, fp: FieldPlan) {
    && Judged(f) && FieldValid(p, f) && fp.name == f.name
    && Realizes(fp.checks, p, f.tag.rules, f.typ, Extra(f))
    && if fp.nested then Base(f.typ).Some? && Base(f.typ).value in known else Quiet(f.typ, quiet)
  }

  /** A field nothing can be wrong with. */
  ghost predicate Idle(p: Program, quiet: set<Id>, f: Field) {
    !Judged(f) || (
      && FieldValid(p, f)
      && !Mentions(Own(f.tag.rules), "required")
      && Checks(p, Own(f.tag.rules), Unpointer(f.typ)) + Extra(f) == []
      && Inner(f.tag.rules) == None
      && Quiet(f.typ, quiet))
  }

  ghost predicate Planned(plan: seq<FieldPlan>, i: nat) {
    exists a :: 0 <= a < |plan| && plan[a].index == i
  }

  /** The plan handles the first n fields, in order, leaving out idle ones. */
  ghost predicate Covers(p: Program, known: set<Id>, quiet: set<Id>, fields: seq<Field>, plan: seq<FieldPlan>, n: nat)
    requires n <= |fields|
  {
    && (forall a, b :: 0 <= a < b < |plan| ==> plan[a].index < plan[b].index)
    && (forall a :: 0 <= a < |plan| ==>
      plan[a].index < n && Faithful(p, known, quiet, fields[plan[a].index], plan[a]))
    && (forall i :: 0 <= i < n && !Planned(plan, i) ==> Idle(p, quiet, fields[i]))
  }

  ghost function QuietSet(views: map<Id, PlanView>, done: set<Id>): set<Id>
    requires done <= views.Keys
  {
    set id | id in done && !views[id].hasWork
  }

  ghost predicate PlanOk(p: Program, known: set<Id>, quiet: set<Id>, id: Id, w: PlanView)
    requires id in p.types
  {
    && w.validatable == Validatable(p.types[id])
    && w.hasWork == (w.fields != [] || w.validatable)
    && Covers(p, known, quiet, p.types[id].fields, w.fields, |p.types[id].fields|)
  }

  /** Every finished plan is right; unfinished ones are assumed to have work. */
  ghost predicate Sound(p: Program, views: map<Id, PlanView>, done: set<Id>) {
    && done <= views.Keys <= p.types.Keys
    && (forall id {:trigger PlanOk(p, views.Keys, QuietSet(views, done), id, views[id])} ::
          id in done ==> PlanOk(p, views.Keys, QuietSet(views, done), id, views[id]))
    && (forall id :: id in views.Keys - done ==> views[id].hasWork)
  }

  lemma CoversGrow(p: Program, known: set<Id>, quiet: set<Id>, known': set<Id>, quiet': set<Id>,
                   fields: seq<Field>, plan: seq<FieldPlan>, n: nat)
    requires n <= |fields| && Covers(p, known, quiet, fields, plan, n)
    requires known <= known' && quiet <= quiet'
    ensures Covers(p, known', quiet', fields, plan, n)
  {
  }

  lemma CoversNothing(p: Program, known: set<Id>, quiet: set<Id>, id: Id)
    requires id in p.types
    ensures Covers(p, known, quiet, p.types[id].fields, [], 0)
  {
  }

  /** One more field, kept or left out. */
  lemma CoversKeep(p: Program, known: set<Id>, quiet: set<Id>, fields: seq<Field>, plan: seq<FieldPlan>, fp: FieldPlan)
    requires fp.index < |fields| && Covers(p, known, quiet, fields, plan, fp.index)
    requires Faithful(p, known, quiet, fields[fp.index], fp)
    ensures Covers(p, known, quiet, fields, plan + [fp], fp.index + 1)
  {
    var plan' := plan + [fp];
    assert plan'[|plan|].index == fp.index;
    forall i ensures Planned(plan, i) ==> Planned(plan', i) {
      if Planned(plan, i) {
        var a :| 0 <= a < |plan| && plan[a].index == i;
        assert plan'[a].index == i;
      }
    }
  }

  lemma CoversSkip(p: Program, known: set<Id>, quiet: set<Id>, fields: seq<Field>, plan: seq<FieldPlan>, n: nat)
    requires n < |fields| && Covers(p, known, quiet, fields, plan, n)
    requires Idle(p, quiet, fields[n])
    ensures Covers(p, known, quiet, fields, plan, n + 1)
  {
  }

  /** Anything may be said of an unfinished plan, as long as it has work. */
  lemma SoundUpdate(p: Program, views: map<Id, PlanView>, done: set<Id>, id: Id, w: PlanView)
    requires Sound(p, views, done) && id in p.types && id !in done && w.hasWork
    ensures Sound(p, views[id := w], done)
    ensures QuietSet(views[id := w], done) == QuietSet(views, done)
  {
    forall x | x in done ensures PlanOk(p, views[id := w].Keys, QuietSet(views[id := w], done), x, views[id := w][x]) {
      assert PlanOk(p, views.Keys, QuietSet(views, done), x, views[x]);
      assert QuietSet(views[id := w], done) == QuietSet(views, done);
      CoversGrow(p, views.Keys, QuietSet(views, done), views[id := w].Keys, QuietSet(views, done),
                 p.types[x].fields, views[x].fields, |p.types[x].fields|);
    }
  }

  /** A plan covering all fields may be declared finished. */
  lemma SoundFinish(p: Program, views: map<Id, PlanView>, done: set<Id>, id: Id, w: PlanView)
    requires Sound(p, views, done) && id in views && id !in done
    requires Covers(p, views.Keys, QuietSet(views, done), p.types[id].fields, w.fields, |p.types[id].fields|)
    requires w.validatable == Validatable(p.types[id]) && w.hasWork == (w.fields != [] || w.validatable)
    ensures Sound(p, views[id := w], done + {id})
  {
    var views', done' := views[id := w], done + {id};
    assert views'.Keys == views.Keys && QuietSet(views, done) <= QuietSet(views', done');
    forall x | x in done' ensures PlanOk(p, views'.Keys, QuietSet(views', done'), x, views'[x]) {
      assert x in done ==> PlanOk(p, views.Keys, QuietSet(views, done), x, views[x]);
      CoversGrow(p, views.Keys, QuietSet(views, done), views'.Keys, QuietSet(views', done'),
                 p.types[x].fields, views'[x].fields, |p.types[x].fields|);
    }
  }

  // ------------------------------------------------- quiet types never fail

  /** An idle field contributes nothing. */
  lemma IdleJudge(p: Program, quiet: set<Id>, f: Field, v: Value, path: string)
    requires Idle(p, quiet, f) && Judged(f)
    ensures Judge(p, f.tag.rules, f.typ, Extra(f), v, path, f.name).errors == []
  {
  }

  /** hasWork == false is only ever assigned to a type no value of which can
      fail: reading any of its values directly finds nothing. */
  lemma {:induction false} QuietRead(p: Program, views: map<Id, PlanView>, done: set<Id>, v: Value, a: Place,
    path: string)
    requires Sound(p, views, done)
    requires v.Record? && v.id in QuietSet(views, done) && |v.fields| == |p.types[v.id].fields|
    ensures Read(p, v, a, path) == []
    decreases v, 2, 0
  {
    var quiet := QuietSet(views, done);
    assert PlanOk(p, views.Keys, quiet, v.id, views[v.id]);
    assert forall i :: 0 <= i < |v.fields| ==> !Planned(views[v.id].fields, i);
    QuietFields(p, views, done, v, 0, a, path);
  }

  lemma {:induction false} QuietFields(p: Program, views: map<Id, PlanView>, done: set<Id>, v: Value, i: nat, a: Place,
    path: string)
    requires Sound(p, views, done)
    requires v.Record? && v.id in p.types && |v.fields| == |p.types[v.id].fields| && i <= |v.fields|
    requires forall k :: i <= k < |v.fields| ==> Idle(p, QuietSet(views, done), p.types[v.id].fields[k])
    ensures ReadFields(p, v, i, a, path) == []
    decreases v, 1, |v.fields| - i
  {
    if i < |v.fields| {
      IdleField(p, views, done, p.types[v.id].fields[i], v.fields[i], a, path);
      QuietFields(p, views, done, v, i + 1, a, path);
    }
  }

  lemma {:induction false} IdleField(p: Program, views: map<Id, PlanView>, done: set<Id>, f: Field, v: Value, a: Place,
    path: string)
    requires Sound(p, views, done) && Idle(p, QuietSet(views, done), f)
    ensures Judged(f) ==> ReadField(p, f, v, a, path) == []
    decreases v, 3, 0
  {
    if Judged(f) {
      IdleJudge(p, QuietSet(views, done), f, v, path);
      QuietLook(p, views, done, f.typ, v, a, JoinPath(path, f.name));
    }
  }

  lemma {:induction false} QuietLook(p: Program, views: map<Id, PlanView>, done: set<Id>, t: Type, v: Value, a: Place,
    path: string)
    requires Sound(p, views, done) && Quiet(t, QuietSet(views, done))
    ensures Look(p, t, v, a, path) == []
    decreases v, 2, 1
  {
    match t
    case Pointer(e) => if v.Ref? { QuietLook(p, views, done, e, v.target, Onto(a, Addressable), path); }
    case Slice(e) => if v.List? { QuietItems(p, views, done, e, v, 0, ItemPlace(v, a), path); }
    case Array(e) => if v.List? { QuietItems(p, views, done, e, v, 0, ItemPlace(v, a), path); }
    case MapOf(e) => if v.Dict? { QuietItems(p, views, done, e, v, 0, ItemPlace(v, a), path); }
    case Struct(id) =>
      if v.Record? && v.id == id && |v.fields| == |p.types[id].fields| { QuietRead(p, views, done, v, a, path); }
    case _ =>
  }

  lemma {:induction false} QuietItems(p: Program, views: map<Id, PlanView>, done: set<Id>, t: Type, v: Value, i: nat,
    a: Place, path: string)
    requires Sound(p, views, done) && Quiet(t, QuietSet(views, done)) && HasItems(v) && i <= Count(v)
    ensures LookItems(p, t, v, i, a, path) == []
    decreases v, 1, Count(v) - i
  {
    if i < Count(v) {
      QuietLook(p, views, done, t, Item(v, i), a, ItemPath(v, i, path));
      QuietItems(p, views, done, t, v, i + 1, a, path);
    }
  }

  // ------------------------------------------------------------- compiling

  /** Field i of struct a holds struct b. */
  ghost predicate Leads(p: Program, a: Id, b: Id) {
    && a in p.types
    && var fields := p.types[a].fields;
      exists i :: 0 <= i < |fields| && Judged(fields[i]) && Base(fields[i].typ) == Some(b)
  }

  /** A way from chain[0] to a struct with an invalid tag. */
  ghost predicate Faulty(p: Program, chain: seq<Id>) {
    && chain != []
    && (forall i :: 0 <= i < |chain| - 1 ==> Leads(p, chain[i], chain[i+1]))
    && chain[|chain|-1] in p.types && !StructValid(p, chain[|chain|-1])
  }

  lemma FaultyFrom(p: Program, a: Id, chain: seq<Id>)
    requires Faulty(p, chain) && Leads(p, a, chain[0])
    ensures Faulty(p, [a] + chain)
  {
  }

  /** The plans under construction in one compilation. Ghost: the contents of
      every plan known so far, and which of them are finished. */
  class Building {
    var plans: map<Id, TypePlan>
    ghost var views: map<Id, PlanView>
    ghost var done: set<Id>
    ghost var open: set<Id>

    constructor (ghost ready: map<Id, PlanView>)
      ensures plans == map[] && views == ready && done == ready.Keys && open == {}
    {
      plans, views, done, open := map[], ready, ready.Keys, {};
    }

    /** Since an earlier moment plans were only added, the new ones freshly
        made; contents stayed the same except at the given structs, and finished
        plans stayed finished. */
    twostate predicate Advanced(new except: set<Id>)
      reads this
    {
      && old(plans.Keys) <= plans.Keys
      && (forall id :: id in plans ==> if id in old(plans) then plans[id] == old(plans[id]) else fresh(plans[id]))
      && old(views.Keys) <= views.Keys
      && (forall id :: id in old(views) && id !in except ==> views[id] == old(views[id]))
      && old(done) <= done
    }
  }

  datatype Report = NotAStruct | BadType(error: CompileError) | Checked(errors: seq<FieldError>)

  class Validator {
    const p: Program
    var plans: map<Id, TypePlan>
    ghost var views: map<Id, PlanView>

    constructor (program: Program)
      requires Closed(program)
      ensures p == program && Ready()
    {
      p, plans, views := program, map[], map[];
    }

    /** Between compilations every cached plan is finished and right. */
    ghost predicate Ready()
      reads this, plans.Values
    {
      && Closed(p)
      && views.Keys == plans.Keys && (forall id :: id in plans ==> plans[id].View() == views[id])
      && Sound(p, views, views.Keys)
    }

    ghost predicate BuildOk(b: Building)
      reads this, b, plans.Values, b.plans.Values
    {
      && Closed(p)
      && plans.Keys !! b.plans.Keys && plans.Keys <= b.done
      && b.views.Keys == plans.Keys + b.plans.Keys
      && (forall id :: id in plans ==> plans[id].View() == b.views[id])
      && (forall id {:trigger b.plans[id].View()} :: id in b.plans ==> b.plans[id].View() == b.views[id])
      && b.done !! b.open && b.views.Keys == b.done + b.open
      && Sound(p, b.views, b.done)
    }

    /** The tag part of one field. */
    method CompileTag(f: Field) returns (r: Result<ValuePlan, CompileError>)
      requires Judged(f)
      ensures r.Ok? <==> FieldValid(p, f)
      ensures r.Ok? ==> Realizes(r.value, p, f.tag.rules, f.typ, Extra(f))
    {
      if f.tag.Malformed? {
        return Err(BadTag);
      }
      r := CompileRules(p, f.tag.rules, f.typ);
      if r.Ok? && f.pattern.Some? {
        if f.pattern.value.None? {
          return Err(BadPattern);
        }
        return Ok(r.value.(checks := r.value.checks + [f.pattern.value.value]));
      }
    }

    /** Compiles struct id into the building set, unless it is there already.
        Fails exactly when an invalid tag can be reached, and then says how. */
    method Compile(id: Id, b: Building) returns (r: Result<TypePlan, CompileError>, ghost chain: seq<Id>)
      requires BuildOk(b) && id in p.types
      modifies b
      ensures r.Err? ==> Faulty(p, chain) && chain[0] == id
      ensures r.Ok? ==> BuildOk(b) && b.Advanced({}) && b.open == old(b.open)
      ensures r.Ok? ==> id in b.views && r.value.View() == b.views[id]
      decreases p.types.Keys - b.views.Keys, 0
    {
      if id in plans {
        return Ok(plans[id]), [];
      }
      if id in b.plans {
        return Ok(b.plans[id]), [];
      }
      var plan := Begin(id, b);
      r, chain := CompileFields(id, plan, b);
    }

    method Begin(id: Id, b: Building) returns (plan: TypePlan)
      requires BuildOk(b) && id in p.types && id !in b.views
      modifies b
      ensures fresh(plan) && Open(id, plan, b) && CoversSoFar(id, b, 0)
      ensures b.Advanced({}) && b.open == old(b.open) + {id}
      ensures p.types.Keys - b.views.Keys < old(p.types.Keys - b.views.Keys)
    {
      plan := new TypePlan(Validatable(p.types[id]));
      b.plans := b.plans[id := plan];
      SoundUpdate(p, b.views, b.done, id, plan.View());
      CoversNothing(p, b.views.Keys + {id}, QuietSet(b.views, b.done), id);
      assert id in p.types.Keys - old(b.views.Keys);
      assert b.views[id := plan.View()].Keys == b.views.Keys + {id};
      b.views := b.views[id := plan.View()];
      b.open := b.open + {id};
    }

    /** The plan under construction stands alone at id. */
    ghost predicate Open(id: Id, plan: TypePlan, b: Building)
      reads this, b, plans.Values, b.plans.Values, plan
    {
      && BuildOk(b)
      && id in b.plans && b.plans[id] == plan && id in b.open
      && (forall x :: x in plans ==> plans[x] != plan)
      && (forall x :: x in b.plans && x != id ==> b.plans[x] != plan)
      && plan.View() == b.views[id] && plan.validatable == Validatable(p.types[id]) && plan.hasWork
    }

    ghost predicate CoversSoFar(id: Id, b: Building, n: nat)
      reads this, b
    {
      && b.done <= b.views.Keys && id in p.types && id in b.views && n <= |p.types[id].fields|
      && Covers(p, b.views.Keys, QuietSet(b.views, b.done), p.types[id].fields, b.views[id].fields, n)
    }

    method CompileFields(id: Id, plan: TypePlan, b: Building)
      returns (r: Result<TypePlan, CompileError>, ghost chain: seq<Id>)
      requires Open(id, plan, b) && CoversSoFar(id, b, 0)
      modifies b, plan
      ensures r.Err? ==> Faulty(p, chain) && chain[0] == id
      ensures r.Ok? ==> BuildOk(b) && b.Advanced({id}) && b.open == old(b.open) - {id}
      ensures r.Ok? ==> id in b.views && r.value.View() == b.views[id]
      decreases p.types.Keys - b.views.Keys, 3
    {
      var fields := p.types[id].fields;
      var i := 0;
      while i < |fields|
        invariant 0 <= i <= |fields|
        invariant Open(id, plan, b) && CoversSoFar(id, b, i)
        invariant b.Advanced({id}) && b.open == old(b.open)
      {
        var e;
        e, chain := CompileField(id, plan, i, b);
        if e.Some? {
          return Err(e.value), chain;
        }
        i := i + 1;
      }
      Finish(id, plan, b);
      return Ok(plan), [];
    }

    method Finish(id: Id, plan: TypePlan, b: Building)
      requires Open(id, plan, b) && CoversSoFar(id, b, |p.types[id].fields|)
      modifies b`views, b`done, b`open, plan
      ensures BuildOk(b) && b.Advanced({id}) && b.open == old(b.open) - {id}
      ensures id in b.views && plan.View() == b.views[id]
    {
      ghost var w := PlanView(plan.fields, plan.validatable, |plan.fields| > 0 || plan.validatable);
      SoundFinish(p, b.views, b.done, id, w);
      assert b.views[id := w].Keys == b.views.Keys;
      plan.hasWork := |plan.fields| > 0 || plan.validatable;
      b.views := b.views[id := w];
      b.done, b.open := b.done + {id}, b.open - {id};
      assert plan.View() == w;
    }

    method CompileField(id: Id, plan: TypePlan, i: nat, b: Building)
      returns (e: Option<CompileError>, ghost chain: seq<Id>)
      requires Open(id, plan, b) && i < |p.types[id].fields| && CoversSoFar(id, b, i)
      modifies b, plan
      ensures e.Some? ==> Faulty(p, chain) && chain[0] == id
      ensures e.None? ==> Open(id, plan, b) && CoversSoFar(id, b, i + 1)
      ensures e.None? ==> b.Advanced({id}) && b.open == old(b.open)
      decreases p.types.Keys - b.views.Keys, 2
    {
      var f := p.types[id].fields[i];
      if !f.visible || f.tag.Ignored? {
        return None, [];
      }
      var vp := CompileTag(f);
      if vp.Err? {
        return Some(vp.error), [id];
      }
      var nested;
      nested, chain := MayNeedValidation(f.typ, b);
      if nested.Err? {
        FaultyFrom(p, id, chain);
        return Some(nested.error), [id] + chain;
      }
      CoversGrow(p, old(b.views.Keys), old(QuietSet(b.views, b.done)), b.views.Keys, QuietSet(b.views, b.done),
                 p.types[id].fields, b.views[id].fields, i);
      AddField(id, plan, FieldPlan(i, f.name, vp.value, nested.value), b);
      return None, [];
    }

    /** Keeps the field unless there is nothing to do for it. */
    method AddField(id: Id, plan: TypePlan, fp: FieldPlan, b: Building)
      requires Open(id, plan, b) && fp.index < |p.types[id].fields| && CoversSoFar(id, b, fp.index)
      requires Faithful(p, b.views.Keys, QuietSet(b.views, b.done), p.types[id].fields[fp.index], fp)
      modifies b`views, plan
      ensures Open(id, plan, b) && CoversSoFar(id, b, fp.index + 1)
      ensures b.Advanced({id}) && b.open == old(b.open)
    {
      var fields := p.types[id].fields;
      if fp.nested || fp.checks.required || |fp.checks.checks| > 0 || fp.checks.dive.Some? {
        CoversKeep(p, b.views.Keys, QuietSet(b.views, b.done), fields, plan.fields, fp);
        plan.fields := plan.fields + [fp];
      } else {
        CoversSkip(p, b.views.Keys, QuietSet(b.views, b.done), fields, plan.fields, fp.index);
      }
      SoundUpdate(p, b.views, b.done, id, plan.View());
      assert b.views[id := plan.View()].Keys == b.views.Keys;
      b.views := b.views[id := plan.View()];
    }

    method MayNeedValidation(t: Type, b: Building) returns (r: Result<bool, CompileError>, ghost chain: seq<Id>)
      requires BuildOk(b) && (Base(t).Some? ==> Base(t).value in p.types)
      modifies b
      ensures r.Err? ==> Faulty(p, chain) && Base(t) == Some(chain[0])
      ensures r.Ok? ==> BuildOk(b) && b.Advanced({}) && b.open == old(b.open)
      ensures r.Ok? ==> if r.value then Base(t).Some? && Base(t).value in b.views
                        else Quiet(t, QuietSet(b.views, b.done))
      decreases p.types.Keys - b.views.Keys, 1, t
    {
      match t
      case Struct(id) =>
        var plan;
        plan, chain := Compile(id, b);
        if plan.Err? {
          return Err(plan.error), chain;
        }
        return Ok(plan.value.hasWork), [];
      case Scalar => return Ok(false), [];
      case Interface => return Ok(false), [];
      case _ =>
        r, chain := MayNeedValidation(t.elem, b);
    }

    // ------------------------------------------------------------ the cache

    /** The plan for a struct, compiled on first use. Fails exactly when a
        struct with an invalid tag can be reached; nothing is cached then. */
    method Plan(id: Id) returns (r: Result<TypePlan, CompileError>, ghost chain: seq<Id>)
      requires Ready() && id in p.types
      modifies this
      ensures Ready()
      ensures r.Err? ==> Faulty(p, chain) && chain[0] == id && plans == old(plans)
      ensures r.Ok? ==> id in plans && plans[id] == r.value
      ensures r.Ok? ==> forall c :: c != [] && c[0] == id ==> !Faulty(p, c)
    {
      if id in plans {
        NoFault(p, views, id);
        return Ok(plans[id]), [];
      }
      var b := new Building(views);
      r, chain := Compile(id, b);
      if r.Err? {
        return r, chain;
      }
      assert b.done == b.views.Keys;
      plans := plans + b.plans;
      views := b.views;
      NoFault(p, views, id);
      return Ok(plans[id]), [];
    }

    // --------------------------------------------------------------- running

    method ValidateStruct(v: Value, a: Place, plan: TypePlan, path: string, errs: Errors)
      requires Ready() && v.Record? && v.id in plans && plan == plans[v.id] && HasType(p, v, Struct(v.id))
      modifies errs
      ensures errs.list == old(errs.list) + Read(p, v, a, path)
      decreases v, 2
    {
      var k := 0;
      while k < |plan.fields|
        invariant 0 <= k <= |plan.fields| && Reached(plan.fields, k) <= |v.fields|
        invariant errs.list + ReadFields(p, v, Reached(plan.fields, k), a, path)
          == old(errs.list) + ReadFields(p, v, 0, a, path)
      {
        var fp := plan.fields[k];
        NextPlanned(p, views, v, k, a, path, errs.list);
        ValidateField(v.fields[fp.index], a, fp, path, errs, p.types[v.id].fields[fp.index]);
        k := k + 1;
      }
      LastPlanned(p, views, v, a, path, errs.list);
      Append3(old(errs.list), ReadFields(p, v, 0, a, path), Custom(p, v, a, path));
      if plan.validatable {
        RunValidatable(v, a, path, errs);
      }
    }

    method ValidateField(v: Value, a: Place, fp: FieldPlan, path: string, errs: Errors, ghost f: Field)
      requires Ready() && Faithful(p, views.Keys, QuietSet(views, views.Keys), f, fp) && HasType(p, v, f.typ)
      modifies errs
      ensures errs.list == old(errs.list) + ReadField(p, f, v, a, path)
      decreases v, 4
    {
      ghost var verdict := Judge(p, f.tag.rules, f.typ, Extra(f), v, path, f.name);
      ghost var deep := Look(p, f.typ, v, a, JoinPath(path, f.name));
      assert ReadField(p, f, v, a, path) == verdict.errors + (if verdict.passed then deep else []);
      Append3(errs.list, verdict.errors, if verdict.passed then deep else []);
      var passed := ApplyValuePlan(v, fp.checks, path, fp.name, errs, p, f.tag.rules, f.typ, Extra(f));
      if passed && fp.nested {
        ValidateNested(v, a, JoinPath(path, fp.name), errs, f.typ);
      }
      if !fp.nested {
        QuietLook(p, views, views.Keys, f.typ, v, a, JoinPath(path, f.name));
      }
    }

    method RunValidatable(v: Value, a: Place, path: string, errs: Errors)
      requires v.Record? && v.id in p.types && Validatable(p.types[v.id])
      modifies errs
      ensures errs.list == old(errs.list) + Custom(p, v, a, path)
    {
      if !Runs(p.types[v.id].receiver, a) {
        return;
      }
      var es := p.custom(v);
      var i := 0;
      while i < |es|
        invariant 0 <= i <= |es|
        invariant errs.list == old(errs.list) + Located(es, path)[..i]
      {
        errs.Add(es[i].(field := JoinPath(path, es[i].field)));
        i := i + 1;
      }
    }

    method ValidateNested(v: Value, a: Place, path: string, errs: Errors, ghost t: Type)
      requires Ready() && HasType(p, v, t) && Base(t).Some? && Base(t).value in plans
      modifies errs
      ensures errs.list == old(errs.list) + Look(p, t, v, a, path)
      decreases v, 3
    {
      DerefLook(p, t, v, a, path);
      var d := Deref(v);
      if d.None? {
        return;
      }
      var dv, da := d.value, DerefPlace(v, a);
      if dv.Record? {
        var plan := plans[dv.id];
        if !plan.hasWork {
          QuietRead(p, views, views.Keys, dv, da, path);
          return;
        }
        ValidateStruct(dv, da, plan, path, errs);
      } else {
        ghost var et := Unpointer(t).elem;
        var i := 0;
        while i < Count(dv)
          invariant 0 <= i <= Count(dv)
          invariant errs.list + LookItems(p, et, dv, i, ItemPlace(dv, da), path)
            == old(errs.list) + LookItems(p, et, dv, 0, ItemPlace(dv, da), path)
        {
          LookItemsStep(p, et, dv, i, ItemPlace(dv, da), path, errs.list);
          ValidateNested(Item(dv, i), ItemPlace(dv, da), ItemPath(dv, i, path), errs, et);
          i := i + 1;
        }
      }
    }

    /** Validator.Struct: the errors of a value are those of the direct reading
        of its tags; a type is refused exactly when an invalid tag is reachable. */
    method Check(x: Value) returns (r: Report)
      requires Ready()
      requires Deref(x).Some? && Deref(x).value.Record? ==> HasType(p, Deref(x).value, Struct(Deref(x).value.id))
      modifies this
      ensures Ready()
      ensures r.NotAStruct? <==> Deref(x).None? || !Deref(x).value.Record?
      ensures r.BadType? ==> exists c :: Faulty(p, c) && c[0] == Deref(x).value.id
      ensures r.Checked? ==> forall c :: c != [] && c[0] == Deref(x).value.id ==> !Faulty(p, c)
      ensures r.Checked? ==> r.errors == Read(p, Deref(x).value, DerefPlace(x, Loose), "")
    {
      var d := Deref(x);
      if d.None? || !d.value.Record? {
        return NotAStruct;
      }
      var plan, chain := Plan(d.value.id);
      if plan.Err? {
        return BadType(plan.error);
      }
      var errs := new Errors();
      ValidateStruct(d.value, DerefPlace(x, Loose), plan.value, "", errs);
      return Checked(errs.list);
    }
  }

  // -------------------------------------------------------- supporting facts

  /** A struct with a finished plan has valid tags, and leads to such structs. */
  lemma PlannedNext(p: Program, views: map<Id, PlanView>, a: Id)
    requires Sound(p, views, views.Keys) && a in views
    ensures a in p.types && StructValid(p, a)
    ensures forall b :: Leads(p, a, b) ==> b in views
  {
    assert PlanOk(p, views.Keys, QuietSet(views, views.Keys), a, views[a]);
  }

  lemma {:induction false} PlannedChain(p: Program, views: map<Id, PlanView>, c: seq<Id>)
    requires Sound(p, views, views.Keys) && c != [] && c[0] in views
    requires forall i :: 0 <= i < |c| - 1 ==> Leads(p, c[i], c[i+1])
    ensures c[|c|-1] in views
  {
    if |c| > 1 {
      PlannedNext(p, views, c[0]);
      assert Leads(p, c[0], c[0+1]);
      PlannedChain(p, views, c[1..]);
    }
  }

  /** From a struct with a finished plan no invalid tag can be reached. */
  lemma NoFaultChain(p: Program, views: map<Id, PlanView>, c: seq<Id>)
    requires Sound(p, views, views.Keys) && c != [] && c[0] in views
    ensures !Faulty(p, c)
  {
    if forall i :: 0 <= i < |c| - 1 ==> Leads(p, c[i], c[i+1]) {
      PlannedChain(p, views, c);
      PlannedNext(p, views, c[|c|-1]);
    }
  }

  lemma NoFault(p: Program, views: map<Id, PlanView>, id: Id)
    requires Sound(p, views, views.Keys) && id in views
    ensures forall c :: c != [] && c[0] == id ==> !Faulty(p, c)
  {
    forall c | c != [] && c[0] == id ensures !Faulty(p, c) {
      NoFaultChain(p, views, c);
    }
  }

  /** A field left out of the plan contributes nothing. */
  lemma SkipOne(p: Program, views: map<Id, PlanView>, v: Value, n: nat, a: Place, path: string)
    requires Sound(p, views, views.Keys) && v.Record? && v.id in views && |v.fields| == |p.types[v.id].fields|
    requires n < |v.fields| && !Planned(views[v.id].fields, n)
    ensures ReadFields(p, v, n, a, path) == ReadFields(p, v, n + 1, a, path)
  {
    assert PlanOk(p, views.Keys, QuietSet(views, views.Keys), v.id, views[v.id]);
    IdleField(p, views, views.Keys, p.types[v.id].fields[n], v.fields[n], a, path);
    assert [] + ReadFields(p, v, n + 1, a, path) == ReadFields(p, v, n + 1, a, path);
  }

  lemma {:induction false} SkipIdle(p: Program, views: map<Id, PlanView>, v: Value, n: nat, m: nat, a: Place,
    path: string)
    requires Sound(p, views, views.Keys) && v.Record? && v.id in views && |v.fields| == |p.types[v.id].fields|
    requires n <= m <= |v.fields| && forall i :: n <= i < m ==> !Planned(views[v.id].fields, i)
    ensures ReadFields(p, v, n, a, path) == ReadFields(p, v, m, a, path)
    decreases m - n
  {
    if n < m {
      SkipOne(p, views, v, n, a, path);
      SkipIdle(p, views, v, n + 1, m, a, path);
    }
  }

  /** How many fields are accounted for after k field plans. */
  ghost function Reached(plan: seq<FieldPlan>, k: nat): nat
    requires k <= |plan|
  {
    if k == 0 then 0 else plan[k-1].index + 1
  }

  ghost predicate Increasing(plan: seq<FieldPlan>) {
    forall a, b :: 0 <= a < b < |plan| ==> plan[a].index < plan[b].index
  }

  lemma GapUnplanned(plan: seq<FieldPlan>, k: nat, i: nat)
    requires Increasing(plan) && k <= |plan| && Reached(plan, k) <= i && (k < |plan| ==> i < plan[k].index)
    ensures !Planned(plan, i)
  {
  }

  lemma NextPlanned(p: Program, views: map<Id, PlanView>, v: Value, k: nat, a: Place, path: string,
    before: seq<FieldError>)
    requires Sound(p, views, views.Keys) && v.Record? && v.id in views && |v.fields| == |p.types[v.id].fields|
    requires k < |views[v.id].fields|
    ensures var fp := views[v.id].fields[k];
      && Reached(views[v.id].fields, k) <= fp.index < |v.fields|
      && Faithful(p, views.Keys, QuietSet(views, views.Keys), p.types[v.id].fields[fp.index], fp)
      && before + ReadFields(p, v, Reached(views[v.id].fields, k), a, path)
      == before + ReadField(p, p.types[v.id].fields[fp.index], v.fields[fp.index], a, path)
        + ReadFields(p, v, fp.index + 1, a, path)
  {
    var plan := views[v.id].fields;
    assert PlanOk(p, views.Keys, QuietSet(views, views.Keys), v.id, views[v.id]);
    var n, m := Reached(plan, k), plan[k].index;
    forall i | n <= i < m ensures !Planned(plan, i) { GapUnplanned(plan, k, i); }
    SkipIdle(p, views, v, n, m, a, path);
    ReadFieldsStep(p, v, m, a, path, before);
  }

  lemma ReadFieldsStep(p: Program, v: Value, i: nat, a: Place, path: string, before: seq<FieldError>)
    requires v.Record? && v.id in p.types && |v.fields| == |p.types[v.id].fields| && i < |v.fields|
    requires Judged(p.types[v.id].fields[i])
    ensures before + ReadFields(p, v, i, a, path)
         == before + ReadField(p, p.types[v.id].fields[i], v.fields[i], a, path) + ReadFields(p, v, i + 1, a, path)
  {
  }

  lemma LastPlanned(p: Program, views: map<Id, PlanView>, v: Value, a: Place, path: string, before: seq<FieldError>)
    requires Sound(p, views, views.Keys) && v.Record? && v.id in views && |v.fields| == |p.types[v.id].fields|
    ensures Reached(views[v.id].fields, |views[v.id].fields|) <= |v.fields|
    ensures before + ReadFields(p, v, Reached(views[v.id].fields, |views[v.id].fields|), a, path) == before
    ensures views[v.id].validatable == Validatable(p.types[v.id])
  {
    assert PlanOk(p, views.Keys, QuietSet(views, views.Keys), v.id, views[v.id]);
    var plan := views[v.id].fields;
    forall i | Reached(plan, |plan|) <= i < |v.fields| ensures !Planned(plan, i) { GapUnplanned(plan, |plan|, i); }
    SkipIdle(p, views, v, Reached(plan, |plan|), |v.fields|, a, path);
  }

  lemma LookItemsStep(p: Program, t: Type, v: Value, i: nat, a: Place, path: string, before: seq<FieldError>)
    requires HasItems(v) && i < Count(v)
    ensures before + LookItems(p, t, v, i, a, path)
         == before + Look(p, t, Item(v, i), a, ItemPath(v, i, path)) + LookItems(p, t, v, i + 1, a, path)
  {
  }

  /** Following pointers in the value follows pointers in its type. */
  lemma {:induction false} DerefLook(p: Program, t: Type, v: Value, a: Place, path: string)
    requires HasType(p, v, t) && Base(t).Some?
    ensures Deref(v).None? ==> Look(p, t, v, a, path) == []
    ensures Deref(v).Some? ==>
      Look(p, t, v, a, path) == Look(p, Unpointer(t), Deref(v).value, DerefPlace(v, a), path)
        && HasType(p, Deref(v).value, Unpointer(t))
    ensures Base(Unpointer(t)) == Base(t)
    decreases v
  {
    if t.Pointer? && v.Ref? { DerefLook(p, t.elem, v.target, Onto(a, Addressable), path); }
    if t.Pointer? && v.Nil? { UnpointerBase(t); }
  }

  lemma {:induction false} UnpointerBase(t: Type)
    ensures Base(Unpointer(t)) == Base(t)
  {
    if t.Pointer? { UnpointerBase(t.elem); }
  }
}
