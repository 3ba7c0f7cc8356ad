/** What `validate` tags ask of the values they reach, said by position: a chain
    of item indices leads from a field's value to one of its items, or to an item
    of that, and the rules between two dives are for the values that many items
    down. */
module Judging {
  import opened Common
  import opened Positions
  import opened Text
  import opened Validate

  // ------------------------------------------------------------- the tag

  ghost predicate NoDive(rules: seq<Rule>) { forall r :: r in rules ==> r.name != "dive" }

  /** A tag is the rules for the value itself and, behind the first dive, those
      for its items. */
  lemma {:induction false} DiveSplits(rules: seq<Rule>)
    ensures NoDive(Own(rules))
    ensures Inner(rules) == None ==> rules == Own(rules)
    ensures Inner(rules).Some? ==>
      |Own(rules)| < |rules| && rules[|Own(rules)|].name == "dive"
      && rules == Own(rules) + [rules[|Own(rules)|]] + Inner(rules).value
  {
    if rules != [] && rules[0].name != "dive" {
      DiveSplits(rules[1..]);
      assert rules == [rules[0]] + rules[1..];
    }
  }

  /** The dives among the first i rules. */
  function Dives(rules: seq<Rule>, i: nat): nat
    requires i <= |rules|
  {
    if i == 0 then 0 else Dives(rules, i - 1) + if rules[i-1].name == "dive" then 1 else 0
  }

  /** The type n items down, through pointers. */
  function Below(t: Type, n: nat): Type
    decreases n
  {
    var u := Unpointer(t);
    if n == 0 || !IsCollection(u) then u else Below(u.elem, n - 1)
  }

  /** Rule i can be used on the values it is for: a dive if they have items, a
      check if it is registered and takes its parameter for their type. */
  ghost predicate Usable(p: Program, rules: seq<Rule>, t: Type, i: nat)
    requires i < |rules|
  {
    var u, r := Below(t, Dives(rules, i)), rules[i];
    match r.name
    case "required" => true
    case "omitempty" => true
    case "dive" => IsCollection(u)
    case _ => r.name in p.factories && p.factories[r.name](r.param, u).Some?
  }

  ghost predicate AllUsable(p: Program, rules: seq<Rule>, t: Type, from: nat, to: nat)
    requires to <= |rules|
  {
    forall i :: from <= i < to ==> Usable(p, rules, t, i)
  }

  /** A tag is in order exactly if all its rules can be used. */
  lemma {:induction false} RulesValidIs(p: Program, rules: seq<Rule>, t: Type)
    ensures RulesValid(p, rules, t) <==> forall i :: 0 <= i < |rules| ==> Usable(p, rules, t, i)
    decreases |rules|
  {
    var n, u := |Own(rules)|, Unpointer(t);
    DiveSplits(rules);
    OwnUsable(p, rules, t);
    if Inner(rules).Some? {
      assert AllUsable(p, rules, t, 0, |rules|) <==>
        AllUsable(p, rules, t, 0, n) && Usable(p, rules, t, n) && AllUsable(p, rules, t, n + 1, |rules|);
      if IsCollection(u) {
        RulesValidIs(p, Inner(rules).value, u.elem);
        InnerUsable(p, rules, t);
      }
    }
    assert AllUsable(p, rules, t, 0, |rules|) <==> forall i :: 0 <= i < |rules| ==> Usable(p, rules, t, i);
  }

  lemma OwnUsable(p: Program, rules: seq<Rule>, t: Type)
    ensures |Own(rules)| <= |rules|
    ensures AllUsable(p, rules, t, 0, |Own(rules)|) <==> AllKnown(p, Own(rules), Unpointer(t))
    ensures Inner(rules).Some? ==>
      |Own(rules)| < |rules| && (Usable(p, rules, t, |Own(rules)|) <==> IsCollection(Unpointer(t)))
  {
    var own, u := Own(rules), Unpointer(t);
    DiveSplits(rules);
    forall i | 0 <= i < |own| ensures Usable(p, rules, t, i) <==> OneKnown(p, own[i], u) { OneOwn(p, rules, t, i); }
    assert AllKnown(p, own, u) <==> forall i :: 0 <= i < |own| ==> OneKnown(p, own[i], u);
    if Inner(rules).Some? {
      assert forall k :: 0 <= k < |own| ==> own[k] == rules[k] && own[k] in own;
      DivesBefore(rules, |own|);
      UsableHere(p, rules, t, |own|);
    }
  }

  lemma OneOwn(p: Program, rules: seq<Rule>, t: Type, i: nat)
    requires i < |Own(rules)|
    ensures i < |rules| && (Usable(p, rules, t, i) <==> OneKnown(p, Own(rules)[i], Unpointer(t)))
  {
    DiveSplits(rules);
    assert forall k :: 0 <= k < |Own(rules)| ==> Own(rules)[k] == rules[k] && Own(rules)[k] in Own(rules);
    DivesBefore(rules, i);
    UsableHere(p, rules, t, i);
  }

  predicate OneKnown(p: Program, r: Rule, u: Type) { IsCheck(r) ==> Known(p, r, u) }

  lemma UsableHere(p: Program, rules: seq<Rule>, t: Type, i: nat)
    requires i < |rules| && Dives(rules, i) == 0
    ensures Usable(p, rules, t, i) <==>
      if rules[i].name == "dive" then IsCollection(Unpointer(t)) else OneKnown(p, rules[i], Unpointer(t))
  {
    assert Below(t, 0) == Unpointer(t);
  }

  lemma InnerUsable(p: Program, rules: seq<Rule>, t: Type)
    requires Inner(rules).Some? && IsCollection(Unpointer(t)) && |Own(rules)| + 1 <= |rules|
    ensures AllUsable(p, rules, t, |Own(rules)| + 1, |rules|) <==>
      AllUsable(p, Inner(rules).value, Unpointer(t).elem, 0, |Inner(rules).value|)
  {
    var n, inner, e := |Own(rules)| + 1, Inner(rules).value, Unpointer(t).elem;
    DiveSplits(rules);
    forall i | n <= i < |rules| ensures Usable(p, rules, t, i) <==> Usable(p, inner, e, i - n) {
      UsableDeeper(p, rules, t, i - n);
    }
    if AllUsable(p, rules, t, n, |rules|) {
      forall j | 0 <= j < |inner| ensures Usable(p, inner, e, j) { assert Usable(p, rules, t, n + j); }
    }
  }

  lemma UsableDeeper(p: Program, rules: seq<Rule>, t: Type, j: nat)
    requires Inner(rules).Some? && IsCollection(Unpointer(t)) && j < |Inner(rules).value|
    requires |Own(rules)| + 1 + j < |rules|
    ensures Usable(p, rules, t, |Own(rules)| + 1 + j) <==> Usable(p, Inner(rules).value, Unpointer(t).elem, j)
  {
    DivesBehind(rules, j);
    var n := Dives(Inner(rules).value, j);
    assert Below(t, 1 + n) == Below(Unpointer(t).elem, n);
  }

  lemma {:induction false} DivesBefore(rules: seq<Rule>, i: nat)
    requires i <= |Own(rules)| <= |rules| && forall k :: 0 <= k < |Own(rules)| ==> rules[k].name != "dive"
    ensures Dives(rules, i) == 0
  {
    if i > 0 { DivesBefore(rules, i - 1); }
  }

  lemma {:induction false} DivesBehind(rules: seq<Rule>, j: nat)
    requires Inner(rules).Some? && j <= |Inner(rules).value|
    ensures |Own(rules)| + 1 + j <= |rules| && Dives(rules, |Own(rules)| + 1 + j) == 1 + Dives(Inner(rules).value, j)
    ensures j < |Inner(rules).value| ==>
      |Own(rules)| + 1 + j < |rules| && Inner(rules).value[j] == rules[|Own(rules)|+1+j]
  {
    var n := |Own(rules)|;
    DiveSplits(rules);
    assert forall k :: 0 <= k < n ==> rules[k] == Own(rules)[k] && Own(rules)[k] in Own(rules);
    if j == 0 { DivesBefore(rules, n); } else { DivesBehind(rules, j - 1); }
  }

  // ----------------------------------------------------------- one value

  /** v is w behind any number of pointers and interfaces. */
  ghost predicate Behind(v: Value, w: Value) {
    v == w || ((v.Ref? || v.Box?) && Behind(v.target, w))
  }

  lemma {:induction false} DerefIs(v: Value, w: Value)
    ensures Deref(v) == Some(w) <==> Behind(v, w) && !w.Nil? && !w.Ref? && !w.Box?
    ensures Deref(v) == None <==> Behind(v, Nil)
  {
    match v
    case Ref(x) => DerefIs(x, w);
    case Box(x) => DerefIs(x, w);
    case _ =>
  }

  /** There is nothing to hold to the rules: nil, or zero and allowed to be. */
  ghost predicate Absent(p: Program, own: seq<Rule>, v: Value) {
    Deref(v) == None || (Mentions(own, "omitempty") && p.zero(Deref(v).value))
  }

  /** A required value is absent or empty. */
  ghost predicate Lacking(p: Program, own: seq<Rule>, v: Value) {
    Mentions(own, "required") && (Absent(p, own, v) || p.empty(Deref(v).value))
  }

  /** The value passes rule i, if that is a check. */
  ghost predicate Meets(p: Program, own: seq<Rule>, t: Type, i: nat, v: Value)
    requires i < |own|
  {
    IsCheck(own[i]) && Known(p, own[i], t) ==> p.factories[own[i].name](own[i].param, t).value(v)
  }

  ghost predicate MeetsUpTo(p: Program, own: seq<Rule>, t: Type, n: nat, v: Value)
    requires n <= |own|
  {
    forall i :: 0 <= i < n ==> Meets(p, own, t, i, v)
  }

  ghost predicate PassesUpTo(extra: seq<Check>, n: nat, v: Value)
    requires n <= |extra|
  {
    forall i :: 0 <= i < n ==> extra[i].fn(v)
  }

  /** The value is there and passes everything. */
  ghost predicate Sound(p: Program, own: seq<Rule>, t: Type, extra: seq<Check>, v: Value) {
    && !Absent(p, own, v) && !Lacking(p, own, v)
    && MeetsUpTo(p, own, t, |own|, Deref(v).value) && PassesUpTo(extra, |extra|, Deref(v).value)
  }

  /** Rule i is the first check the value fails. */
  ghost predicate FirstFailed(p: Program, own: seq<Rule>, t: Type, i: nat, v: Value)
    requires i < |own|
  {
    MeetsUpTo(p, own, t, i, v) && !Meets(p, own, t, i, v)
  }

  ghost predicate FirstExtra(extra: seq<Check>, i: nat, v: Value)
    requires i < |extra|
  {
    PassesUpTo(extra, i, v) && !extra[i].fn(v)
  }

  /** The first thing wrong with a value that is there is this rule. */
  ghost predicate Fails(p: Program, own: seq<Rule>, t: Type, extra: seq<Check>, v: Value, rule: string, param: string) {
    if MeetsUpTo(p, own, t, |own|, v) then
      exists i :: 0 <= i < |extra| && FirstExtra(extra, i, v) && rule == extra[i].rule && param == extra[i].param
    else
      exists i :: 0 <= i < |own| && FirstFailed(p, own, t, i, v) && rule == own[i].name && param == own[i].param
  }

  /** The first thing wrong with the value is this rule. */
  ghost predicate Breaks(p: Program, own: seq<Rule>, t: Type, extra: seq<Check>, v: Value, rule: string, param: string)
  {
    if Lacking(p, own, v) then rule == "required" && param == ""
    else !Absent(p, own, v) && Fails(p, own, t, extra, Deref(v).value, rule, param)
  }

  // ----------------------------------------------------------- positions

  /** The value at a position, as the tag sees it, is come to: every value
      further out is sound, has items, and there are rules for them. */
  ghost predicate Reached(p: Program, rules: seq<Rule>, t: Type, extra: seq<Check>, v: Value, c: Position)
    requires RulesValid(p, rules, t)
    decreases |c|
  {
    c == [] || (
      && Sound(p, Own(rules), Unpointer(t), extra, v) && Inner(rules).Some?
      && HasItems(Deref(v).value) && c[0] < Count(Deref(v).value)
      && Reached(p, Inner(rules).value, Unpointer(t).elem, [], Item(Deref(v).value, c[0]), c[1..]))
  }

  /** At a position that is come to, this is the first thing wrong. */
  ghost predicate BreaksAt(p: Program, rules: seq<Rule>, t: Type, extra: seq<Check>, v: Value, c: Position,
    rule: string, param: string)
    requires RulesValid(p, rules, t) && Reached(p, rules, t, extra, v, c)
    decreases |c|
  {
    if c == [] then Breaks(p, Own(rules), Unpointer(t), extra, v, rule, param)
    else BreaksAt(p, Inner(rules).value, Unpointer(t).elem, [], Item(Deref(v).value, c[0]), c[1..], rule, param)
  }

  /** Where the report says a value is: an index or a key in brackets for every
      step. */
  ghost function PathTo(v: Value, c: Position, here: string): string
    decreases |c|
  {
    if c == [] || Deref(v) == None || !HasItems(Deref(v).value) || c[0] >= Count(Deref(v).value) then here
    else
      var d := Deref(v).value;
      PathTo(Item(d, c[0]), c[1..], here + "[" + (if d.List? then Decimal(c[0]) else d.entries[c[0]].key) + "]")
  }

  /** Something is wrong at position c, and e says what. */
  ghost predicate Reports(p: Program, rules: seq<Rule>, t: Type, extra: seq<Check>, v: Value, here: string, c: Position,
    e: FieldError)
    requires RulesValid(p, rules, t)
  {
    Reached(p, rules, t, extra, v, c) && BreaksAt(p, rules, t, extra, v, c, e.rule, e.param)
      && e.field == PathTo(v, c, here)
  }

  ghost function Reporting(p: Program, rules: seq<Rule>, t: Type, extra: seq<Check>, v: Value, here: string): Saying
    requires RulesValid(p, rules, t)
  {
    (c: Position, e: FieldError) => Reports(p, rules, t, extra, v, here, c, e)
  }

  // ------------------------------------------------------------- the proof

  lemma {:induction false} FailingIs(checks: seq<Check>, v: Value)
    ensures Failing(checks, v) == None <==> PassesUpTo(checks, |checks|, v)
    ensures Failing(checks, v).Some? ==>
      exists i :: 0 <= i < |checks| && FirstExtra(checks, i, v) && Failing(checks, v).value == checks[i]
  {
    if checks != [] {
      var rest := checks[1..];
      FailingIs(rest, v);
      assert forall i :: 0 <= i < |rest| ==> rest[i] == checks[i+1];
      if checks[0].fn(v) && Failing(rest, v).Some? {
        var i :| 0 <= i < |rest| && FirstExtra(rest, i, v) && Failing(rest, v).value == rest[i];
        assert FirstExtra(checks, i + 1, v);
      } else if !checks[0].fn(v) {
        assert FirstExtra(checks, 0, v);
      }
    }
  }

  ghost predicate AllKnown(p: Program, own: seq<Rule>, t: Type) {
    forall i :: 0 <= i < |own| && IsCheck(own[i]) ==> Known(p, own[i], t)
  }

  /** The compiled checks, in order, are the checks among the rules. */
  lemma {:induction false} FailingOwn(p: Program, own: seq<Rule>, t: Type, extra: seq<Check>, v: Value)
    requires AllKnown(p, own, t)
    ensures Failing(Checks(p, own, t) + extra, v) == None <==>
      MeetsUpTo(p, own, t, |own|, v) && PassesUpTo(extra, |extra|, v)
  {
    if own == [] {
      assert Checks(p, own, t) + extra == extra;
      FailingIs(extra, v);
    } else {
      FailingOwn(p, own[1..], t, extra, v);
      ChecksHead(p, own, t, extra, v);
      MeetsTail(p, own, t, v);
    }
  }

  lemma {:induction false} FailingSays(p: Program, own: seq<Rule>, t: Type, extra: seq<Check>, v: Value)
    requires AllKnown(p, own, t)
    ensures var f := Failing(Checks(p, own, t) + extra, v);
      f.Some? ==> Fails(p, own, t, extra, v, f.value.rule, f.value.param)
  {
    if own == [] {
      assert Checks(p, own, t) + extra == extra;
      FailingIs(extra, v);
    } else {
      FailingSays(p, own[1..], t, extra, v);
      ChecksHead(p, own, t, extra, v);
      if Meets(p, own, t, 0, v) {
        FailsTail(p, own, t, extra, v);
      } else {
        assert FirstFailed(p, own, t, 0, v);
      }
    }
  }

  lemma ChecksHead(p: Program, own: seq<Rule>, t: Type, extra: seq<Check>, v: Value)
    requires own != [] && AllKnown(p, own, t)
    ensures AllKnown(p, own[1..], t)
    ensures Failing(Checks(p, own, t) + extra, v) ==
      if Meets(p, own, t, 0, v) then Failing(Checks(p, own[1..], t) + extra, v) else Some(CheckOf(p, own[0], t))
  {
    var rest := Checks(p, own[1..], t);
    if IsCheck(own[0]) {
      var c := CheckOf(p, own[0], t);
      assert Checks(p, own, t) + extra == [c] + (rest + extra);
      assert ([c] + (rest + extra))[1..] == rest + extra;
    } else {
      assert Checks(p, own, t) == [] + rest == rest;
    }
  }

  lemma MeetsTail(p: Program, own: seq<Rule>, t: Type, v: Value)
    requires own != []
    ensures MeetsUpTo(p, own, t, |own|, v) <==> Meets(p, own, t, 0, v) && MeetsUpTo(p, own[1..], t, |own| - 1, v)
  {
    assert forall i :: 0 <= i < |own| - 1 ==> (Meets(p, own[1..], t, i, v) <==> Meets(p, own, t, i + 1, v));
    assert forall i :: 1 <= i < |own| ==> (Meets(p, own, t, i, v) <==> Meets(p, own[1..], t, i - 1, v));
  }

  lemma FailsTail(p: Program, own: seq<Rule>, t: Type, extra: seq<Check>, v: Value)
    requires own != [] && Meets(p, own, t, 0, v)
    ensures forall rule, param :: Fails(p, own[1..], t, extra, v, rule, param) ==>
      Fails(p, own, t, extra, v, rule, param)
  {
    var rest := own[1..];
    MeetsTail(p, own, t, v);
    forall rule, param | Fails(p, rest, t, extra, v, rule, param) ensures Fails(p, own, t, extra, v, rule, param) {
      if !MeetsUpTo(p, rest, t, |rest|, v) {
        var i :| 0 <= i < |rest| && FirstFailed(p, rest, t, i, v) && rule == rest[i].name && param == rest[i].param;
        forall k | 0 <= k < i + 1 ensures Meets(p, own, t, k, v) {
          if k > 0 { assert Meets(p, rest, t, k - 1, v); }
        }
        assert FirstFailed(p, own, t, i + 1, v);
      }
    }
  }

  /** Only one rule can be the first. */
  lemma BreaksOnce(p: Program, own: seq<Rule>, t: Type, extra: seq<Check>, v: Value, r1: string, p1: string,
    r2: string, p2: string)
    requires Breaks(p, own, t, extra, v, r1, p1) && Breaks(p, own, t, extra, v, r2, p2)
    ensures r1 == r2 && p1 == p2
  {
    if !Lacking(p, own, v) {
      var d := Deref(v).value;
      if MeetsUpTo(p, own, t, |own|, d) {
        var i :| 0 <= i < |extra| && FirstExtra(extra, i, d) && r1 == extra[i].rule && p1 == extra[i].param;
        var j :| 0 <= j < |extra| && FirstExtra(extra, j, d) && r2 == extra[j].rule && p2 == extra[j].param;
        assert i == j;
      } else {
        var i :| 0 <= i < |own| && FirstFailed(p, own, t, i, d) && r1 == own[i].name && p1 == own[i].param;
        var j :| 0 <= j < |own| && FirstFailed(p, own, t, j, d) && r2 == own[j].name && p2 == own[j].param;
        assert i == j;
      }
    }
  }

  /** What Judge makes of the value itself. */
  lemma JudgeOwn(p: Program, rules: seq<Rule>, t: Type, extra: seq<Check>, v: Value, parent: string, name: string)
    requires RulesValid(p, rules, t)
    ensures var own, u, j := Own(rules), Unpointer(t), Judge(p, rules, t, extra, v, parent, name);
      && (j.passed <==> Sound(p, own, u, extra, v))
      && (!j.passed ==> |j.errors| <= 1 && (j.errors == [] ==> Absent(p, own, v) && !Lacking(p, own, v)))
      && (!j.passed ==> forall e :: e in j.errors ==>
        Breaks(p, own, u, extra, v, e.rule, e.param) && e.field == JoinPath(parent, name))
      && (j.passed ==> j.errors == if Inner(rules).Some? && HasItems(Deref(v).value)
        then JudgeItems(p, Inner(rules).value, u.elem, Deref(v).value, 0, JoinPath(parent, name)) else [])
  {
    if !Absent(p, Own(rules), v) && !Lacking(p, Own(rules), v) {
      FailingOwn(p, Own(rules), Unpointer(t), extra, Deref(v).value);
      FailingSays(p, Own(rules), Unpointer(t), extra, Deref(v).value);
    }
  }

  lemma SoundBreaksNot(p: Program, own: seq<Rule>, t: Type, extra: seq<Check>, v: Value, rule: string, param: string)
    requires Sound(p, own, t, extra, v)
    ensures !Breaks(p, own, t, extra, v, rule, param)
  {
  }

  /** The reports on items, from the i-th on. */
  ghost function ItemReporting(p: Program, rules: seq<Rule>, t: Type, d: Value, i: nat, path: string): Saying
    requires RulesValid(p, rules, t) && HasItems(d)
  {
    (c: Position, e: FieldError) =>
      c != [] && i <= c[0] < Count(d) && Reports(p, rules, t, [], Item(d, c[0]), ItemPath(d, c[0], path), c[1..], e)
  }

  /** Reports further in are reports on items. */
  lemma ReportsInside(p: Program, rules: seq<Rule>, t: Type, extra: seq<Check>, v: Value, here: string, c: Position,
    e: FieldError)
    requires RulesValid(p, rules, t) && Sound(p, Own(rules), Unpointer(t), extra, v)
    requires Inner(rules).Some? && HasItems(Deref(v).value)
    ensures Reports(p, rules, t, extra, v, here, c, e) <==>
      ItemReporting(p, Inner(rules).value, Unpointer(t).elem, Deref(v).value, 0, here)(c, e)
  {
    var inner, s, d := Inner(rules).value, Unpointer(t).elem, Deref(v).value;
    if c == [] {
      SoundBreaksNot(p, Own(rules), Unpointer(t), extra, v, e.rule, e.param);
    } else if c[0] < Count(d) {
      assert ItemPath(d, c[0], here) == here + "[" + (if d.List? then Decimal(c[0]) else d.entries[c[0]].key) + "]";
      assert PathTo(v, c, here) == PathTo(Item(d, c[0]), c[1..], ItemPath(d, c[0], here));
      assert Reached(p, rules, t, extra, v, c) <==> Reached(p, inner, s, [], Item(d, c[0]), c[1..]);
    }
  }

  lemma ReportsNowhere(p: Program, rules: seq<Rule>, t: Type, extra: seq<Check>, v: Value, here: string, c: Position,
    e: FieldError)
    requires RulesValid(p, rules, t) && Sound(p, Own(rules), Unpointer(t), extra, v)
    requires !(Inner(rules).Some? && HasItems(Deref(v).value))
    ensures !Reports(p, rules, t, extra, v, here, c, e)
  {
    if c == [] { SoundBreaksNot(p, Own(rules), Unpointer(t), extra, v, e.rule, e.param); }
  }

  /** The reports on item i, then those on the later ones. */
  lemma ItemsJoin(p: Program, rules: seq<Rule>, t: Type, d: Value, i: nat, path: string,
    es: seq<FieldError>, cs: seq<Position>, es': seq<FieldError>, cs': seq<Position>)
    requires RulesValid(p, rules, t) && HasItems(d) && i < Count(d)
    requires Full(Reporting(p, rules, t, [], Item(d, i), ItemPath(d, i, path)), es, cs)
    requires Full(ItemReporting(p, rules, t, d, i + 1, path), es', cs')
    ensures Full(ItemReporting(p, rules, t, d, i, path), es + es', Prefixed(i, cs) + cs')
  {
    var first := Reporting(p, rules, t, [], Item(d, i), ItemPath(d, i, path));
    var rest, all := ItemReporting(p, rules, t, d, i + 1, path), ItemReporting(p, rules, t, d, i, path);
    FullNext(i, first, rest, es, cs, es', cs');
    FullSame(Either(Under(i, first), rest), all, es + es', Prefixed(i, cs) + cs');
  }

  lemma ItemsAre(p: Program, rules: seq<Rule>, t: Type, d: Value, i: nat, path: string) returns (cs: seq<Position>)
    requires RulesValid(p, rules, t) && HasItems(d) && i <= Count(d)
    ensures Full(ItemReporting(p, rules, t, d, i, path), JudgeItems(p, rules, t, d, i, path), cs)
    decreases |rules|, Count(d) - i + 1
  {
    if i == Count(d) {
      cs := [];
    } else {
      var item, where := Item(d, i), ItemPath(d, i, path);
      assert where != "";
      var first := JudgeIs(p, rules, t, [], item, where, "");
      var rest := ItemsAre(p, rules, t, d, i + 1, path);
      ItemsJoin(p, rules, t, d, i, path, Judge(p, rules, t, [], item, where, "").errors, first,
        JudgeItems(p, rules, t, d, i + 1, path), rest);
      cs := Prefixed(i, first) + rest;
    }
  }

  /** The verdict on a value at position []. */
  lemma JudgeHere(p: Program, rules: seq<Rule>, t: Type, extra: seq<Check>, v: Value, here: string,
    errors: seq<FieldError>)
    returns (cs: seq<Position>)
    requires RulesValid(p, rules, t) && !Sound(p, Own(rules), Unpointer(t), extra, v) && |errors| <= 1
    requires errors == [] ==> Absent(p, Own(rules), v) && !Lacking(p, Own(rules), v)
    requires forall e :: e in errors ==>
      Breaks(p, Own(rules), Unpointer(t), extra, v, e.rule, e.param) && e.field == here
    ensures Full(Reporting(p, rules, t, extra, v, here), errors, cs)
  {
    cs := if errors == [] then [] else [[]];
    if errors != [] { assert errors[0] in errors; }
    forall c, e | Reports(p, rules, t, extra, v, here, c, e) ensures Listed(cs, errors, c, e) {
      assert c == [];
      if errors != [] {
        BreaksOnce(p, Own(rules), Unpointer(t), extra, v, errors[0].rule, errors[0].param, e.rule, e.param);
        assert cs[0] == c && errors[0] == e;
      }
    }
  }

  /** The law of tags. A value passes if it is sound. The errors are the reports,
      in order and one each, of the positions that are come to and where
      something is wrong: the value there is lacking, or fails a check. */
  lemma JudgeIs(p: Program, rules: seq<Rule>, t: Type, extra: seq<Check>, v: Value, parent: string, name: string)
    returns (cs: seq<Position>)
    requires RulesValid(p, rules, t)
    ensures Judge(p, rules, t, extra, v, parent, name).passed <==> Sound(p, Own(rules), Unpointer(t), extra, v)
    ensures var here := if parent == "" then name else if name == "" then parent else parent + "." + name;
      Full(Reporting(p, rules, t, extra, v, here), Judge(p, rules, t, extra, v, parent, name).errors, cs)
    decreases |rules|, 0
  {
    var here, j := JoinPath(parent, name), Judge(p, rules, t, extra, v, parent, name);
    JudgeOwn(p, rules, t, extra, v, parent, name);
    if !j.passed {
      cs := JudgeHere(p, rules, t, extra, v, here, j.errors);
    } else if Inner(rules).Some? && HasItems(Deref(v).value) {
      cs := ItemsAre(p, Inner(rules).value, Unpointer(t).elem, Deref(v).value, 0, here);
      ItemsWhole(p, rules, t, extra, v, here, j.errors, cs);
    } else {
      cs := [];
      forall c, e ensures !Reports(p, rules, t, extra, v, here, c, e) {
        ReportsNowhere(p, rules, t, extra, v, here, c, e);
      }
      FullNothing(Reporting(p, rules, t, extra, v, here));
    }
  }

  lemma ItemsWhole(p: Program, rules: seq<Rule>, t: Type, extra: seq<Check>, v: Value, here: string,
    errors: seq<FieldError>, cs: seq<Position>)
    requires RulesValid(p, rules, t) && Sound(p, Own(rules), Unpointer(t), extra, v)
    requires Inner(rules).Some? && HasItems(Deref(v).value)
    requires Full(ItemReporting(p, Inner(rules).value, Unpointer(t).elem, Deref(v).value, 0, here), errors, cs)
    ensures Full(Reporting(p, rules, t, extra, v, here), errors, cs)
  {
    var items := ItemReporting(p, Inner(rules).value, Unpointer(t).elem, Deref(v).value, 0, here);
    forall c, e ensures items(c, e) <==> Reporting(p, rules, t, extra, v, here)(c, e) {
      ReportsInside(p, rules, t, extra, v, here, c, e);
    }
    FullSame(items, Reporting(p, rules, t, extra, v, here), errors, cs);
  }
}
