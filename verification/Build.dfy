/** Registering providers, validating the graph and building the singletons. */
module Build {
  import opened Common
  import opened Container

  /** What running a constructor comes to. */
  datatype Made = Failed | NilValue | PlainValue | CloserValue | LifecycleValue

  datatype Owner = Registered(name: string) | Constructed(type_: Dep) | JobManager

  datatype Hook = Hook(owner: Owner, starts: bool, stops: bool)

  datatype Diag =
    | SingletonNeedsRequest(p: Provider)
    | MissingDep(p: Provider, dep: Dep)
    | SingletonCapturesRequest(p: Provider, dep: Dep)
    | DepCycle(walk: seq<Provider>)

  /** The problem one parameter of one provider poses, if any. */
  function Problem(g: Graph, p: Provider, dep: Dep): Option<Diag> {
    if dep == ContextPtr then (if p.scope == SingletonScope then Some(SingletonNeedsRequest(p)) else None)
    else if Builtin(dep) then None
    else if dep !in g then Some(MissingDep(p, dep))
    else if p.scope == SingletonScope && g[dep].scope == RequestScope then Some(SingletonCapturesRequest(p, dep))
    else None
  }

  /** What a diagnostic says is true of the graph. */
  ghost predicate Holds(g: Graph, d: Diag) {
    match d
    case SingletonNeedsRequest(p) => p in g.Values && p.scope == SingletonScope && ContextPtr in p.params
    case MissingDep(p, dep) => p in g.Values && dep in p.params && !Builtin(dep) && dep !in g
    case SingletonCapturesRequest(p, dep) =>
      && p in g.Values && p.scope == SingletonScope && dep in p.params && !Builtin(dep)
      && dep in g && g[dep].scope == RequestScope
    case DepCycle(walk) => ClosedWalk(g, walk)
  }

  /** A graph that can be built: no singleton asks for a request's context,
      whatever is asked for is built in or provided, no singleton asks for what
      belongs to a request, and nothing needs itself. */
  ghost predicate Sane(g: Graph) {
    && (forall p :: p in g.Values && p.scope == SingletonScope ==> ContextPtr !in p.params)
    && (forall p, dep :: p in g.Values && dep in p.params && !Builtin(dep) ==> dep in g)
    && (forall p, dep :: p in g.Values && p.scope == SingletonScope && dep in p.params && !Builtin(dep) && dep in g ==>
      g[dep].scope != RequestScope)
    && forall c :: !ClosedWalk(g, c)
  }

  /** The problems found are the ones there are. */
  lemma ProblemHolds(g: Graph, p: Provider, dep: Dep)
    requires p in g.Values && dep in p.params && Problem(g, p, dep).Some?
    ensures Holds(g, Problem(g, p, dep).value) && !Problem(g, p, dep).value.DepCycle?
  {
  }

  lemma HoldsPosed(g: Graph, d: Diag) returns (dep: Dep)
    requires Holds(g, d) && !d.DepCycle?
    ensures d.p in g.Values && dep in d.p.params && Problem(g, d.p, dep) == Some(d)
  {
    dep := if d.SingletonNeedsRequest? then ContextPtr else d.dep;
  }

  lemma SaneUnless(g: Graph)
    ensures Sane(g) <==> forall d :: !Holds(g, d)
  {
    if forall d :: !Holds(g, d) {
      forall p | p in g.Values && p.scope == SingletonScope ensures ContextPtr !in p.params {
        assert !Holds(g, SingletonNeedsRequest(p));
      }
      forall p, dep | p in g.Values && dep in p.params && !Builtin(dep) ensures dep in g {
        assert !Holds(g, MissingDep(p, dep));
      }
      forall p, dep | p in g.Values && p.scope == SingletonScope && dep in p.params && !Builtin(dep) && dep in g
        ensures g[dep].scope != RequestScope
      {
        assert !Holds(g, SingletonCapturesRequest(p, dep));
      }
      forall c ensures !ClosedWalk(g, c) { assert !Holds(g, DepCycle(c)); }
    }
  }

  // ------------------------------------------------------ construction order

  /** p's constructor takes what q provides. */
  ghost predicate Needs(g: Graph, p: Provider, q: Provider) { Edge(g, p, q) && !Builtin(q.out) }

  /** Supplied values are not made from anything. */
  ghost predicate Bare(g: Graph) { forall p :: p in g.Values && p.supplied ==> p.params == [] }

  /** w[0] is made, directly or by way of others, from the last of w. */
  ghost predicate Relies(g: Graph, w: seq<Provider>) {
    |w| >= 2 && w[0] in g.Values && forall i :: 0 <= i < |w| - 1 ==> Needs(g, w[i], w[i+1])
  }

  /** Each constructor ran once, after all it needs that had to be constructed. */
  ghost predicate InOrder(g: Graph, calls: seq<Provider>) {
    && Distinct(calls)
    && forall i, q :: 0 <= i < |calls| && Needs(g, calls[i], q) && !q.supplied ==> q in calls[..i]
  }

  lemma Earlier(g: Graph, first: seq<Provider>, k: nat, q: Provider) returns (j: nat)
    requires DepsFirst(g, first) && k < |first| && Edge(g, first[k], q)
    ensures j < k && first[j] == q && forall p :: p in first[..j+1] ==> p in first[..k]
  {
    j :| 0 <= j < k && first[j] == q;
  }

  lemma InOrderAppend(g: Graph, calls: seq<Provider>, p: Provider)
    requires InOrder(g, calls) && p !in calls && forall q :: Needs(g, p, q) && !q.supplied ==> q in calls
    ensures InOrder(g, calls + [p])
  {
    var calls' := calls + [p];
    forall i, q | 0 <= i < |calls'| && Needs(g, calls'[i], q) && !q.supplied ensures q in calls'[..i] {
      assert calls'[..i] == calls[..i];
      if i == |calls| { assert calls[..i] == calls; }
    }
  }

  /** Whatever a constructed value relies on was constructed before it. */
  lemma {:induction false} ReliedOnEarlier(g: Graph, calls: seq<Provider>, w: seq<Provider>, i: nat) returns (j: nat)
    requires InOrder(g, calls) && Bare(g) && Relies(g, w) && !w[|w|-1].supplied
    requires i < |calls| && calls[i] == w[0]
    ensures j < i && calls[j] == w[|w|-1]
    decreases |w|
  {
    assert Needs(g, w[0], w[1]);
    if |w| > 2 {
      assert Needs(g, w[1], w[2]) && w[1] in g.Values;
    }
    j :| 0 <= j < i && calls[j] == w[1];
    if |w| > 2 { j := ReliedOnEarlier(g, calls, w[1..], j); }
  }

  function HookFor(p: Provider, made: Made): seq<Hook> {
    match made
    case LifecycleValue => [Hook(Constructed(p.out), true, true)]
    case CloserValue => [Hook(Constructed(p.out), false, true)]
    case _ => []
  }

  /** The hooks of the constructed values, in construction order. */
  ghost function HooksOf(make: Provider -> Made, calls: seq<Provider>): seq<Hook> {
    if calls == [] then []
    else HooksOf(make, calls[..|calls|-1]) + HookFor(calls[|calls|-1], make(calls[|calls|-1]))
  }

  lemma HooksAppend(make: Provider -> Made, calls: seq<Provider>, p: Provider)
    ensures HooksOf(make, calls + [p]) == HooksOf(make, calls) + HookFor(p, make(p))
  {
    assert (calls + [p])[..|calls|] == calls;
  }

  /** Of the values constructed in turn, one that can be started and stopped brings
      one hook, one that can only be closed another, and any other none. */
  lemma HooksAre(make: Provider -> Made, calls: seq<Provider>, p: Provider)
    ensures HooksOf(make, []) == []
    ensures make(p) == LifecycleValue ==>
      HooksOf(make, calls + [p]) == HooksOf(make, calls) + [Hook(Constructed(p.out), true, true)]
    ensures make(p) == CloserValue ==>
      HooksOf(make, calls + [p]) == HooksOf(make, calls) + [Hook(Constructed(p.out), false, true)]
    ensures make(p) != LifecycleValue && make(p) != CloserValue ==> HooksOf(make, calls + [p]) == HooksOf(make, calls)
  {
    HooksAppend(make, calls, p);
  }

  /** Those hooks that only close something. */
  function Closers(hooks: seq<Hook>): seq<Hook> {
    if hooks == [] then []
    else (if !hooks[0].starts && hooks[0].stops then [hooks[0]] else []) + Closers(hooks[1..])
  }

  lemma {:induction false} ClosersAre(a: seq<Hook>, b: seq<Hook>)
    ensures Closers(a + b) == Closers(a) + Closers(b)
    ensures forall h :: Closers([h]) == if h.stops && !h.starts then [h] else []
  {
    if a == [] {
      assert a + b == b;
    } else {
      assert (a + b)[1..] == a[1..] + b;
      ClosersAre(a[1..], b);
    }
  }

  datatype Outcome = Built | Invalid(diags: seq<Diag>) | ConstructorFailed(p: Provider, closed: seq<Hook>)

  class Registry {
    var providers: Graph
    var order: seq<Provider>
    var singletons: map<Dep, Provider>
    var hooks: seq<Hook>
    var built: bool
    ghost var calls: seq<Provider>

    constructor ()
      ensures Valid() && Fresh() && providers == map[] && Bare(providers)
    {
      providers, order, singletons, hooks, built, calls := map[], [], map[], [], false, [];
    }

    /** The registration list is the provider table, each provider once. */
    ghost predicate Valid()
      reads this`providers, this`order
    {
      Filed(providers) && Distinct(order) && forall p :: p in order <==> p in providers.Values
    }

    ghost predicate Fresh()
      reads this
    {
      singletons == map[] && hooks == [] && calls == [] && !built
    }

    /** addProvider: the first registration of a type stands unless replaced. */
    method AddProvider(p: Provider, replace: bool) returns (duplicate: bool)
      requires Valid() && Bare(providers) && !built && (p.supplied ==> p.params == [])
      modifies this
      ensures Valid() && Bare(providers) && built == old(built)
      ensures singletons == old(singletons) && hooks == old(hooks) && calls == old(calls)
      ensures duplicate <==> p.out in old(providers) && !replace
      ensures duplicate ==> providers == old(providers) && order == old(order)
      ensures !duplicate ==> providers == old(providers)[p.out := p]
      ensures !duplicate && p.out !in old(providers) ==> order == old(order) + [p]
      ensures !duplicate && p.out in old(providers) ==>
        exists i :: 0 <= i < |old(order)| && old(order)[i] == old(providers)[p.out]
          && order == old(order)[..i] + old(order)[i+1..] + [p]
    {
      if p.out in providers {
        if !replace {
          return true;
        }
        var existing := providers[p.out];
        var i := 0;
        while order[i] != existing
          invariant 0 <= i < |order| && existing in order[i..]
          decreases |order| - i
        {
          i := i + 1;
        }
        DropOne(order, i);
        order := order[..i] + order[i+1..];
      }
      FileOne(providers, order, p);
      providers := providers[p.out := p];
      order := order + [p];
      return false;
    }

    // ------------------------------------------------------------ validation

    /** Reports every problem, and nothing but problems. */
    method Validate() returns (diags: seq<Diag>, ghost first: seq<Provider>)
      requires Valid()
      ensures diags == [] <==> Sane(providers)
      ensures forall d: Diag :: !d.DepCycle? ==> (d in diags <==> Holds(providers, d))
      ensures forall d :: d in diags ==> Holds(providers, d)
      ensures diags == [] ==> DepsFirst(providers, first) && forall p :: p in providers.Values ==> p in first
    {
      diags := ValidateParams();
      var cycle;
      cycle, first := FindCycle(providers, order);
      SaneUnless(providers);
      if diags != [] {
        assert diags[0] in diags;
      }
      if cycle.Some? {
        assert Holds(providers, DepCycle(cycle.value));
        diags := diags + [DepCycle(cycle.value)];
      }
    }

    method ValidateParams() returns (diags: seq<Diag>)
      requires Valid()
      ensures forall d :: d in diags <==> !d.DepCycle? && Holds(providers, d)
    {
      diags := [];
      var i := 0;
      while i < |order|
        invariant 0 <= i <= |order|
        invariant forall k, dep :: 0 <= k < i && dep in order[k].params && Problem(providers, order[k], dep).Some? ==>
          Problem(providers, order[k], dep).value in diags
        invariant forall d :: d in diags ==> !d.DepCycle? && Holds(providers, d)
      {
        var more := ValidateOne(order[i]);
        diags := diags + more;
        i := i + 1;
      }
      forall d: Diag | !d.DepCycle? && Holds(providers, d) ensures d in diags {
        var dep := HoldsPosed(providers, d);
        var k :| 0 <= k < |order| && order[k] == d.p;
      }
    }

    method ValidateOne(p: Provider) returns (diags: seq<Diag>)
      requires p in providers.Values
      ensures forall dep :: dep in p.params && Problem(providers, p, dep).Some? ==>
        Problem(providers, p, dep).value in diags
      ensures forall d :: d in diags ==> !d.DepCycle? && Holds(providers, d)
    {
      diags := [];
      var i := 0;
      while i < |p.params|
        invariant 0 <= i <= |p.params|
        invariant forall k :: 0 <= k < i && Problem(providers, p, p.params[k]).Some? ==>
          Problem(providers, p, p.params[k]).value in diags
        invariant forall d :: d in diags ==> !d.DepCycle? && Holds(providers, d)
      {
        var problem := Problem(providers, p, p.params[i]);
        if problem.Some? {
          ProblemHolds(providers, p, p.params[i]);
          diags := diags + [problem.value];
        }
        i := i + 1;
      }
    }

    // ---------------------------------------------------------- construction

    /** Mid-construction, with no failure so far: what is constructed is what
        the called constructors returned, and the hooks are theirs. */
    ghost predicate Building(make: Provider -> Made)
      reads this
    {
      && (forall d :: d in singletons ==>
        d in providers && singletons[d] == providers[d] && providers[d].scope == SingletonScope)
      && InOrder(providers, calls)
      && (forall c :: c in calls ==> c in providers.Values && !c.supplied && c.scope == SingletonScope)
      && (forall d :: d in singletons && !singletons[d].supplied ==> singletons[d] in calls)
      && hooks == HooksOf(make, calls)
    }

    ghost predicate NoneFailed(make: Provider -> Made)
      reads this
    {
      forall c :: c in calls ==> make(c) != Failed && c.out in singletons
    }

    /** Since an earlier moment only constructors from the given list ran. */
    twostate predicate Ran(new allowed: seq<Provider>)
      reads this
    {
      && old(calls) <= calls && old(singletons.Keys) <= singletons.Keys
      && forall c :: c in calls ==> c in old(calls) || c in allowed
    }

    /** The value of a singleton, constructed now if it was not before, its
        dependencies first. first[k] is the provider's place in the
        dependencies-first order that validation established. */
    method Singleton(p: Provider, make: Provider -> Made, ghost first: seq<Provider>, ghost k: nat)
      returns (failed: Option<Provider>)
      requires Valid() && Sane(providers) && Building(make) && NoneFailed(make)
      requires DepsFirst(providers, first) && (forall q :: q in providers.Values ==> q in first)
      requires k < |first| && first[k] == p && p in providers.Values && p.scope == SingletonScope
      modifies this`singletons, this`hooks, this`calls
      ensures Building(make) && Ran(first[..k+1])
      ensures failed.None? ==> NoneFailed(make) && p.out in singletons
      ensures failed.Some? ==> failed.value in calls && make(failed.value) == Failed
      decreases k, 2
    {
      if p.out in singletons {
        return None;
      }
      if p.supplied {
        singletons := singletons[p.out := p];
        return None;
      }
      failed := Args(p, make, first, k);
      if failed.None? {
        failed := Construct(p, make);
      }
    }

    /** Brings about everything p's constructor takes. */
    method Args(p: Provider, make: Provider -> Made, ghost first: seq<Provider>, ghost k: nat)
      returns (failed: Option<Provider>)
      requires Valid() && Sane(providers) && Building(make) && NoneFailed(make)
      requires DepsFirst(providers, first) && (forall q :: q in providers.Values ==> q in first)
      requires k < |first| && first[k] == p && p in providers.Values && p.scope == SingletonScope
      modifies this`singletons, this`hooks, this`calls
      ensures Building(make) && Ran(first[..k])
      ensures failed.None? ==> NoneFailed(make) && forall q :: Needs(providers, p, q) ==> q.out in singletons
      ensures failed.Some? ==> failed.value in calls && make(failed.value) == Failed
      decreases k, 1
    {
      var i := 0;
      while i < |p.params|
        invariant 0 <= i <= |p.params|
        invariant Building(make) && NoneFailed(make) && Ran(first[..k]) && Ready(p.params[..i])
      {
        TakeNext(p.params, i);
        failed := Arg(p, p.params[i], make, first, k, p.params[..i]);
        if failed.Some? {
          return;
        }
        i := i + 1;
      }
      assert p.params[..i] == p.params;
      return None;
    }

    /** The values of these dependencies are there. */
    ghost predicate Ready(deps: seq<Dep>)
      reads this`singletons
    {
      forall dep :: dep in deps && !Builtin(dep) ==> dep in singletons.Keys
    }

    /** One argument. The table lookup cannot miss, and cannot find a
        request-scoped provider. */
    method Arg(p: Provider, dep: Dep, make: Provider -> Made, ghost first: seq<Provider>, ghost k: nat,
      ghost before: seq<Dep>) returns (failed: Option<Provider>)
      requires Valid() && Sane(providers) && Building(make) && NoneFailed(make)
      requires DepsFirst(providers, first) && (forall q :: q in providers.Values ==> q in first)
      requires k < |first| && first[k] == p && p in providers.Values && p.scope == SingletonScope && dep in p.params
      requires Ready(before)
      modifies this`singletons, this`hooks, this`calls
      ensures Building(make) && Ran(first[..k])
      ensures failed.None? ==> NoneFailed(make) && Ready(before + [dep])
      ensures failed.Some? ==> failed.value in calls && make(failed.value) == Failed
      decreases k, 0
    {
      assert !Builtin(dep) ==> dep in providers && providers[dep].scope == SingletonScope;
      if Builtin(dep) {
        return None;
      }
      var q := providers[dep];
      ghost var j := Earlier(providers, first, k, q);
      failed := Singleton(q, make, first, j);
    }

    /** Runs p's constructor; on success its value is kept and managed. */
    method Construct(p: Provider, make: Provider -> Made) returns (failed: Option<Provider>)
      requires Valid() && Building(make) && NoneFailed(make)
      requires p in providers.Values && !p.supplied && p.scope == SingletonScope && p !in calls
      requires forall q :: Needs(providers, p, q) ==> q.out in singletons
      modifies this`singletons, this`hooks, this`calls
      ensures Building(make) && Ran([p]) && p in calls
      ensures failed.None? ==> NoneFailed(make) && p.out in singletons
      ensures failed.Some? ==> failed.value == p && make(p) == Failed
    {
      InOrderAppend(providers, calls, p);
      HooksAppend(make, calls, p);
      calls := calls + [p];
      if make(p) == Failed {
        return Some(p);
      }
      singletons := singletons[p.out := p];
      hooks := hooks + HookFor(p, make(p));
      return None;
    }

    /** container.build: validates, then constructs every singleton. */
    method BuildAll(make: Provider -> Made) returns (o: Outcome)
      requires Valid() && Fresh()
      modifies this
      ensures Valid() && built && providers == old(providers)
      ensures o.Invalid? <==> !Sane(providers)
      ensures o.Invalid? ==> calls == [] && hooks == [] && forall d :: d in o.diags ==> Holds(providers, d)
      ensures o.Invalid? ==> forall d: Diag :: !d.DepCycle? && Holds(providers, d) ==> d in o.diags
      ensures !o.Invalid? ==> InOrder(providers, calls)
      ensures !o.Invalid? ==> forall c :: c in calls ==>
        c in providers.Values && !c.supplied && c.scope == SingletonScope && ContextPtr !in c.params
      ensures o.Built? ==> hooks == HooksOf(make, calls) && NoneFailed(make)
      ensures o.Built? ==> forall p :: p in providers.Values && p.scope == SingletonScope ==>
        p.out in singletons && (p.supplied || p in calls)
      ensures o.ConstructorFailed? ==> o.p in calls && make(o.p) == Failed && hooks == []
      ensures o.ConstructorFailed? ==> o.closed == Reversed(Closers(HooksOf(make, calls)))
    {
      built := true;
      var diags, first := Validate();
      if |diags| > 0 {
        return Invalid(diags);
      }
      var failed := ConstructAll(make, first);
      if failed.Some? {
        var closed := CloseBuilt();
        return ConstructorFailed(failed.value, closed);
      }
      return Built;
    }

    /** Every singleton in order of registration, until a constructor fails. */
    method ConstructAll(make: Provider -> Made, ghost first: seq<Provider>) returns (failed: Option<Provider>)
      requires Valid() && Sane(providers) && Building(make) && NoneFailed(make)
      requires DepsFirst(providers, first) && forall q :: q in providers.Values ==> q in first
      modifies this`singletons, this`hooks, this`calls
      ensures Building(make)
      ensures failed.None? ==> NoneFailed(make)
      ensures failed.None? ==> forall p :: p in providers.Values && p.scope == SingletonScope ==>
        p.out in singletons && (p.supplied || p in calls)
      ensures failed.Some? ==> failed.value in calls && make(failed.value) == Failed
    {
      var i := 0;
      while i < |order|
        invariant 0 <= i <= |order| && Building(make) && NoneFailed(make) && Kept(order[..i])
      {
        TakeNext(order, i);
        failed := Next(order[i], make, first, order[..i]);
        if failed.Some? {
          return;
        }
        i := i + 1;
      }
      assert order[..i] == order;
      AllKept(make);
      return None;
    }

    /** Of these, the singletons have their values. */
    ghost predicate Kept(some: seq<Provider>)
      reads this`singletons
    {
      forall p :: p in some && p.scope == SingletonScope ==> p.out in singletons.Keys
    }

    method Next(p: Provider, make: Provider -> Made, ghost first: seq<Provider>, ghost before: seq<Provider>)
      returns (failed: Option<Provider>)
      requires Valid() && Sane(providers) && Building(make) && NoneFailed(make) && p in order && Kept(before)
      requires DepsFirst(providers, first) && forall q :: q in providers.Values ==> q in first
      modifies this`singletons, this`hooks, this`calls
      ensures Building(make)
      ensures failed.None? ==> NoneFailed(make) && Kept(before + [p])
      ensures failed.Some? ==> failed.value in calls && make(failed.value) == Failed
    {
      if p.scope != SingletonScope {
        return None;
      }
      assert p in providers.Values && p in first;
      ghost var k :| 0 <= k < |first| && first[k] == p;
      failed := Singleton(p, make, first, k);
    }

    lemma AllKept(make: Provider -> Made)
      requires Valid() && Building(make)
      requires Kept(order)
      ensures forall p :: p in providers.Values && p.scope == SingletonScope ==>
        p.out in singletons && (p.supplied || p in calls)
    {
      forall p | p in providers.Values && p.scope == SingletonScope
        ensures p.out in singletons && (p.supplied || p in calls) {
        assert p in order;
        assert singletons[p.out] == p;
      }
    }

    /** When construction fails midway: closes what only needs closing, last
        constructed first. */
    method CloseBuilt() returns (closed: seq<Hook>)
      modifies this`hooks
      ensures hooks == [] && closed == Reversed(Closers(old(hooks)))
    {
      closed := [];
      var i := |hooks|;
      assert hooks[i..] == [];
      while i > 0
        invariant 0 <= i <= |hooks|
        invariant closed == Reversed(Closers(hooks[i..]))
      {
        i := i - 1;
        assert hooks[i..][0] == hooks[i] && hooks[i..][1..] == hooks[i+1..];
        assert [] + Closers(hooks[i+1..]) == Closers(hooks[i+1..]);
        if !hooks[i].starts && hooks[i].stops {
          assert ([hooks[i]] + Closers(hooks[i+1..]))[1..] == Closers(hooks[i+1..]);
          closed := closed + [hooks[i]];
        }
      }
      assert hooks[0..] == hooks;
      hooks := [];
    }
  }

  lemma DropOne(order: seq<Provider>, i: nat)
    requires i < |order| && Distinct(order)
    ensures Distinct(order[..i] + order[i+1..])
    ensures forall p :: p in order[..i] + order[i+1..] <==> p in order && p != order[i]
  {
    var rest := order[..i] + order[i+1..];
    forall p | p in order && p != order[i] ensures p in rest {
      var k :| 0 <= k < |order| && order[k] == p;
      assert rest[if k < i then k else k - 1] == p;
    }
  }

  lemma FileOne(g: Graph, rest: seq<Provider>, p: Provider)
    requires Filed(g) && Distinct(rest)
    requires forall q :: q in rest <==> q in g.Values && q.out != p.out
    ensures Filed(g[p.out := p]) && Distinct(rest + [p])
    ensures forall q :: q in rest + [p] <==> q in g[p.out := p].Values
  {
    var g' := g[p.out := p];
    assert g'[p.out] == p;
    forall q | q in g.Values && q.out != p.out ensures q in g'.Values {
      assert g'[q.out] == q;
    }
  }
}
