/** The dependency container: registration, the three-colour cycle search,
    validation of the graph and construction of the singletons. */
module Container {
  import opened Common

  /** A type constructors can ask for. The first four are supplied by the
      framework itself. */
  datatype Dep = ContextPtr | Context | Logger | Env | Named(name: string)

  datatype Scope = SingletonScope | RequestScope

  datatype Provider = Provider(out: Dep, params: seq<Dep>, scope: Scope, supplied: bool, name: string)

  type Graph = map<Dep, Provider>

  predicate Builtin(d: Dep) { !d.Named? }

  // ---------------------------------------------------------------- graphs

  /** The providers are filed under the type they provide. */
  ghost predicate Filed(g: Graph) { forall d :: d in g ==> g[d].out == d }

  /** p asks for what q provides. */
  ghost predicate Edge(g: Graph, p: Provider, q: Provider) {
    q.out in p.params && q.out in g && g[q.out] == q
  }

  ghost predicate Walk(g: Graph, c: seq<Provider>) {
    forall i :: 0 <= i < |c| - 1 ==> Edge(g, c[i], c[i+1])
  }

  ghost predicate ClosedWalk(g: Graph, c: seq<Provider>) {
    |c| >= 2 && c[0] == c[|c|-1] && Walk(g, c)
  }

  ghost predicate Distinct<T>(s: seq<T>) {
    forall i, j :: 0 <= i < j < |s| ==> s[i] != s[j]
  }

  /** Everything a listed provider depends on is listed before it. */
  ghost predicate DepsFirst(g: Graph, s: seq<Provider>) {
    && Distinct(s)
    && forall i, q :: 0 <= i < |s| && Edge(g, s[i], q) ==> q in s[..i]
  }

  /** A walk inside a dependencies-first list goes strictly backwards. */
  lemma {:induction false} WalkDescends(g: Graph, s: seq<Provider>, c: seq<Provider>, i: nat) returns (j: nat)
    requires DepsFirst(g, s) && Walk(g, c) && |c| >= 2
    requires i < |s| && s[i] == c[0]
    ensures j < i && s[j] == c[|c|-1]
    decreases |c|
  {
    assert Edge(g, c[0], c[1]);
    j :| 0 <= j < i && s[j] == c[1];
    if |c| > 2 {
      assert Walk(g, c[1..]) by {
        forall k | 0 <= k < |c[1..]| - 1 ensures Edge(g, c[1..][k], c[1..][k+1]) {
          assert Edge(g, c[k+1], c[k+2]);
        }
      }
      j := WalkDescends(g, s, c[1..], j);
    }
  }

  lemma DepsFirstAppend(g: Graph, s: seq<Provider>, p: Provider)
    requires DepsFirst(g, s) && p !in s && forall q :: Edge(g, p, q) ==> q in s
    ensures DepsFirst(g, s + [p])
  {
    var t := s + [p];
    forall i, q | 0 <= i < |t| && Edge(g, t[i], q) ensures q in t[..i] {
      assert t[..i] == s[..i];
      if i == |s| { assert s[..i] == s; }
    }
  }

  /** A graph all of whose providers are listed dependencies-first has no cycle. */
  lemma NoClosedWalk(g: Graph, s: seq<Provider>)
    requires DepsFirst(g, s) && forall p :: p in g.Values ==> p in s
    ensures forall c :: !ClosedWalk(g, c)
  {
    forall c: seq<Provider> ensures !ClosedWalk(g, c) {
      if ClosedWalk(g, c) {
        assert Edge(g, c[|c|-2], c[|c|-1]) && g[c[0].out] in g.Values;
        var i :| 0 <= i < |s| && s[i] == c[0];
        var j := WalkDescends(g, s, c, i);
        assert false;
      }
    }
  }

  // ---------------------------------------------------------- cycle search

  datatype Colour = Visiting | Done

  /** The variables findCycle's closure shares: absent from state means
      unvisited. Ghost: the done providers in the order they were finished. */
  class Search {
    var state: map<Provider, Colour>
    var stack: seq<Provider>
    ghost var finished: seq<Provider>

    constructor ()
      ensures state == map[] && stack == [] && finished == []
    {
      state, stack, finished := map[], [], [];
    }

    /** Grey providers form a path, black ones are closed under dependencies
        and listed dependencies-first. */
    ghost predicate Valid(g: Graph)
      reads this
    {
      && Filed(g) && state.Keys <= g.Values
      && Distinct(stack) && Walk(g, stack) && DepsFirst(g, finished)
      && (forall p :: p in state && state[p] == Visiting <==> p in stack)
      && (forall p :: p in state && state[p] == Done <==> p in finished)
    }

    /** Returns a cycle through the stack, or finishes p and all it needs. */
    method Visit(g: Graph, p: Provider) returns (cycle: Option<seq<Provider>>)
      requires Valid(g) && p in g.Values && p !in state
      requires stack == [] || Edge(g, stack[|stack|-1], p)
      modifies this
      ensures cycle.Some? ==> ClosedWalk(g, cycle.value)
      ensures cycle.None? ==> Valid(g) && stack == old(stack) && old(finished) <= finished && p in finished
      ensures cycle.None? ==> old(state.Keys) <= state.Keys
      decreases g.Values - state.Keys
    {
      Push(g, p);
      var i := 0;
      while i < |p.params|
        invariant 0 <= i <= |p.params|
        invariant Valid(g) && stack == old(stack) + [p] && old(finished) <= finished
        invariant old(state.Keys) + {p} <= state.Keys
        invariant forall k :: 0 <= k < i && p.params[k] in g ==> g[p.params[k]] in finished
      {
        var dep := p.params[i];
        if dep in g {
          var q := g[dep];
          assert Edge(g, p, q);
          if q !in state {
            var c := Visit(g, q);
            if c.Some? {
              return c;
            }
          } else if state[q] == Visiting {
            var c := CloseCycle(g, p, q);
            return Some(c);
          }
        }
        i := i + 1;
      }
      Pop(g, p);
      return None;
    }

    method Push(g: Graph, p: Provider)
      requires Valid(g) && p in g.Values && p !in state
      requires stack == [] || Edge(g, stack[|stack|-1], p)
      modifies this
      ensures Valid(g) && stack == old(stack) + [p] && finished == old(finished)
      ensures state.Keys == old(state.Keys) + {p}
    {
      state := state[p := Visiting];
      stack := stack + [p];
    }

    method Pop(g: Graph, p: Provider)
      requires Valid(g) && stack != [] && stack[|stack|-1] == p
      requires forall q :: Edge(g, p, q) ==> q in finished
      modifies this
      ensures Valid(g) && stack == old(stack)[..|old(stack)|-1] && finished == old(finished) + [p]
      ensures state.Keys == old(state.Keys)
    {
      DepsFirstAppend(g, finished, p);
      stack := stack[..|stack|-1];
      state := state[p := Done];
      finished := finished + [p];
      assert old(stack) == stack + [p];
    }

    /** The stretch of the stack from q, closed by q. */
    method CloseCycle(g: Graph, p: Provider, q: Provider) returns (c: seq<Provider>)
      requires Walk(g, stack) && stack != [] && stack[|stack|-1] == p && q in stack && Edge(g, p, q)
      ensures ClosedWalk(g, c)
    {
      var i := 0;
      while stack[i] != q
        invariant 0 <= i < |stack| && q in stack[i..]
        decreases |stack| - i
      {
        i := i + 1;
      }
      c := stack[i..] + [q];
      forall k | 0 <= k < |c| - 1 ensures Edge(g, c[k], c[k+1]) {
        if k + 1 < |c| - 1 { assert Edge(g, stack[i+k], stack[i+k+1]); }
      }
    }
  }

  /** A cycle if and only if there is one; otherwise (ghost) all providers in a
      dependencies-first order. */
  method FindCycle(g: Graph, order: seq<Provider>) returns (cycle: Option<seq<Provider>>, ghost first: seq<Provider>)
    requires Filed(g) && forall p :: p in order <==> p in g.Values
    ensures cycle.Some? ==> ClosedWalk(g, cycle.value)
    ensures cycle.None? ==> forall c :: !ClosedWalk(g, c)
    ensures cycle.None? ==> DepsFirst(g, first) && forall p :: p in g.Values ==> p in first
  {
    var s := new Search();
    var i := 0;
    while i < |order|
      invariant 0 <= i <= |order|
      invariant s.Valid(g) && s.stack == []
      invariant forall k :: 0 <= k < i ==> order[k] in s.finished
    {
      var p := order[i];
      if p !in s.state {
        var c := s.Visit(g, p);
        if c.Some? {
          return c, [];
        }
      }
      i := i + 1;
    }
    NoClosedWalk(g, s.finished);
    return None, s.finished;
  }
}
