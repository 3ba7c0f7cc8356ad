/** Starting and stopping the application's components. */
module Lifecycle {
  import opened Container
  import opened Build

  datatype Event = Start(hook: Hook) | StartFailed(hook: Hook) | Stop(hook: Hook)

  /** The start callbacks of these hooks, in order; hooks without one are skipped. */
  function Starts(hooks: seq<Hook>): seq<Event> {
    if hooks == [] then [] else Starts(hooks[..|hooks|-1]) + StartOf(hooks[|hooks|-1])
  }

  function StartOf(h: Hook): seq<Event> { if h.starts then [Start(h)] else [] }

  function StopOf(h: Hook): seq<Event> { if h.stops then [Stop(h)] else [] }

  /** The stop callbacks of these hooks, last hook first. */
  function Stops(hooks: seq<Hook>): seq<Event> {
    if hooks == [] then [] else StopOf(hooks[|hooks|-1]) + Stops(hooks[..|hooks|-1])
  }

  /** A hook that starts is started in its turn, and one that stops is stopped
      before all those ahead of it. */
  lemma StartsStops(hooks: seq<Hook>, h: Hook)
    ensures Starts([]) == [] && Stops([]) == []
    ensures Starts(hooks + [h]) == if h.starts then Starts(hooks) + [Start(h)] else Starts(hooks)
    ensures Stops(hooks + [h]) == if h.stops then [Stop(h)] + Stops(hooks) else Stops(hooks)
  {
    assert (hooks + [h])[..|hooks|] == hooks;
    assert Starts(hooks) + [] == Starts(hooks) && [] + Stops(hooks) == Stops(hooks);
  }

  /** What Start runs: the application's own hooks, those of the constructed
      singletons, and the job manager last. */
  function Components(own: seq<Hook>, built: seq<Hook>, jobs: bool): seq<Hook> {
    own + built + (if jobs then [Hook(JobManager, true, true)] else [])
  }

  /** Starting up to a failing n-th hook, then stopping what was started. */
  ghost function AbortedStart(hooks: seq<Hook>, n: nat): seq<Event>
    requires n < |hooks|
  {
    Starts(hooks[..n]) + [StartFailed(hooks[n])] + Stops(hooks[..n])
  }

  lemma StartsNext(hooks: seq<Hook>, i: nat)
    requires i < |hooks|
    ensures hooks[..i+1] == hooks[..i] + [hooks[i]]
    ensures Starts(hooks[..i+1]) == if hooks[i].starts then Starts(hooks[..i]) + [Start(hooks[i])]
      else Starts(hooks[..i])
  {
    assert hooks[..i+1][..i] == hooks[..i];
    assert Starts(hooks[..i]) + [] == Starts(hooks[..i]);
  }

  lemma Joined(a: seq<Event>, b: seq<Event>, c: seq<Event>, d: seq<Event>)
    ensures (a + b) + c == a + (b + c) && ((a + b) + c) + d == a + (b + c + d)
  {
  }

  class App {
    var hooks: seq<Hook>
    var started: seq<Hook>
    ghost var trace: seq<Event>

    constructor (registered: seq<Hook>)
      ensures hooks == registered && started == [] && trace == []
    {
      hooks, started, trace := registered, [], [];
    }

    /** Runs the start hooks. When the n-th fails, exactly the components
        before it are stopped, in reverse order. startOk says which start
        callbacks succeed. */
    method StartAll(built: seq<Hook>, jobs: bool, startOk: nat -> bool) returns (ok: bool, ghost n: nat)
      requires started == []
      modifies this`started, this`trace
      ensures ok ==> started == Components(hooks, built, jobs)
      ensures ok ==> trace == old(trace) + Starts(Components(hooks, built, jobs))
      ensures !ok ==> n < |Components(hooks, built, jobs)| && Components(hooks, built, jobs)[n].starts
      ensures !ok ==> !startOk(n) && started == []
      ensures !ok ==> trace == old(trace) + AbortedStart(Components(hooks, built, jobs), n)
    {
      var all := hooks + built;
      if jobs {
        all := all + [Hook(JobManager, true, true)];
      }
      assert all == Components(hooks, built, jobs);
      ok, n := StartEach(all, startOk);
    }

    method StartEach(all: seq<Hook>, startOk: nat -> bool) returns (ok: bool, ghost n: nat)
      requires started == []
      modifies this`started, this`trace
      ensures ok ==> started == all && trace == old(trace) + Starts(all)
      ensures !ok ==> n < |all| && all[n].starts && !startOk(n) && started == []
      ensures !ok ==> trace == old(trace) + AbortedStart(all, n)
    {
      ghost var before := trace;
      var i := 0;
      while i < |all|
        invariant 0 <= i <= |all| && started == all[..i]
        invariant trace == before + Starts(all[..i])
      {
        var h := all[i];
        StartsNext(all, i);
        ghost var soFar := Starts(all[..i]);
        if h.starts {
          if !startOk(i) {
            trace := trace + [StartFailed(h)];
            RunStopHooks();
            Joined(before, soFar, [StartFailed(h)], Stops(all[..i]));
            return false, i;
          }
          Joined(before, soFar, [Start(h)], []);
          trace := trace + [Start(h)];
        }
        started := started + [h];
        i := i + 1;
      }
      assert all[..i] == all;
      return true, 0;
    }

    /** Stops what was started, in exact reverse order, whatever the stop
        callbacks return; a second call finds nothing to stop. */
    method RunStopHooks()
      modifies this`started, this`trace
      ensures started == [] && trace == old(trace) + Stops(old(started))
    {
      var s := started;
      started := [];
      var i := |s|;
      assert s[..i] == s;
      while i > 0
        invariant 0 <= i <= |s| && started == []
        invariant trace + Stops(s[..i]) == old(trace) + Stops(s)
      {
        i := i - 1;
        assert s[..i+1][..i] == s[..i];
        if s[i].stops {
          trace := trace + [Stop(s[i])];
        }
      }
    }
  }

  // ------------------------------------------------- dependencies and order

  /** x comes before some y. */
  ghost predicate Before<T>(s: seq<T>, x: T, y: T) {
    exists i, j :: 0 <= i < j < |s| && s[i] == x && s[j] == y
  }

  lemma {:induction false} HookIn(make: Provider -> Made, calls: seq<Provider>, i: nat) returns (a: nat)
    requires i < |calls| && HookFor(calls[i], make(calls[i])) != []
    ensures a < |HooksOf(make, calls)| && HooksOf(make, calls)[a] == HookFor(calls[i], make(calls[i]))[0]
    ensures a == |HooksOf(make, calls[..i])|
    decreases |calls|
  {
    var n := |calls| - 1;
    if i == n {
      a := |HooksOf(make, calls[..n])|;
    } else {
      a := HookIn(make, calls[..n], i);
      assert calls[..n][..i] == calls[..i];
    }
  }

  lemma {:induction false} HooksGrow(make: Provider -> Made, calls: seq<Provider>, i: nat, j: nat)
    requires i < j <= |calls| && HookFor(calls[i], make(calls[i])) != []
    ensures |HooksOf(make, calls[..i])| < |HooksOf(make, calls[..j])|
  {
    assert calls[..j][..j-1] == calls[..j-1];
    if i < j - 1 { HooksGrow(make, calls, i, j - 1); }
  }

  /** The hook of whatever a value relies on is gathered before its own. */
  lemma DependencyHookFirst(g: Graph, make: Provider -> Made, calls: seq<Provider>, w: seq<Provider>)
    returns (a: nat, b: nat)
    requires InOrder(g, calls) && Bare(g) && Relies(g, w) && w[0] in calls && !w[|w|-1].supplied
    requires HookFor(w[0], make(w[0])) != [] && HookFor(w[|w|-1], make(w[|w|-1])) != []
    ensures a < b < |HooksOf(make, calls)|
    ensures HooksOf(make, calls)[a] == HookFor(w[|w|-1], make(w[|w|-1]))[0]
    ensures HooksOf(make, calls)[b] == HookFor(w[0], make(w[0]))[0]
  {
    var i :| 0 <= i < |calls| && calls[i] == w[0];
    var j := ReliedOnEarlier(g, calls, w, i);
    a := HookIn(make, calls, j);
    b := HookIn(make, calls, i);
    HooksGrow(make, calls, j, i);
  }

  /** Hooks of constructed values are told apart by what they provide. */
  lemma {:induction false} HooksOwned(make: Provider -> Made, calls: seq<Provider>, i: nat) returns (k: nat)
    requires i < |HooksOf(make, calls)|
    ensures k < |calls| && HooksOf(make, calls)[i].owner == Constructed(calls[k].out)
  {
    var n := |calls| - 1;
    if i < |HooksOf(make, calls[..n])| { k := HooksOwned(make, calls[..n], i); } else { k := n; }
  }

  lemma {:induction false} HooksDistinct(make: Provider -> Made, calls: seq<Provider>)
    requires forall i, j :: 0 <= i < j < |calls| ==> calls[i].out != calls[j].out
    ensures Distinct(HooksOf(make, calls))
  {
    if calls != [] {
      var n := |calls| - 1;
      var before := HooksOf(make, calls[..n]);
      HooksDistinct(make, calls[..n]);
      forall i | 0 <= i < |before| ensures before[i].owner != Constructed(calls[n].out) {
        var k := HooksOwned(make, calls[..n], i);
      }
    }
  }

  lemma DistinctOuts(g: Graph, calls: seq<Provider>)
    requires Filed(g) && Distinct(calls) && forall c :: c in calls ==> c in g.Values
    ensures forall i, j :: 0 <= i < j < |calls| ==> calls[i].out != calls[j].out
  {
    forall i, j | 0 <= i < j < |calls| ensures calls[i].out != calls[j].out {
      assert calls[i] in calls && calls[j] in calls;
    }
  }

  lemma BeforeWider<T>(l: seq<T>, s: seq<T>, r: seq<T>, x: T, y: T)
    requires Before(s, x, y)
    ensures Before(l + s + r, x, y)
  {
    var i, j :| 0 <= i < j < |s| && s[i] == x && s[j] == y;
    var w := l + s + r;
    assert w[|l|+i] == x && w[|l|+j] == y;
  }

  lemma {:induction false} StartIn(hooks: seq<Hook>, h: Hook)
    requires h in hooks && h.starts
    ensures Start(h) in Starts(hooks)
  {
    var n := |hooks| - 1;
    if hooks[n] == h {
      assert Starts(hooks)[|Starts(hooks)|-1] == Start(h);
    } else {
      assert h in hooks[..n];
      StartIn(hooks[..n], h);
    }
  }

  lemma {:induction false} StopIn(hooks: seq<Hook>, h: Hook)
    requires h in hooks && h.stops
    ensures Stop(h) in Stops(hooks)
  {
    var n := |hooks| - 1;
    if hooks[n] == h {
      assert Stops(hooks)[0] == Stop(h);
    } else {
      assert h in hooks[..n];
      StopIn(hooks[..n], h);
    }
  }

  lemma {:induction false} StartsKeepOrder(hooks: seq<Hook>, x: Hook, y: Hook)
    requires Before(hooks, x, y) && x.starts && y.starts
    ensures Before(Starts(hooks), Start(x), Start(y))
  {
    var n := |hooks| - 1;
    var i, j :| 0 <= i < j < |hooks| && hooks[i] == x && hooks[j] == y;
    var before := Starts(hooks[..n]);
    if j == n {
      assert hooks[..n][i] == x;
      StartIn(hooks[..n], x);
      var k :| 0 <= k < |before| && before[k] == Start(x);
      assert Starts(hooks)[k] == Start(x) && Starts(hooks)[|before|] == Start(y);
    } else {
      assert hooks[..n][i] == x && hooks[..n][j] == y;
      StartsKeepOrder(hooks[..n], x, y);
      BeforeWider([], before, StartOf(hooks[n]), Start(x), Start(y));
      assert [] + before + StartOf(hooks[n]) == Starts(hooks);
    }
  }

  lemma HeadBefore(y: Event, rest: seq<Event>, x: Event)
    requires x in rest
    ensures Before([y] + rest, y, x)
  {
    var k :| 0 <= k < |rest| && rest[k] == x;
    var s := [y] + rest;
    assert s[0] == y && s[k+1] == x;
  }

  lemma {:induction false} StopsReverseOrder(hooks: seq<Hook>, x: Hook, y: Hook)
    requires Before(hooks, x, y) && x.stops && y.stops
    ensures Before(Stops(hooks), Stop(y), Stop(x))
  {
    var n := |hooks| - 1;
    var i, j :| 0 <= i < j < |hooks| && hooks[i] == x && hooks[j] == y;
    var after := Stops(hooks[..n]);
    if j == n {
      assert hooks[..n][i] == x;
      StopIn(hooks[..n], x);
      HeadBefore(Stop(y), after, Stop(x));
      assert Stops(hooks) == [Stop(y)] + after;
    } else {
      assert hooks[..n][i] == x && hooks[..n][j] == y;
      StopsReverseOrder(hooks[..n], x, y);
      BeforeWider(StopOf(hooks[n]), after, [], Stop(y), Stop(x));
      assert StopOf(hooks[n]) + after + [] == Stops(hooks);
    }
  }

  lemma {:induction false} StartedIn(hooks: seq<Hook>, h: Hook)
    ensures Start(h) in Starts(hooks) ==> h in hooks && h.starts
    ensures Stop(h) in Stops(hooks) ==> h in hooks && h.stops
  {
    if hooks != [] {
      var n := |hooks| - 1;
      StartedIn(hooks[..n], h);
      assert forall x :: x in hooks[..n] ==> x in hooks;
    }
  }

  /** A component starts after everything it relies on and stops before it, in
      this record of starts and stops. */
  ghost predicate Orderly(g: Graph, make: Provider -> Made, events: seq<Event>) {
    forall w: seq<Provider> {:trigger Relies(g, w)} :: Relies(g, w) && !w[|w|-1].supplied ==>
      InOrderFor(make, events, w[0], w[|w|-1])
  }

  ghost predicate InOrderFor(make: Provider -> Made, events: seq<Event>, p: Provider, q: Provider) {
    HookFor(p, make(p)) != [] && HookFor(q, make(q)) != [] ==>
      var x, y := HookFor(q, make(q))[0], HookFor(p, make(p))[0];
      && (Start(y) in events && x.starts ==> Before(events, Start(x), Start(y)))
      && (Stop(y) in events ==> Before(events, Stop(y), Stop(x)))
  }

  /** The hooks of an application: its own, those of the values constructed, and
      the job manager's. */
  ghost predicate Gathered(g: Graph, make: Provider -> Made, calls: seq<Provider>, own: seq<Hook>, last: seq<Hook>) {
    && Filed(g) && Bare(g) && InOrder(g, calls)
    && (forall c :: c in calls ==> c in g.Values && !c.supplied)
    && (forall h :: h in own || h in last ==> !h.owner.Constructed?)
  }

  /** The hook of a constructed value is in the middle. */
  lemma InMiddle(own: seq<Hook>, built: seq<Hook>, last: seq<Hook>, k: nat)
    requires (forall h :: h in own || h in last ==> !h.owner.Constructed?) && k < |own + built + last|
    ensures (own + built + last)[k].owner.Constructed? ==>
      |own| <= k < |own| + |built| && built[k - |own|] == (own + built + last)[k]
  {
    if k < |own| { assert own[k] in own; }
    if k >= |own| + |built| { assert last[k - |own| - |built|] in last; }
  }

  /** Running the first hooks of an application and stopping them, with anything
      but starts and stops in between, is orderly. */
  lemma RunOrderly(g: Graph, make: Provider -> Made, calls: seq<Provider>, own: seq<Hook>, last: seq<Hook>, n: nat,
    mid: seq<Event>)
    requires Gathered(g, make, calls, own, last) && n <= |own + HooksOf(make, calls) + last|
    requires forall e :: e in mid ==> e.StartFailed?
    ensures var s := (own + HooksOf(make, calls) + last)[..n]; Orderly(g, make, Starts(s) + mid + Stops(s))
  {
    var s := (own + HooksOf(make, calls) + last)[..n];
    forall w: seq<Provider> | Relies(g, w) && !w[|w|-1].supplied
      ensures InOrderFor(make, Starts(s) + mid + Stops(s), w[0], w[|w|-1]) {
      DependencyStartsFirstStopsLast(g, make, calls, own, last, n, mid, w);
    }
  }

  /** If y, the hook of what w[0] provides, is among the first hooks, then x, the
      hook of what it relies on, is before it there. */
  lemma HookBefore(g: Graph, make: Provider -> Made, calls: seq<Provider>, own: seq<Hook>, last: seq<Hook>, n: nat,
    w: seq<Provider>, x: Hook, y: Hook)
    requires Gathered(g, make, calls, own, last) && n <= |own + HooksOf(make, calls) + last|
    requires Relies(g, w) && !w[|w|-1].supplied && HookFor(w[|w|-1], make(w[|w|-1])) == [x]
    requires HookFor(w[0], make(w[0])) == [y]
    requires y in (own + HooksOf(make, calls) + last)[..n]
    ensures Before((own + HooksOf(make, calls) + last)[..n], x, y)
  {
    var built := HooksOf(make, calls);
    var all := own + built + last;
    var k :| 0 <= k < n && all[k] == y;
    InCalls(g, make, calls, own, last, k, w[0]);
    var a, b := DependencyHookFirst(g, make, calls, w);
    DistinctOuts(g, calls);
    HooksDistinct(make, calls);
    InMiddle(own, built, last, k);
    assert built[k - |own|] == y == built[b];
    assert all[|own| + a] == x && all[..n][|own| + a] == x && all[..n][k] == y;
  }

  /** The hook of a constructed value is only there if it was constructed. */
  lemma InCalls(g: Graph, make: Provider -> Made, calls: seq<Provider>, own: seq<Hook>, last: seq<Hook>, k: nat,
    p: Provider)
    requires Gathered(g, make, calls, own, last) && p in g.Values && k < |own + HooksOf(make, calls) + last|
    requires (own + HooksOf(make, calls) + last)[k].owner == Constructed(p.out)
    ensures p in calls
  {
    var built := HooksOf(make, calls);
    var h := (own + built + last)[k];
    InMiddle(own, built, last, k);
    var c := HooksOwned(make, calls, k - |own|);
    assert calls[c] in calls;
  }

  /** A component starts after everything it relies on, however indirectly, and
      stops before it: whether it starts and stops or only closes, and whether
      all hooks run or only the first n. */
  lemma DependencyStartsFirstStopsLast(g: Graph, make: Provider -> Made, calls: seq<Provider>, own: seq<Hook>,
    last: seq<Hook>, n: nat, mid: seq<Event>, w: seq<Provider>)
    requires Gathered(g, make, calls, own, last) && n <= |own + HooksOf(make, calls) + last|
    requires (forall e :: e in mid ==> e.StartFailed?) && Relies(g, w) && !w[|w|-1].supplied
    ensures var s := (own + HooksOf(make, calls) + last)[..n];
      InOrderFor(make, Starts(s), w[0], w[|w|-1]) && InOrderFor(make, Starts(s) + mid + Stops(s), w[0], w[|w|-1])
  {
    var s := (own + HooksOf(make, calls) + last)[..n];
    var p, q := w[0], w[|w|-1];
    if HookFor(p, make(p)) != [] && HookFor(q, make(q)) != [] {
      var x, y := HookFor(q, make(q))[0], HookFor(p, make(p))[0];
      StartedIn(s, y);
      NoStops(s);
      if y in s {
        HookBefore(g, make, calls, own, last, n, w, x, y);
        HooksInOrder(s, mid, x, y);
      }
    }
  }

  lemma {:induction false} NoStops(hooks: seq<Hook>)
    ensures forall e :: e in Starts(hooks) ==> e.Start?
    ensures forall e :: e in Stops(hooks) ==> e.Stop?
  {
    if hooks != [] { NoStops(hooks[..|hooks|-1]); }
  }

  lemma HooksInOrder(s: seq<Hook>, mid: seq<Event>, x: Hook, y: Hook)
    requires Before(s, x, y) && x.stops
    ensures x.starts && y.starts ==>
      Before(Starts(s), Start(x), Start(y)) && Before(Starts(s) + mid + Stops(s), Start(x), Start(y))
    ensures y.stops ==> Before(Starts(s) + mid + Stops(s), Stop(y), Stop(x))
  {
    var events := Starts(s) + mid + Stops(s);
    if x.starts && y.starts {
      StartsKeepOrder(s, x, y);
      BeforeWider([], Starts(s), mid + Stops(s), Start(x), Start(y));
      assert [] + Starts(s) + (mid + Stops(s)) == events;
    }
    if y.stops {
      StopsReverseOrder(s, x, y);
      BeforeWider(Starts(s) + mid, Stops(s), [], Stop(y), Stop(x));
      assert Starts(s) + mid + Stops(s) + [] == events;
    }
  }

  lemma StartsOrderly(g: Graph, make: Provider -> Made, calls: seq<Provider>, own: seq<Hook>, last: seq<Hook>, n: nat)
    requires Gathered(g, make, calls, own, last) && n <= |own + HooksOf(make, calls) + last|
    ensures Orderly(g, make, Starts((own + HooksOf(make, calls) + last)[..n]))
  {
    forall w: seq<Provider> | Relies(g, w) && !w[|w|-1].supplied
      ensures InOrderFor(make, Starts((own + HooksOf(make, calls) + last)[..n]), w[0], w[|w|-1])
    {
      DependencyStartsFirstStopsLast(g, make, calls, own, last, n, [], w);
    }
  }

  /** Starting an application: its values are constructed and then the hooks run,
      the job manager's last. What happens is orderly, whether everything starts
      or something fails and what was started is stopped; and so is the whole
      when the application is stopped. */
  method Launch(reg: Registry, app: App, make: Provider -> Made, jobs: bool, startOk: nat -> bool)
    returns (o: Outcome, ok: bool, ghost events: seq<Event>)
    requires reg.Valid() && reg.Fresh() && Bare(reg.providers) && app.started == []
    requires forall h :: h in app.hooks ==> h.owner.Registered?
    modifies reg, app`started, app`trace
    ensures app.trace == old(app.trace) + events && (o.Built? || events == [])
    ensures ok ==> o.Built? && app.started == app.hooks + reg.hooks + (if jobs then [Hook(JobManager, true, true)]
      else [])
    ensures !ok ==> app.started == []
    ensures o.Built? ==> Orderly(reg.providers, make, events)
    ensures ok ==> Orderly(reg.providers, make, events + Stops(app.started))
  {
    o := reg.BuildAll(make);
    ok, events := false, [];
    if !o.Built? {
      assert app.trace + [] == app.trace;
      return;
    }
    ghost var own, last := app.hooks, if jobs then [Hook(JobManager, true, true)] else [];
    ghost var all := own + HooksOf(make, reg.calls) + last;
    ghost var n;
    ok, n := app.StartAll(reg.hooks, jobs, startOk);
    LaunchOrderly(reg.providers, make, reg.calls, own, last);
    events := if ok then Starts(all) else AbortedStart(all, n);
  }

  lemma LaunchOrderly(g: Graph, make: Provider -> Made, calls: seq<Provider>, own: seq<Hook>, last: seq<Hook>)
    requires Gathered(g, make, calls, own, last)
    ensures var all := own + HooksOf(make, calls) + last;
      && Orderly(g, make, Starts(all)) && Orderly(g, make, Starts(all) + Stops(all))
      && forall n {:trigger AbortedStart(all, n)} :: 0 <= n < |all| ==> Orderly(g, make, AbortedStart(all, n))
  {
    var all := own + HooksOf(make, calls) + last;
    assert all[..|all|] == all && Starts(all) + [] == Starts(all);
    StartsOrderly(g, make, calls, own, last, |all|);
    RunOrderly(g, make, calls, own, last, |all|, []);
    forall n | 0 <= n < |all| ensures Orderly(g, make, AbortedStart(all, n)) {
      RunOrderly(g, make, calls, own, last, n, [StartFailed(all[n])]);
    }
  }
}
