/** Loading through the cache with one load at a time for each key. The steps of
    all callers interleave freely; one method is one step between two points
    where another caller may run. */
module SingleFlight {
  import opened Common

  /** How a call ends. Panicked is also what a flight holds before it has run. */
  datatype Outcome = Value(value: string) | Failed(error: string) | Panicked

  type Caller = nat

  class Flight {
    const key: string
    ghost const owner: Caller
    var outcome: Outcome
    var open: bool

    constructor (k: string, ghost o: Caller)
      ensures key == k && owner == o && outcome == Panicked && open
    {
      key, owner, outcome, open := k, o, Panicked, true;
    }
  }

  /** Where a caller is. */
  datatype Place =
    | Missed(key: string)
    | Waiting(key: string, flight: Flight)
    | Leading(key: string, flight: Flight)
    | Checked(key: string, flight: Flight)
    | Loading(key: string, flight: Flight)
    | Storing(key: string, flight: Flight, value: string)
    | Ending(key: string, flight: Flight)
    | Releasing(key: string, flight: Flight)
    | Finished(outcome: Outcome)

  /** Running the function of its flight. */
  predicate Runs(p: Place) { p.Leading? || p.Checked? || p.Loading? || p.Storing? }

  /** Its flight is the one others join. */
  predicate Holds(p: Place) { Runs(p) || p.Ending? }

  /** Its flight is still to be closed. */
  predicate Owns(p: Place) { Holds(p) || p.Releasing? }

  // ---------------------------------------------------------- the record

  datatype Event =
    | Begin(key: string, flight: Flight)
    | End(key: string, flight: Flight, outcome: Outcome)
    | Settled(key: string, flight: Flight, outcome: Outcome)
    | Returned(caller: Caller, flight: Flight, outcome: Outcome)
    /** The entry under a key was deleted or expired. */
    | Removed(key: string)
    /** The store failed to answer, or to keep what it was given. */
    | Lost(key: string)

  type Log = seq<Event>

  /** The load of k under way. */
  ghost function Running(log: Log, k: string): Option<Flight> {
    if log == [] then None
    else
      var e := log[|log|-1];
      if e.Begin? && e.key == k then Some(e.flight)
      else if e.End? && e.key == k then None
      else Running(log[..|log|-1], k)
  }

  predicate Loaded(e: Event, k: string) { e.End? && e.key == k && e.outcome.Value? }

  predicate Gone(e: Event, k: string) { (e.Removed? || e.Lost?) && e.key == k }

  /** A load of k has succeeded and its value has not been lost since. */
  ghost predicate Fresh(log: Log, k: string) {
    log != [] && (Loaded(log[|log|-1], k) || (!Gone(log[|log|-1], k) && Fresh(log[..|log|-1], k)))
  }

  /** What the record shows at every event. */
  ghost predicate Fair(log: Log, i: nat)
    requires i < |log|
  {
    match log[i]
    case Begin(k, f) => Running(log[..i], k) == None && !Fresh(log[..i], k)
    case End(k, f, _) => Running(log[..i], k) == Some(f)
    case Settled(_, f, _) => !IsSettled(log[..i], f)
    case Returned(_, f, o) => Settled(f.key, f, o) in log[..i]
    case _ => true
  }

  ghost predicate IsSettled(log: Log, f: Flight) { exists e :: e in log && e.Settled? && e.flight == f }

  ghost predicate AllFair(log: Log) { forall i :: 0 <= i < |log| ==> Fair(log, i) }

  lemma RunningAppend(log: Log, e: Event, k: string)
    ensures Running(log + [e], k) ==
      if e.Begin? && e.key == k then Some(e.flight) else if e.End? && e.key == k then None else Running(log, k)
    ensures Fresh(log + [e], k) <==> Loaded(e, k) || (!Gone(e, k) && Fresh(log, k))
  {
    assert (log + [e])[..|log|] == log;
  }

  lemma FairAppend(log: Log, e: Event)
    requires AllFair(log)
    requires Fair(log + [e], |log|)
    ensures AllFair(log + [e])
  {
    forall i | 0 <= i < |log| ensures Fair(log + [e], i) {
      assert Fair(log, i);
      assert (log + [e])[..i] == log[..i];
    }
  }

  // -------------------------------------------------- safety over whole runs

  /** Once a load runs, it runs until it ends. */
  lemma {:induction false} RunsUntilEnd(log: Log, k: string, i: nat, j: nat)
    requires AllFair(log) && i < j <= |log|
    requires log[i].Begin? && log[i].key == k
    ensures Running(log[..j], k) == Some(log[i].flight) || exists m ::
      i < m < j && log[m].End? && log[m].key == k && log[m].flight == log[i].flight
  {
    if j == i + 1 {
      assert log[..j] == log[..i] + [log[i]];
      RunningAppend(log[..i], log[i], k);
    } else {
      RunsUntilEnd(log, k, i, j - 1);
      assert log[..j] == log[..j-1] + [log[j-1]];
      RunningAppend(log[..j-1], log[j-1], k);
      assert Fair(log, j - 1);
    }
  }

  /** Two loads of one key never overlap: the first has ended before the second
      begins. */
  lemma NoOverlap(log: Log, k: string, i: nat, j: nat)
    requires AllFair(log) && i < j < |log|
    requires log[i].Begin? && log[j].Begin? && log[i].key == k == log[j].key
    ensures exists m :: i < m < j && log[m].End? && log[m].key == k && log[m].flight == log[i].flight
  {
    RunsUntilEnd(log, k, i, j);
    assert Fair(log, j);
  }

  lemma {:induction false} FreshUntilGone(log: Log, k: string, i: nat, j: nat)
    requires i < j <= |log| && Loaded(log[i], k)
    ensures Fresh(log[..j], k) || exists m :: i < m < j && Gone(log[m], k)
  {
    assert log[..j] == log[..j-1] + [log[j-1]];
    RunningAppend(log[..j-1], log[j-1], k);
    if j > i + 1 { FreshUntilGone(log, k, i, j - 1); }
  }

  /** No load follows a successful one unless the entry was deleted, expired or
      not kept in between. */
  lemma NoSecondLoad(log: Log, k: string, i: nat, j: nat)
    requires AllFair(log) && i < j < |log|
    requires Loaded(log[i], k) && log[j].Begin? && log[j].key == k
    ensures exists m :: i < m < j && Gone(log[m], k)
  {
    FreshUntilGone(log, k, i, j);
    assert Fair(log, j);
  }

  lemma SettledOnce(log: Log, a: nat, b: nat)
    requires AllFair(log) && a < b < |log| && log[a].Settled? && log[b].Settled?
    ensures log[a].flight != log[b].flight
  {
    assert Fair(log, b) && log[a] in log[..b];
  }

  /** All who return from one flight return the same thing. */
  lemma OneOutcome(log: Log, i: nat, j: nat)
    requires AllFair(log) && i < |log| && j < |log|
    requires log[i].Returned? && log[j].Returned? && log[i].flight == log[j].flight
    ensures log[i].outcome == log[j].outcome
  {
    var f := log[i].flight;
    assert Fair(log, i) && Fair(log, j);
    var a :| 0 <= a < i && log[a] == Settled(f.key, f, log[i].outcome);
    var b :| 0 <= b < j && log[b] == Settled(f.key, f, log[j].outcome);
    if a < b { SettledOnce(log, a, b); }
    if b < a { SettledOnce(log, b, a); }
  }

  // ------------------------------------------------------------- the group

  class Group {
    var store: map<string, string>
    var calls: map<string, Flight>
    var places: map<Caller, Place>
    ghost var flights: set<Flight>
    ghost var log: Log

    /** The flight others may join for k is held by its owner. */
    ghost predicate CallOk(k: string)
      requires k in calls
      reads this
    {
      var f := calls[k];
      f in flights && f.key == k && f.owner in places && Holds(places[f.owner]) && places[f.owner].flight == f
    }

    ghost predicate PlaceOk(t: Caller)
      requires t in places
      reads this, flights
    {
      var p := places[t];
      && (!p.Missed? && !p.Finished? ==> p.flight in flights && p.flight.key == p.key)
      && (Owns(p) ==> p.flight.owner == t && p.flight.open)
      && (Holds(p) ==> p.key in calls && calls[p.key] == p.flight)
      && (Runs(p) ==> p.flight.outcome == Panicked && !IsSettled(log, p.flight))
      && (p.Loading? ==> Running(log, p.key) == Some(p.flight))
      && (p.Checked? ==> !Fresh(log, p.key))
    }

    /** A flight still open is its owner's to close, and one not being run holds
        what was settled: so nobody waits for a flight that no one will close. */
    ghost predicate FlightOk(f: Flight)
      requires f in flights
      reads this, flights
    {
      && f.owner in places
      && (f.open ==> Owns(places[f.owner]) && places[f.owner].flight == f)
      && ((Runs(places[f.owner]) && places[f.owner].flight == f) || Settled(f.key, f, f.outcome) in log)
    }

    /** What the record says of a key agrees with the state. */
    ghost predicate KeyOk(k: string)
      reads this
    {
      && (Running(log, k).Some? ==> k in calls && calls[k].owner in places && places[calls[k].owner].Loading?)
      && (Fresh(log, k) ==> k in store || (k in calls && calls[k].owner in places && places[calls[k].owner].Storing?))
    }

    ghost predicate LogOk()
      reads this
    {
      && AllFair(log)
      && forall e :: e in log && (e.Begin? || e.End? || e.Settled? || e.Returned?) ==> e.flight in flights
    }

    ghost predicate Valid()
      reads this, flights
    {
      && (forall k {:trigger CallOk(k)} :: k in calls ==> CallOk(k))
      && (forall t {:trigger PlaceOk(t)} :: t in places ==> PlaceOk(t))
      && (forall f {:trigger FlightOk(f)} :: f in flights ==> FlightOk(f))
      && (forall k {:trigger KeyOk(k)} :: KeyOk(k))
      && LogOk()
    }

    constructor ()
      ensures Valid() && store == map[] && places == map[] && log == []
    {
      store, calls, places, flights, log := map[], map[], map[], {}, [];
    }

    // --------------------------------------------- one caller at a time

    twostate predicate Leads(t: Caller, k: string)
      reads this
    {
      k in old(calls) && old(calls[k]).owner == t
    }

    /** Caller t, leading flight f if any, did something about key k: nothing of
        the other callers, flights and keys has changed. */
    twostate predicate StepOf(t: Caller, k: string, new f: Flight?)
      reads this, flights
    {
      && (forall u {:trigger u in places} {:trigger u in old(places)} :: u != t ==>
        (u in places <==> u in old(places)) && (u in places ==> places[u] == old(places[u])))
      && (t in old(places) && Owns(old(places[t])) ==> old(places[t]).key == k && old(places[t]).flight == f)
      && t in places && old(flights) <= flights
      && (forall g :: g in flights && g != f ==>
        g in old(flights) && g.outcome == old(g.outcome) && g.open == old(g.open))
      && (f != null ==> f.owner == t && f in flights)
      && (forall m {:trigger m in calls} {:trigger m in old(calls)} :: m != k ==>
        (m in calls <==> m in old(calls)) && (m in calls ==> calls[m] == old(calls[m])))
      && (k in old(calls) && !Leads(t, k) ==> k in calls && calls[k] == old(calls[k]))
      && (k in calls && calls[k].owner != t ==> k in old(calls) && calls[k] == old(calls[k]))
      && (forall m :: m in old(store) ==> m in store)
      && Extends(t, k)
    }

    /** What t may have added to the record: only the leader of k adds anything
        about k. */
    twostate predicate Extends(t: Caller, k: string)
      reads this
    {
      && old(log) <= log
      && forall e :: e in log[|old(log)|..] ==>
        if e.Returned? then e.flight in flights else Leads(t, k) && About(e, t, k)
    }

    ghost predicate About(e: Event, t: Caller, k: string)
      requires !e.Returned?
      reads this
    {
      && (e.Begin? || e.End? || e.Settled? ==> e.flight in flights && e.flight.owner == t)
      && !e.Removed? && e.key == k
    }

    twostate lemma LogKept(t: Caller, new k: string, new f: Flight?, new m: string)
      requires StepOf(t, k, f) && (m != k || !Leads(t, k))
      ensures Running(log, m) == old(Running(log, m)) && Fresh(log, m) == old(Fresh(log, m))
    {
      Unaffected(old(log), log[|old(log)|..], m);
      assert log == old(log) + log[|old(log)|..];
    }

    twostate lemma PlaceKept(t: Caller, new k: string, new f: Flight?, new u: Caller)
      requires old(Valid()) && StepOf(t, k, f) && u in places && u != t
      ensures PlaceOk(u)
    {
      assert u in old(places) && old(PlaceOk(u));
      var p := places[u];
      if Runs(p) {
        assert old(CallOk(p.key));
        LogKept(t, k, f, p.key);
        forall e | e in log && e.Settled? ensures e.flight != p.flight {
          if e !in old(log) { assert e in log[|old(log)|..]; }
        }
      }
    }

    twostate lemma FlightKept(t: Caller, new k: string, new f: Flight?, new g: Flight)
      requires old(Valid()) && StepOf(t, k, f) && g in flights && g != f
      ensures FlightOk(g)
    {
      assert g in old(flights) && old(FlightOk(g));
    }

    twostate lemma CallKept(t: Caller, new k: string, new f: Flight?, new m: string)
      requires old(Valid()) && StepOf(t, k, f) && m in calls && calls[m].owner != t
      ensures CallOk(m)
    {
      assert m in old(calls) && old(CallOk(m));
    }

    twostate lemma KeyKept(t: Caller, new k: string, new f: Flight?, new m: string)
      requires old(Valid()) && StepOf(t, k, f) && (m != k || !Leads(t, k))
      ensures KeyOk(m)
    {
      LogKept(t, k, f, m);
      assert old(KeyOk(m));
      if m in old(calls) {
        assert old(CallOk(m));
        var u := old(calls[m]).owner;
        assert u in old(places) && old(PlaceOk(u));
      }
    }

    /** The invariant holds after a step of t if it holds of t, its flight and
        its key. */
    twostate lemma StepKeeps(t: Caller, new k: string, new f: Flight?)
      requires old(Valid()) && StepOf(t, k, f)
      requires PlaceOk(t) && (f != null ==> FlightOk(f)) && (Leads(t, k) ==> KeyOk(k))
      requires k in calls && calls[k].owner == t ==> CallOk(k)
      requires AllFair(log)
      ensures Valid()
    {
      forall u | u in places ensures PlaceOk(u) { if u != t { PlaceKept(t, k, f, u); } }
      forall g | g in flights ensures FlightOk(g) { if g != f { FlightKept(t, k, f, g); } }
      forall m | m in calls ensures CallOk(m) {
        if calls[m].owner == t { OwnCalls(t, k, f, m); } else { CallKept(t, k, f, m); }
      }
      forall m ensures KeyOk(m) { if m != k || !Leads(t, k) { KeyKept(t, k, f, m); } }
      forall e | e in log && (e.Begin? || e.End? || e.Settled? || e.Returned?) ensures e.flight in flights {
        if e !in old(log) { assert e in log[|old(log)|..]; }
      }
    }

    twostate lemma OwnCalls(t: Caller, new k: string, new f: Flight?, new m: string)
      requires old(Valid()) && StepOf(t, k, f) && m in calls && calls[m].owner == t
      ensures m == k
    {
      if m in old(calls) { assert old(CallOk(m)) && old(PlaceOk(t)); }
    }

    // ---------------------------------------------------------- the steps

    /** The first look into the store, without joining anything. A store that
        fails to answer is taken for one that has nothing. */
    method Enter(t: Caller, k: string, answers: bool)
      requires Valid() && t !in places
      modifies this`places
      ensures Valid() && places == old(places)[t := if answers && k in store then Finished(Value(store[k]))
        else Missed(k)]
    {
      assert k in calls ==> CallOk(k);
      if answers && k in store {
        places := places[t := Finished(Value(store[k]))];
      } else {
        places := places[t := Missed(k)];
      }
      StepKeeps(t, k, null);
    }

    /** Joining the flight for the key, or starting one. */
    method Join(t: Caller)
      requires Valid() && t in places && places[t].Missed?
      modifies this`places, this`calls, this`flights
      ensures Valid()
      ensures var k := old(places[t]).key; k in old(calls) ==>
        calls == old(calls) && places == old(places)[t := Waiting(k, calls[k])]
      ensures var k := old(places[t]).key; k !in old(calls) ==>
        k in calls && fresh(calls[k]) && calls == old(calls)[k := calls[k]]
          && places == old(places)[t := Leading(k, calls[k])]
    {
      var k := places[t].key;
      if k in calls {
        assert CallOk(k);
        places := places[t := Waiting(k, calls[k])];
        StepKeeps(t, k, null);
      } else {
        var f := new Flight(k, t);
        calls := calls[k := f];
        flights := flights + {f};
        places := places[t := Leading(k, f)];
        StepKeeps(t, k, f);
      }
    }

    /** The leader looks into the store again: someone may have loaded the key
        since it last looked. */
    method Recheck(t: Caller, answers: bool)
      requires Valid() && t in places && places[t].Leading?
      modifies this`places, this`log, places[t].flight
      ensures Valid()
      ensures var k, f := old(places[t]).key, old(places[t]).flight;
        if answers && k in store then places == old(places)[t := Ending(k, f)] && f.outcome == Value(store[k])
          && log == old(log) + [Settled(k, f, f.outcome)]
        else places == old(places)[t := Checked(k, f)] && log == old(log) + if answers then [] else [Lost(k)]
    {
      var k, f := places[t].key, places[t].flight;
      assert PlaceOk(t) && CallOk(k) && KeyOk(k) && FlightOk(f);
      LookAgain(t, k, f, answers);
      StepKeeps(t, k, f);
    }

    method BeginLoad(t: Caller)
      requires Valid() && t in places && places[t].Checked?
      modifies this`places, this`log
      ensures Valid()
      ensures var k, f := old(places[t]).key, old(places[t]).flight;
        places == old(places)[t := Loading(k, f)] && log == old(log) + [Begin(k, f)]
    {
      var k, f := places[t].key, places[t].flight;
      assert PlaceOk(t) && CallOk(k) && KeyOk(k) && FlightOk(f);
      places := places[t := Loading(k, f)];
      assert (log + [Begin(k, f)])[..|log|] == log;
      Note(Begin(k, f), k);
      StepKeeps(t, k, f);
    }

    /** The load returns a value, or fails, or panics. */
    method EndLoad(t: Caller, o: Outcome)
      requires Valid() && t in places && places[t].Loading?
      modifies this`places, this`log, places[t].flight
      ensures Valid()
      ensures var k, f := old(places[t]).key, old(places[t]).flight;
        if o.Value? then places == old(places)[t := Storing(k, f, o.value)] && log == old(log) + [End(k, f, o)]
        else places == old(places)[t := Ending(k, f)] && f.outcome == o && log == old(log) + [End(k, f, o),
          Settled(k, f, o)]
    {
      var k, f := places[t].key, places[t].flight;
      assert PlaceOk(t) && CallOk(k) && KeyOk(k) && FlightOk(f);
      Load(t, k, f, o);
      StepKeeps(t, k, f);
    }

    /** The loaded value goes into the store, which may fail to keep it: the
        caller has its value anyway. */
    method Keep(t: Caller, keeps: bool)
      requires Valid() && t in places && places[t].Storing?
      modifies this`places, this`log, this`store, places[t].flight
      ensures Valid()
      ensures var k, f, v := old(places[t]).key, old(places[t]).flight, old(places[t]).value;
        && places == old(places)[t := Ending(k, f)] && f.outcome == Value(v)
        && store == (if keeps then old(store)[k := v] else old(store))
        && log == old(log) + (if keeps then [] else [Lost(k)]) + [Settled(k, f, Value(v))]
    {
      var k, f, v := places[t].key, places[t].flight, places[t].value;
      assert PlaceOk(t) && CallOk(k) && KeyOk(k) && FlightOk(f);
      Deposit(t, k, f, v, keeps);
      StepKeeps(t, k, f);
    }

    /** The store or the codec panics under the leader. */
    method Panic(t: Caller)
      requires Valid() && t in places && (places[t].Leading? || places[t].Storing?)
      modifies this`places, this`log, places[t].flight
      ensures Valid()
      ensures var k, f := old(places[t]).key, old(places[t]).flight;
        && places == old(places)[t := Ending(k, f)] && f.outcome == Panicked
        && log == old(log) + [Lost(k), Settled(k, f, Panicked)]
    {
      var k, f := places[t].key, places[t].flight;
      assert PlaceOk(t) && CallOk(k) && KeyOk(k) && FlightOk(f);
      Settle(t, k, f, Panicked, true);
      StepKeeps(t, k, f);
    }

    /** The leader takes its flight off the board, so that nobody joins it any
        more, whether its function returned or panicked. */
    method Release(t: Caller)
      requires Valid() && t in places && places[t].Ending?
      modifies this`places, this`calls
      ensures Valid() && calls == old(calls) - {old(places[t]).key}
      ensures places == old(places)[t := Releasing(old(places[t]).key, old(places[t]).flight)]
    {
      var k, f := places[t].key, places[t].flight;
      assert PlaceOk(t) && CallOk(k) && KeyOk(k) && FlightOk(f);
      calls := calls - {k};
      places := places[t := Releasing(k, f)];
      StepKeeps(t, k, f);
    }

    /** The leader lets the others go and returns what its flight holds. */
    method Close(t: Caller)
      requires Valid() && t in places && places[t].Releasing?
      modifies this`places, this`log, places[t].flight
      ensures Valid()
      ensures var f := old(places[t]).flight;
        !f.open && places == old(places)[t := Finished(f.outcome)] && log == old(log) + [Returned(t, f, f.outcome)]
    {
      var k, f := places[t].key, places[t].flight;
      assert PlaceOk(t) && FlightOk(f) && (k in calls ==> CallOk(k));
      f.open := false;
      places := places[t := Finished(f.outcome)];
      assert (log + [Returned(t, f, f.outcome)])[..|log|] == log;
      Note(Returned(t, f, f.outcome), k);
      StepKeeps(t, k, f);
    }

    /** One who waited for a flight returns what the flight holds. */
    method Wake(t: Caller)
      requires Valid() && t in places && places[t].Waiting? && !places[t].flight.open
      modifies this`places, this`log
      ensures Valid()
      ensures var f := old(places[t]).flight;
        places == old(places)[t := Finished(f.outcome)] && log == old(log) + [Returned(t, f, f.outcome)]
    {
      var k, f := places[t].key, places[t].flight;
      assert PlaceOk(t) && FlightOk(f) && PlaceOk(f.owner) && (k in calls ==> CallOk(k));
      places := places[t := Finished(f.outcome)];
      assert (log + [Returned(t, f, f.outcome)])[..|log|] == log;
      Note(Returned(t, f, f.outcome), k);
      StepKeeps(t, k, null);
    }

    /** An entry expires or is deleted, whatever is under way. */
    method Remove(k: string)
      requires Valid()
      modifies this`store, this`log
      ensures Valid() && store == old(store) - {k} && log == old(log) + [Removed(k)]
    {
      label Before:
      store := store - {k};
      Note(Removed(k), k);
      StoreStep@Before(k);
    }

    /** Someone writes an entry without loading it. */
    method Put(k: string, v: string)
      requires Valid()
      modifies this`store
      ensures Valid() && store == old(store)[k := v]
    {
      label Before:
      store := store[k := v];
      StoreStep@Before(k);
    }

    twostate lemma StoreStep(k: string)
      requires old(Valid()) && AllFair(log)
      requires places == old(places) && calls == old(calls) && flights == old(flights)
      requires forall f :: f in flights ==> f.open == old(f.open) && f.outcome == old(f.outcome)
      requires log == old(log) || log == old(log) + [Removed(k)]
      requires forall m :: m in old(store) ==> m in store || (m == k && log != old(log))
      ensures Valid()
    {
      forall m ensures Running(log, m) == old(Running(log, m))
        && (Fresh(log, m) ==> old(Fresh(log, m)) && (m == k ==> log == old(log))) {
        RunningAppend(old(log), Removed(k), m);
      }
      forall m | m in calls ensures CallOk(m) { assert old(CallOk(m)); }
      forall t | t in places ensures PlaceOk(t) { assert old(PlaceOk(t)); }
      forall f | f in flights ensures FlightOk(f) { assert old(FlightOk(f)); }
      forall m ensures KeyOk(m) { assert old(KeyOk(m)); }
    }

    /** What the second look comes to. A store that fails to answer may have lost
        the key. */
    method LookAgain(t: Caller, k: string, f: Flight, answers: bool)
      requires AllFair(log) && !IsSettled(log, f) && (Fresh(log, k) ==> k in store)
      modifies this`places, this`log, f`outcome
      ensures var hit := answers && k in store;
        && f.outcome == (if hit then Value(store[k]) else old(f.outcome))
        && places == old(places)[t := if hit then Ending(k, f) else Checked(k, f)]
        && log == old(log) + (if hit then [Settled(k, f, f.outcome)] else if answers then [] else [Lost(k)])
        && (hit || !Fresh(log, k))
      ensures AllFair(log) && Running(log, k) == old(Running(log, k)) && (Fresh(log, k) ==> old(Fresh(log, k)))
      ensures forall e :: e in log[|old(log)|..] ==> e == Lost(k) || e == Settled(k, f, f.outcome)
      ensures answers ==> Fresh(log, k) == old(Fresh(log, k))
    {
      if answers && k in store {
        Settle(t, k, f, Value(store[k]), false);
      } else {
        places := places[t := Checked(k, f)];
        if !answers { Note(Lost(k), k); }
      }
    }

    /** The load of t for k has ended. */
    method Load(t: Caller, k: string, f: Flight, o: Outcome)
      requires AllFair(log) && !IsSettled(log, f) && Running(log, k) == Some(f)
      modifies this`places, this`log, f`outcome
      ensures f.outcome == if o.Value? then old(f.outcome) else o
      ensures places == old(places)[t := if o.Value? then Storing(k, f, o.value) else Ending(k, f)]
      ensures AllFair(log) && log == old(log) + if o.Value? then [End(k, f, o)] else [End(k, f, o), Settled(k, f, o)]
      ensures forall e :: e in log[|old(log)|..] ==> e == End(k, f, o) || (!o.Value? && e == Settled(k, f, o))
      ensures Running(log, k) == None && (Fresh(log, k) <==> o.Value? || old(Fresh(log, k)))
    {
      assert (log + [End(k, f, o)])[..|log|] == log;
      Note(End(k, f, o), k);
      if o.Value? {
        places := places[t := Storing(k, f, o.value)];
      } else {
        Settle(t, k, f, o, false);
      }
    }

    /** The value goes into the store or is lost, and the flight holds it. */
    method Deposit(t: Caller, k: string, f: Flight, v: string, keeps: bool)
      requires AllFair(log) && !IsSettled(log, f)
      modifies this`places, this`log, this`store, f`outcome
      ensures f.outcome == Value(v) && places == old(places)[t := Ending(k, f)]
      ensures store == if keeps then old(store)[k := v] else old(store)
      ensures log == old(log) + (if keeps then [] else [Lost(k)]) + [Settled(k, f, Value(v))]
      ensures forall e :: e in log[|old(log)|..] ==> e == Settled(k, f, Value(v)) || (!keeps && e == Lost(k))
      ensures AllFair(log) && Running(log, k) == old(Running(log, k)) && (Fresh(log, k) ==> k in store)
    {
      if keeps { store := store[k := v]; }
      Settle(t, k, f, Value(v), !keeps);
    }

    /** The flight of t holds its outcome and is ready to leave the board; what
        the store held of the key may have been lost on the way. */
    method Settle(t: Caller, k: string, f: Flight, o: Outcome, lost: bool)
      requires AllFair(log) && !IsSettled(log, f)
      modifies this`places, this`log, f`outcome
      ensures f.outcome == o && places == old(places)[t := Ending(k, f)]
      ensures AllFair(log) && log == old(log) + (if lost then [Lost(k)] else []) + [Settled(k, f, o)]
      ensures forall e :: e in log[|old(log)|..] ==> e == Settled(k, f, o) || (lost && e == Lost(k))
      ensures Running(log, k) == old(Running(log, k)) && (Fresh(log, k) <==> !lost && old(Fresh(log, k)))
    {
      if lost { Note(Lost(k), k); }
      f.outcome := o;
      places := places[t := Ending(k, f)];
      assert (log + [Settled(k, f, o)])[..|log|] == log;
      Note(Settled(k, f, o), k);
    }

    /** Adding to the record. */
    ghost method Note(e: Event, k: string)
      requires AllFair(log) && Fair(log + [e], |log|)
      modifies this`log
      ensures AllFair(log) && log == old(log) + [e]
      ensures Running(log, k) == if e.Begin? && e.key == k then Some(e.flight) else if e.End? && e.key == k then None
        else old(Running(log, k))
      ensures Fresh(log, k) <==> Loaded(e, k) || (!Gone(e, k) && old(Fresh(log, k)))
    {
      FairAppend(log, e);
      RunningAppend(log, e, k);
      log := log + [e];
    }
  }

  lemma {:induction false} Unaffected(log: Log, more: Log, k: string)
    requires forall e :: e in more ==> e.Returned? || e.Settled? || e.key != k
    ensures Running(log + more, k) == Running(log, k)
    ensures Fresh(log + more, k) == Fresh(log, k)
  {
    if more == [] {
      assert log + more == log;
    } else {
      var n := |more| - 1;
      Unaffected(log, more[..n], k);
      assert log + more == (log + more[..n]) + [more[n]];
      RunningAppend(log + more[..n], more[n], k);
    }
  }
}
