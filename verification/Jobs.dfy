/** The job manager and its in-memory queue: dispatchers, timers, workers and
    Close interleave freely, one method being one step of one of them. */
module Jobs {
  // ------------------------------------------------------------- backoff

  function Doubled(base: nat, times: nat): nat { if times == 0 then base else 2 * Doubled(base, times - 1) }

  lemma {:induction false} DoubledGrows(base: nat, a: nat, b: nat)
    requires a <= b
    ensures Doubled(base, a) <= Doubled(base, b)
  {
    if a < b { DoubledGrows(base, a, b - 1); }
  }

  /** Once is twice as much, and a times and then b times is a + b times. */
  lemma {:induction false} DoubledIs(base: nat, a: nat, b: nat)
    ensures Doubled(base, 0) == base && Doubled(base, 1) == base + base
    ensures Doubled(Doubled(base, a), b) == Doubled(base, a + b)
  {
    if b > 0 { DoubledIs(base, a, b - 1); }
  }

  /** base doubled so many times, but no more than max. */
  function Capped(base: nat, times: nat, max: nat): nat {
    if Doubled(base, times) < max then Doubled(base, times) else max
  }

  /** The delay before a retry: base doubled once for every attempt made before
      the last, capped, and at random up to a fifth more. */
  method ExponentialBackoff(base: nat, max: nat, attempt: int) returns (r: nat)
    ensures var d := Capped(base, if attempt > 1 then attempt - 1 else 0, max); d <= r <= d + d / 5
  {
    var d := base;
    var i := 1;
    while i < attempt && d < max
      invariant 1 <= i && (i <= attempt || i == 1)
      invariant d == Doubled(base, i - 1)
    {
      d := d * 2;
      i := i + 1;
    }
    if i < attempt { DoubledGrows(base, i - 1, attempt - 1); }
    if d > max { d := max; }
    var jitter :| 0 <= jitter <= d / 5;
    r := d + jitter;
  }

  // ---------------------------------------------------------------- state

  /** serial tells dispatched jobs apart; a retry is the same job, one attempt
      on. */
  datatype Job = Job(serial: nat, name: string, attempt: nat, maxAttempts: int)

  datatype Verdict = Ack | Retry(delayed: bool) | Reject

  /** What a worker is at. Sending is waiting for room to put a job back. */
  datatype Duty = Idle | Holding(job: Job) | Handling(job: Job) | Judged(job: Job, verdict: Verdict) | Sending

  /** Whether a worker has a delivery on its hands. */
  predicate Delivered(d: Duty) { d.Holding? || d.Handling? || d.Judged? }

  /** Who may wait for room in the ready channel. */
  datatype Party = Timer(t: nat) | Dispatcher(d: nat) | Worker(w: nat)

  /** Where a job is. Lost is what Close does to jobs not yet ready, Refused
      what a dispatcher is told. */
  datatype Spot =
    | Ready
    | Delayed(timer: nat)
    | Blocked(party: Party)
    | With(worker: nat)
    | Acked
    | Failed
    | Refused
    | Lost

  /** Everything that has happened to a job: how it is now, where it is, whether
      its handler has been given this attempt, the attempts it has been given,
      and how its deliveries were settled. */
  datatype Fate = Fate(job: Job, spot: Spot, ran: bool, runs: seq<nat>, verdicts: seq<Verdict>)

  /** The attempts 1 to n, in order. */
  ghost predicate UpTo(s: seq<nat>, n: nat) { |s| == n && forall i :: 0 <= i < n ==> s[i] == i + 1 }

  ghost predicate Retried(v: seq<Verdict>, k: nat) { |v| >= k && forall i :: 0 <= i < k ==> v[i].Retry? }

  /** The handler has run at attempts 1, 2 and so on without a gap, never beyond
      the limit; and every delivery was settled once, by a retry at each attempt
      but the one it was acknowledged or rejected at. */
  ghost predicate Proper(f: Fate, limit: int) {
    var n := f.job.attempt;
    && n >= 1 && (n > 1 ==> n <= limit)
    && UpTo(f.runs, if f.ran then n else n - 1)
    && Retried(f.verdicts, n - 1)
    && |f.verdicts| == (if f.spot.Acked? || f.spot.Failed? then n else n - 1)
    && (f.spot.Acked? ==> f.verdicts[n-1] == Ack) && (f.spot.Failed? ==> f.verdicts[n-1] == Reject)
    && (f.spot.Acked? ==> f.ran)
    && (f.ran ==> f.spot.Acked? || f.spot.Failed? || f.spot.With?)
  }

  lemma Begun(f: Fate, limit: int)
    requires Proper(f, limit) && !f.ran && f.spot.With?
    ensures Proper(f.(ran := true, runs := f.runs + [f.job.attempt]), limit)
  {
  }

  lemma Over(f: Fate, limit: int, v: Verdict)
    requires Proper(f, limit) && f.spot.With? && (v.Ack? ==> f.ran) && !v.Retry?
    ensures Proper(f.(spot := if v.Ack? then Acked else Failed, verdicts := f.verdicts + [v]), limit)
  {
  }

  lemma Again(f: Fate, limit: int, v: Verdict, s: Spot)
    requires Proper(f, limit) && f.spot.With? && f.ran && v.Retry? && f.job.attempt < limit && !s.Acked? && !s.Failed?
    ensures Proper(f.(job := f.job.(attempt := f.job.attempt + 1), spot := s, ran := false,
      verdicts := f.verdicts + [v]), limit)
  {
  }

  /** At most max(1, limit) runs, and as many deliveries settled as made. */
  lemma Bounded(f: Fate, limit: int)
    requires Proper(f, limit)
    ensures UpTo(f.runs, |f.runs|) && |f.runs| <= (if limit > 1 then limit else 1)
    ensures f.spot.Acked? || f.spot.Failed? ==> |f.verdicts| == f.job.attempt
    ensures f.spot.Acked? ==> |f.runs| == |f.verdicts|
  {
  }

  class Manager {
    const capacity: nat
    var handlers: map<string, int>
    var running: bool
    var ch: seq<Job>
    var timers: map<nat, Job>
    var blocked: map<Party, Job>
    var workers: map<nat, Duty>
    var closed: bool
    var failed: seq<Job>
    /** How many jobs have been made. */
    var made: nat
    ghost var fates: seq<Fate>

    /** The attempt limit of a job: its own, or else its handler's. */
    function Limit(j: Job): (limit: int)
      reads this`handlers
      ensures j.maxAttempts > 0 ==> limit == j.maxAttempts
      ensures j.maxAttempts <= 0 && j.name in handlers ==> limit == handlers[j.name]
    {
      if j.maxAttempts > 0 then j.maxAttempts else if j.name in handlers then handlers[j.name] else 0
    }

    /** j is the job it says, at the given spot. */
    ghost predicate Is(j: Job, s: Spot)
      reads this`fates
    {
      j.serial < |fates| && fates[j.serial].spot == s && fates[j.serial].job == j
    }

    /** A job is where its fate says. */
    ghost predicate Placed(n: nat)
      requires n < |fates|
      reads this
    {
      var f := fates[n];
      f.job.serial == n && match f.spot
        case Ready => f.job in ch
        case Delayed(t) => t in timers && timers[t] == f.job
        case Blocked(p) => p in blocked && blocked[p] == f.job
        case With(w) => w in workers && !workers[w].Idle? && !workers[w].Sending? && workers[w].job == f.job
          && (f.ran <==> !workers[w].Holding?)
        case Failed => f.job in failed
        case Lost => closed
        case _ => true
    }

    ghost predicate FateOk(n: nat)
      requires n < |fates|
      reads this
    {
      Placed(n) && Proper(fates[n], Limit(fates[n].job)) && (fates[n].job.attempt > 1 ==> fates[n].job.name in handlers)
    }

    ghost predicate Distinct(s: seq<Job>) { forall i, j :: 0 <= i < j < |s| ==> s[i].serial != s[j].serial }

    ghost predicate AllAre(s: seq<Job>, at: Spot)
      reads this`fates
    {
      forall j :: j in s ==> Is(j, at)
    }

    ghost predicate DutyOk(w: nat)
      requires w in workers
      reads this
    {
      var d := workers[w];
      && (Delivered(d) ==> Is(d.job, With(w)))
      && (d.Handling? || d.Judged? ==> d.job.name in handlers)
      && (d.Judged? && d.verdict.Retry? ==> d.job.attempt < Limit(d.job))
    }

    ghost predicate TimerOk(t: nat)
      requires t in timers
      reads this
    {
      Is(timers[t], Delayed(t))
    }

    ghost predicate PartyOk(p: Party)
      requires p in blocked
      reads this
    {
      Is(blocked[p], Blocked(p)) && (p.Worker? ==> p.w in workers && workers[p.w].Sending?)
    }

    /** Every job is in exactly the place its fate says; every place holds only
        jobs whose fates say so. */
    ghost predicate Valid()
      reads this
    {
      && |fates| == made && |ch| <= capacity && capacity > 0 && (closed ==> timers == map[])
      && Distinct(ch) && AllAre(ch, Ready) && Distinct(failed) && AllAre(failed, Failed)
      && (forall t :: t in timers ==> TimerOk(t))
      && (forall p :: p in blocked ==> PartyOk(p))
      && (forall w :: w in workers ==> DutyOk(w))
      && (forall n {:trigger FateOk(n)} :: 0 <= n < made ==> FateOk(n))
    }

    constructor (size: int)
      ensures Valid() && made == 0 && workers == map[] && handlers == map[] && !closed && !running
      ensures ch == [] && timers == map[] && blocked == map[] && failed == []
      ensures capacity == if size <= 0 then 1024 else size
    {
      capacity := if size <= 0 then 1024 else size;
      handlers, running, ch, timers, blocked, workers := map[], false, [], map[], map[], map[];
      closed, failed, made, fates := false, [], 0, [];
    }

    // ------------------------------------------------- one job at a time

    /** Only job n has a new fate, and only its places have changed. */
    twostate predicate Moved(n: nat)
      reads this
    {
      && n < |fates| == made && old(made) == old(|fates|) <= made <= old(made) + 1
        && (made > old(made) ==> n == old(made))
      && (forall m :: 0 <= m < made && m != n ==> fates[m] == old(fates[m]))
      && handlers == old(handlers) && closed == old(closed)
      && (forall j: Job {:trigger j in ch} {:trigger j in old(ch)} {:trigger j in failed} {:trigger j in old(failed)} ::
        j.serial != n ==> (j in ch <==> j in old(ch)) && (j in failed <==> j in old(failed)))
      && (forall t {:trigger t in timers} {:trigger t in old(timers)} ::
        (t in old(timers) && old(timers[t]).serial != n) || (t in timers && timers[t].serial != n) ==>
        t in timers && t in old(timers) && timers[t] == old(timers[t]))
      && (forall p {:trigger p in blocked} {:trigger p in old(blocked)} ::
        (p in old(blocked) && old(blocked[p]).serial != n) || (p in blocked && blocked[p].serial != n) ==>
        p in blocked && p in old(blocked) && blocked[p] == old(blocked[p]))
      && workers.Keys == old(workers.Keys)
    }

    /** Only worker u (if not negative), who has job n if anyone has, has a new duty. */
    twostate predicate Others(u: int, n: nat)
      requires workers.Keys == old(workers.Keys)
      reads this
    {
      && (forall w :: w in workers && w != u ==> workers[w] == old(workers[w]))
      && (0 <= u && Worker(u) in blocked ==> u in workers && workers[u].Sending?)
      && (0 <= u && u in workers ==> DutyOk(u) && (Delivered(old(workers[u])) ==> old(workers[u]).job.serial == n))
      && (n < old(|fates|) && old(fates)[n].spot.With? ==> old(fates)[n].spot.worker == u)
    }

    twostate lemma Stays(n: nat, new u: int, new m: nat)
      requires old(Valid()) && Moved(n) && Others(u, n) && m != n && m < made
      ensures FateOk(m)
    {
      assert old(FateOk(m));
      var f := fates[m];
      if f.spot.With? { assert old(DutyOk(f.spot.worker)); }
    }

    /** Job n is held nowhere but where its fate says. */
    ghost predicate OnlyAt(n: nat)
      reads this
    {
      && (forall j :: j in ch && j.serial == n ==> Is(j, Ready))
      && (forall j :: j in failed && j.serial == n ==> Is(j, Failed))
      && (forall t :: t in timers && timers[t].serial == n ==> TimerOk(t))
      && (forall p :: p in blocked && blocked[p].serial == n ==> PartyOk(p))
    }

    /** The invariant holds after a step of job n, made or not by worker u, if it
        holds of them. */
    twostate lemma MoveKeeps(n: nat, new u: int)
      requires old(Valid()) && Moved(n) && Others(u, n) && OnlyAt(n) && FateOk(n)
      requires Distinct(ch) && Distinct(failed) && |ch| <= capacity && (closed ==> timers == map[])
      ensures Valid()
    {
      QueuesStay(n);
      MapsStay(n, u);
      forall w | w in workers ensures DutyOk(w) { if w != u { DutyStays(n, u, w); } }
      forall m | 0 <= m < made ensures FateOk(m) { if m != n { Stays(n, u, m); } }
    }

    twostate lemma QueuesStay(n: nat)
      requires old(Valid()) && Moved(n) && OnlyAt(n)
      ensures AllAre(ch, Ready) && AllAre(failed, Failed)
    {
      forall j | j in ch ensures Is(j, Ready) { if j.serial != n { assert j in old(ch); } }
      forall j | j in failed ensures Is(j, Failed) { if j.serial != n { assert j in old(failed); } }
    }

    twostate lemma MapsStay(n: nat, new u: int)
      requires old(Valid()) && Moved(n) && Others(u, n) && OnlyAt(n)
      ensures forall t :: t in timers ==> TimerOk(t)
      ensures forall p :: p in blocked ==> PartyOk(p)
    {
      forall t | t in timers ensures TimerOk(t) { if timers[t].serial != n { assert old(TimerOk(t)); } }
      forall p | p in blocked ensures PartyOk(p) { if blocked[p].serial != n { assert old(PartyOk(p)); } }
    }

    twostate lemma DutyStays(n: nat, new u: int, new w: nat)
      requires old(Valid()) && Moved(n) && Others(u, n) && w in workers && w != u
      ensures DutyOk(w)
    {
      assert old(DutyOk(w));
    }

    // ---------------------------------------------------------- dispatching

    /** Dispatching: a name nobody handles is refused if there are handlers at
        all, and so is anything once the queue is closed. With a delay the job
        goes to a timer, without one it waits for room. */
    method Dispatch(d: nat, t: nat, name: string, delayed: bool) returns (ok: bool)
      requires Valid() && Dispatcher(d) !in blocked && t !in timers
      modifies this`timers, this`blocked, this`made, this`fates
      ensures Valid()
      ensures ok <==> (handlers == map[] || name in handlers) && !closed
      ensures !ok ==> unchanged(this)
      ensures ok ==> Made(name, if delayed then Delayed(t) else Blocked(Dispatcher(d)))
      ensures ok ==> timers == if delayed then old(timers)[t := fates[old(made)].job] else old(timers)
      ensures ok ==> blocked == if delayed then old(blocked) else old(blocked)[Dispatcher(d) := fates[old(made)].job]
    {
      if handlers != map[] && name !in handlers { return false; }
      if closed { return false; }
      var j := Job(made, name, 1, if name in handlers then handlers[name] else 0);
      if delayed { Schedule(j, t); } else { Offer(j, d); }
      return true;
    }

    /** One more job has been made, at its first attempt. */
    twostate predicate Made(name: string, s: Spot)
      reads this
    {
      && made == old(made) + 1 == |fates|
      && fates == old(fates) + [Fate(Job(old(made), name, 1, if name in handlers then handlers[name] else 0), s, false,
        [], [])]
    }

    method Schedule(j: Job, t: nat)
      requires Valid() && t !in timers && !closed && j.serial == made && j.attempt == 1
      modifies this`timers, this`made, this`fates
      ensures Valid() && made == old(made) + 1 && timers == old(timers)[t := j]
      ensures fates == old(fates) + [Fate(j, Delayed(t), false, [], [])]
    {
      timers := timers[t := j];
      fates := fates + [Fate(j, Delayed(t), false, [], [])];
      made := made + 1;
      MoveKeeps(j.serial, -1);
    }

    method Offer(j: Job, d: nat)
      requires Valid() && Dispatcher(d) !in blocked && j.serial == made && j.attempt == 1
      modifies this`blocked, this`made, this`fates
      ensures Valid() && made == old(made) + 1 && blocked == old(blocked)[Dispatcher(d) := j]
      ensures fates == old(fates) + [Fate(j, Blocked(Dispatcher(d)), false, [], [])]
    {
      blocked := blocked[Dispatcher(d) := j];
      fates := fates + [Fate(j, Blocked(Dispatcher(d)), false, [], [])];
      made := made + 1;
      MoveKeeps(j.serial, -1);
    }

    /** There is room for the job that p was waiting with. */
    method Land(p: Party)
      requires Valid() && p in blocked && |ch| < capacity
      modifies this`ch, this`blocked, this`fates
      ensures Valid() && ch == old(ch) + [old(blocked[p])] && blocked == old(blocked) - {p}
      ensures var n := old(blocked[p]).serial;
        n < old(|fates|) && fates == old(fates)[n := old(fates)[n].(spot := Ready)]
    {
      var j := blocked[p];
      assert PartyOk(p) && FateOk(j.serial);
      NotQueued(j);
      Pushed(ch, j);
      ch := ch + [j];
      blocked := blocked - {p};
      fates := fates[j.serial := fates[j.serial].(spot := Ready)];
      assert Moved(j.serial);
      MoveKeeps(j.serial, -1);
    }

    lemma NotQueued(j: Job)
      requires AllAre(ch, Ready) && j.serial < |fates| && fates[j.serial].spot != Ready
      ensures forall x :: x in ch ==> x.serial != j.serial
    {
      assert forall x :: x in ch ==> Is(x, Ready);
    }

    lemma Pushed(s: seq<Job>, j: Job)
      ensures Distinct(s) && (forall x :: x in s ==> x.serial != j.serial) ==> Distinct(s + [j])
      ensures forall x :: x in s + [j] <==> x in s || x == j
    {
    }

    /** Nobody waits for ever: a dispatcher's time is up, or the queue closed. */
    method Abandon(p: Party)
      requires Valid() && p in blocked && (p.Dispatcher? || closed)
      modifies this`blocked, this`fates
      ensures Valid() && blocked == old(blocked) - {p}
      ensures var n := old(blocked[p]).serial;
        n < old(|fates|) && fates == old(fates)[n := old(fates)[n].(spot := if p.Dispatcher? then Refused else Lost)]
    {
      var j := blocked[p];
      assert PartyOk(p) && FateOk(j.serial);
      blocked := blocked - {p};
      fates := fates[j.serial := fates[j.serial].(spot := if p.Dispatcher? then Refused else Lost)];
      MoveKeeps(j.serial, -1);
    }

    /** A worker goes on once its job has been put back or dropped. */
    method Return(w: nat)
      requires Valid() && w in workers && workers[w].Sending? && Worker(w) !in blocked
      modifies this`workers
      ensures Valid() && workers == old(workers)[w := Idle]
    {
      workers := workers[w := Idle];
      forall n | 0 <= n < made ensures FateOk(n) { assert old(FateOk(n)); }
      forall u | u in workers ensures DutyOk(u) { if u != w { assert old(DutyOk(u)); } }
      forall p | p in blocked ensures PartyOk(p) { assert old(PartyOk(p)); }
    }

    /** A timer goes off: its job is no longer delayed, and not yet ready. */
    method Fire(t: nat)
      requires Valid() && t in timers && Timer(t) !in blocked
      modifies this`timers, this`blocked, this`fates
      ensures Valid() && timers == old(timers) - {t} && blocked == old(blocked)[Timer(t) := old(timers[t])]
      ensures var n := old(timers[t]).serial;
        n < old(|fates|) && fates == old(fates)[n := old(fates)[n].(spot := Blocked(Timer(t)))]
    {
      var j := timers[t];
      assert TimerOk(t) && FateOk(j.serial);
      timers := timers - {t};
      blocked := blocked[Timer(t) := j];
      fates := fates[j.serial := fates[j.serial].(spot := Blocked(Timer(t)))];
      MoveKeeps(j.serial, -1);
    }

    // -------------------------------------------------------------- workers

    method Receive(w: nat)
      requires Valid() && w in workers && workers[w].Idle? && ch != []
      modifies this`ch, this`workers, this`fates
      ensures Valid() && ch == old(ch)[1..] && workers == old(workers)[w := Holding(old(ch)[0])]
      ensures var n := old(ch)[0].serial; n < old(|fates|) && fates == old(fates)[n := old(fates)[n].(spot := With(w))]
    {
      var j := ch[0];
      assert Is(j, Ready) && FateOk(j.serial) && DutyOk(w);
      Pulled(ch);
      ch := ch[1..];
      workers := workers[w := Holding(j)];
      fates := fates[j.serial := fates[j.serial].(spot := With(w))];
      MoveKeeps(j.serial, w);
    }

    lemma Pulled(s: seq<Job>)
      requires s != [] && Distinct(s)
      ensures Distinct(s[1..]) && forall x :: x in s[1..] <==> x in s && x.serial != s[0].serial
    {
      assert forall i :: 0 <= i < |s| - 1 ==> s[1..][i] == s[i+1];
      forall x | x in s && x.serial != s[0].serial ensures x in s[1..] {
        var i :| 0 <= i < |s| && s[i] == x;
        assert s[1..][i-1] == x;
      }
    }

    /** The handler starts; a job nobody handles is rejected instead. */
    method Handle(w: nat)
      requires Valid() && w in workers && workers[w].Holding?
      modifies this`workers, this`failed, this`fates
      ensures Valid()
      ensures old(workers[w]).job.name in handlers ==> Started(w, old(workers[w]).job)
      ensures old(workers[w]).job.name !in handlers ==> Rejected(w, old(workers[w]).job)
    {
      if workers[w].job.name in handlers { Begin(w); } else { RejectBy(w); }
    }

    /** Worker w runs the handler on its job. */
    twostate predicate Started(w: nat, j: Job)
      reads this
    {
      && workers == old(workers)[w := Handling(j)] && failed == old(failed) && j.serial < old(|fates|)
      && fates == old(fates)[j.serial := old(fates)[j.serial].(ran := true,
        runs := old(fates)[j.serial].runs + [j.attempt])]
    }

    method Begin(w: nat)
      requires Valid() && w in workers && workers[w].Holding? && workers[w].job.name in handlers
      modifies this`workers, this`fates
      ensures Valid() && Started(w, old(workers[w]).job)
    {
      var j := workers[w].job;
      assert DutyOk(w) && FateOk(j.serial);
      workers := workers[w := Handling(j)];
      Begun(fates[j.serial], Limit(j));
      fates := fates[j.serial := fates[j.serial].(ran := true, runs := fates[j.serial].runs + [j.attempt])];
      MoveKeeps(j.serial, w);
    }

    /** Worker w has put its job among the failed ones. */
    twostate predicate Rejected(w: nat, j: Job)
      reads this
    {
      && workers == old(workers)[w := Idle] && failed == old(failed) + [j] && j.serial < old(|fates|)
      && fates == old(fates)[j.serial := old(fates)[j.serial].(spot := Failed,
        verdicts := old(fates)[j.serial].verdicts + [Reject])]
    }

    method RejectBy(w: nat)
      requires Valid() && w in workers && (workers[w].Holding? || workers[w].Judged?)
      modifies this`workers, this`failed, this`fates
      ensures Valid() && Rejected(w, old(workers[w]).job)
    {
      var j := workers[w].job;
      assert DutyOk(w) && FateOk(j.serial);
      Pushed(failed, j);
      failed := failed + [j];
      workers := workers[w := Idle];
      Over(fates[j.serial], Limit(j), Reject);
      fates := fates[j.serial := fates[j.serial].(spot := Failed, verdicts := fates[j.serial].verdicts + [Reject])];
      assert Rejected(w, j);
      MoveKeeps(j.serial, w);
    }

    /** The handler returns: what is to become of the job. */
    method Judge(w: nat, ok: bool, permanent: bool, delayed: bool)
      requires Valid() && w in workers && workers[w].Handling?
      modifies this`workers
      ensures Valid()
      ensures var j := old(workers[w]).job; workers == old(workers)[w := Judged(j, if ok then Ack
        else if !permanent && j.attempt < Limit(j) then Retry(delayed) else Reject)]
    {
      var j := workers[w].job;
      assert DutyOk(w) && FateOk(j.serial);
      workers := workers[w := Judged(j, if ok then Ack else if !permanent && j.attempt < Limit(j) then Retry(delayed)
        else Reject)];
      MoveKeeps(j.serial, w);
    }

    /** The delivery is settled: acknowledged, rejected, or put back one attempt
        on, which a closed queue refuses. */
    method Settle(w: nat, t: nat)
      requires Valid() && w in workers && workers[w].Judged? && t !in timers
      modifies this`workers, this`failed, this`timers, this`blocked, this`fates
      ensures Valid()
      ensures var Judged(j, v) := old(workers[w]); v.Ack? ==> Acknowledged(w, j)
      ensures var Judged(j, v) := old(workers[w]); v.Reject? ==> Rejected(w, j)
      ensures var Judged(j, v) := old(workers[w]); v.Retry? ==> Requeued(w, t, j, v)
    {
      match workers[w].verdict
      case Ack => AckBy(w);
      case Reject => RejectBy(w);
      case Retry(_) => Requeue(w, t);
    }

    twostate predicate Acknowledged(w: nat, j: Job)
      reads this
    {
      && workers == old(workers)[w := Idle] && j.serial < old(|fates|) && failed == old(failed) && timers == old(timers)
        && blocked == old(blocked)
      && fates == old(fates)[j.serial := old(fates)[j.serial].(spot := Acked,
        verdicts := old(fates)[j.serial].verdicts + [Ack])]
    }

    method AckBy(w: nat)
      requires Valid() && w in workers && workers[w].Judged?
      modifies this`workers, this`fates
      ensures Valid() && Acknowledged(w, old(workers[w]).job)
    {
      var j := workers[w].job;
      assert DutyOk(w) && FateOk(j.serial);
      workers := workers[w := Idle];
      Over(fates[j.serial], Limit(j), Ack);
      fates := fates[j.serial := fates[j.serial].(spot := Acked, verdicts := fates[j.serial].verdicts + [Ack])];
      MoveKeeps(j.serial, w);
    }

    /** Worker w has put its job back, one attempt on: with a timer, waiting for
        room, or in vain. */
    twostate predicate Requeued(w: nat, t: nat, j: Job, v: Verdict)
      requires v.Retry?
      reads this
    {
      var next := j.(attempt := j.attempt + 1);
      var s := if closed then Lost else if v.delayed then Delayed(t) else Blocked(Worker(w));
      && j.serial < old(|fates|) && failed == old(failed)
      && fates == old(fates)[j.serial := old(fates)[j.serial].(job := next, spot := s, ran := false,
        verdicts := old(fates)[j.serial].verdicts + [v])]
      && workers == old(workers)[w := if s.Blocked? then Sending else Idle]
      && timers == (if s.Delayed? then old(timers)[t := next] else old(timers))
      && blocked == (if s.Blocked? then old(blocked)[Worker(w) := next] else old(blocked))
    }

    method Requeue(w: nat, t: nat)
      requires Valid() && w in workers && workers[w].Judged? && workers[w].verdict.Retry? && t !in timers
      modifies this`workers, this`timers, this`blocked, this`fates
      ensures Valid() && Requeued(w, t, old(workers[w]).job, old(workers[w]).verdict)
    {
      if closed { RequeueInVain(w, t); } else if workers[w].verdict.delayed { RequeueLater(w, t); }
        else { RequeueNow(w, t); }
    }

    method RequeueInVain(w: nat, ghost t: nat)
      requires Valid() && w in workers && workers[w].Judged? && workers[w].verdict.Retry? && closed
      modifies this`workers, this`fates
      ensures Valid() && Requeued(w, t, old(workers[w]).job, old(workers[w]).verdict)
    {
      ghost var j, v := workers[w].job, workers[w].verdict;
      assert DutyOk(w) && FateOk(j.serial);
      Again(fates[j.serial], Limit(j), v, Lost);
      fates := fates[j.serial := fates[j.serial].(job := j.(attempt := j.attempt + 1), spot := Lost, ran := false,
        verdicts := fates[j.serial].verdicts + [v])];
      workers := workers[w := Idle];
      MoveKeeps(j.serial, w);
    }

    method PutLater(w: nat, t: nat, j: Job)
      requires j.serial < |fates|
      modifies this`workers, this`timers, this`fates
      ensures workers == old(workers)[w := Idle] && timers == old(timers)[t := j.(attempt := j.attempt + 1)]
      ensures var was := old(fates)[j.serial];
        fates == old(fates)[j.serial := was.(job := j.(attempt := j.attempt + 1), spot := Delayed(t), ran := false,
          verdicts := was.verdicts + [Retry(true)])]
    {
      var next := j.(attempt := j.attempt + 1);
      fates := fates[j.serial := fates[j.serial].(job := next, spot := Delayed(t), ran := false,
        verdicts := fates[j.serial].verdicts + [Retry(true)])];
      workers := workers[w := Idle];
      timers := timers[t := next];
    }

    method RequeueLater(w: nat, t: nat)
      requires Valid() && w in workers && workers[w].Judged? && workers[w].verdict == Retry(true) && !closed
      requires t !in timers
      modifies this`workers, this`timers, this`fates
      ensures Valid() && Requeued(w, t, old(workers[w]).job, old(workers[w]).verdict)
    {
      var j := workers[w].job;
      assert DutyOk(w) && FateOk(j.serial);
      Again(fates[j.serial], Limit(j), Retry(true), Delayed(t));
      PutLater(w, t, j);
      assert Requeued(w, t, j, Retry(true)) && Moved(j.serial) && FateOk(j.serial);
      MoveKeeps(j.serial, w);
    }

    method RequeueNow(w: nat, ghost t: nat)
      requires Valid() && w in workers && workers[w].Judged? && workers[w].verdict == Retry(false) && !closed
      modifies this`workers, this`blocked, this`fates
      ensures Valid() && Requeued(w, t, old(workers[w]).job, old(workers[w]).verdict)
    {
      var j := workers[w].job;
      assert DutyOk(w) && FateOk(j.serial) && (Worker(w) in blocked ==> PartyOk(Worker(w)));
      Again(fates[j.serial], Limit(j), Retry(false), Blocked(Worker(w)));
      var next := j.(attempt := j.attempt + 1);
      fates := fates[j.serial := fates[j.serial].(job := next, spot := Blocked(Worker(w)), ran := false,
        verdicts := fates[j.serial].verdicts + [Retry(false)])];
      workers := workers[w := Sending];
      blocked := blocked[Worker(w) := next];
      assert Requeued(w, t, j, Retry(false)) && Moved(j.serial) && FateOk(j.serial);
      MoveKeeps(j.serial, w);
    }

    // ------------------------------------------------------- the lifecycle

    method Register(name: string, limit: int) returns (ok: bool)
      requires Valid()
      modifies this`handlers
      ensures Valid() && (ok <==> name != "" && !running && name !in old(handlers))
      ensures handlers == if ok then old(handlers)[name := limit] else old(handlers)
    {
      if name == "" || running || name in handlers { return false; }
      handlers := handlers[name := limit];
      forall p | p in blocked ensures PartyOk(p) { assert old(PartyOk(p)); }
      forall i | i in timers ensures TimerOk(i) { assert old(TimerOk(i)); }
      forall n | 0 <= n < made ensures FateOk(n) { assert old(FateOk(n)); }
      forall w | w in workers ensures DutyOk(w) { assert old(DutyOk(w)); }
      return true;
    }

    /** Closing loses the delayed jobs and nothing else. */
    method Close()
      requires Valid()
      modifies this`closed, this`timers, this`fates
      ensures Valid() && closed && timers == map[] && |fates| == old(|fates|)
      ensures old(closed) ==> fates == old(fates)
      ensures forall n :: 0 <= n < made ==>
        fates[n] == if old(fates)[n].spot.Delayed? then old(fates)[n].(spot := Lost) else old(fates)[n]
    {
      if closed {
        forall n | 0 <= n < made ensures !fates[n].spot.Delayed? { assert FateOk(n); }
        return;
      }
      closed := true;
      timers := map[];
      ghost var was := fates;
      fates := seq(made, n requires 0 <= n < |was| => if was[n].spot.Delayed? then was[n].(spot := Lost) else was[n]);
      ClosedKeeps();
    }

    twostate lemma ClosedKeeps()
      requires old(Valid()) && closed && timers == map[] && |fates| == old(|fates|) && made == old(made)
      requires handlers == old(handlers) && ch == old(ch) && failed == old(failed) && blocked == old(blocked)
      requires workers == old(workers)
      requires forall n :: 0 <= n < made ==>
        fates[n] == if old(fates)[n].spot.Delayed? then old(fates)[n].(spot := Lost) else old(fates)[n]
      ensures Valid()
    {
      forall n | 0 <= n < made ensures FateOk(n) { assert old(FateOk(n)); }
      forall w | w in workers ensures DutyOk(w) { assert old(DutyOk(w)); }
      forall p | p in blocked ensures PartyOk(p) { assert old(PartyOk(p)); }
    }

    /** Workers start idle. */
    method Start(ws: set<nat>) returns (ok: bool)
      requires Valid() && workers == map[] && forall w :: w in ws ==> Worker(w) !in blocked
      modifies this`running, this`workers
      ensures Valid() && running && (ok <==> !old(running))
      ensures workers == if ok then map w | w in ws :: Idle else old(workers)
    {
      if running { return false; }
      running := true;
      workers := map w | w in ws :: Idle;
      forall n | 0 <= n < made ensures FateOk(n) { assert old(FateOk(n)); }
      forall p | p in blocked ensures PartyOk(p) { assert old(PartyOk(p)); }
      return true;
    }

    method Stop()
      requires Valid()
      modifies this`running
      ensures Valid() && !running
    {
      running := false;
      forall n | 0 <= n < made ensures FateOk(n) { assert old(FateOk(n)); }
      forall w | w in workers ensures DutyOk(w) { assert old(DutyOk(w)); }
    }

    /** A worker told to stop leaves between two deliveries. */
    method Leave(w: nat)
      requires Valid() && !running && w in workers && workers[w].Idle?
      modifies this`workers
      ensures Valid() && workers == old(workers) - {w}
    {
      assert DutyOk(w);
      workers := workers - {w};
      forall n | 0 <= n < made ensures FateOk(n) { assert old(FateOk(n)); }
      forall u | u in workers ensures DutyOk(u) { assert old(DutyOk(u)); }
      forall p | p in blocked ensures PartyOk(p) { assert old(PartyOk(p)); }
    }

    // ------------------------------------------------------------- results

    /** While the queue is open, every job made is at exactly one place: the
        fate's, and none other. */
    lemma Conserved(n: nat)
      requires Valid() && !closed && n < made
      ensures !fates[n].spot.Lost? && fates[n].job.serial == n
      ensures fates[n].spot.Ready? <==> exists j :: j in ch && j.serial == n
      ensures fates[n].spot.Failed? <==> exists j :: j in failed && j.serial == n
      ensures fates[n].spot.Delayed? <==> exists t :: t in timers && timers[t].serial == n
      ensures fates[n].spot.Blocked? <==> exists p :: p in blocked && blocked[p].serial == n
      ensures fates[n].spot.With? <==> exists w ::
        w in workers && !workers[w].Idle? && !workers[w].Sending? && workers[w].job.serial == n
    {
      assert FateOk(n);
      forall t | t in timers ensures Is(timers[t], Delayed(t)) { assert TimerOk(t); }
      forall p | p in blocked ensures Is(blocked[p], Blocked(p)) { assert PartyOk(p); }
      forall w | w in workers && !workers[w].Idle? && !workers[w].Sending?
        ensures Is(workers[w].job, With(w)) { assert DutyOk(w); }
    }

    /** The handler of a job has run at attempts 1 to k for some k no more than
        max(1, limit); an acknowledged job at every attempt it was delivered. */
    lemma Attempts(n: nat)
      requires Valid() && n < made
      ensures var f := fates[n]; UpTo(f.runs, |f.runs|) && |f.runs| <= if Limit(f.job) > 1 then Limit(f.job) else 1
      ensures fates[n].spot.Acked? ==> |fates[n].runs| == |fates[n].verdicts| == fates[n].job.attempt
    {
      assert FateOk(n);
      Bounded(fates[n], Limit(fates[n].job));
    }

    /** Once stopped and left by its workers, nothing is in flight. */
    lemma Drained(n: nat)
      requires Valid() && workers == map[] && n < made
      ensures !fates[n].spot.With?
    {
      assert FateOk(n);
    }

    // ------------------------------------------------------------ progress

    /** Worker w has a step to make, or what it waits for can happen. */
    ghost predicate Can(w: nat)
      requires w in workers
      reads this
    {
      match workers[w]
      case Idle => ch != []
      case Sending => Worker(w) !in blocked || |ch| < capacity || closed
      case _ => true
    }

    /** Every worker waits for room in the channel, for its job to go back to. */
    ghost predicate Stuck()
      reads this
    {
      workers != map[] && !closed && |ch| == capacity && forall w :: w in workers ==>
        workers[w].Sending? && Worker(w) in blocked
    }

    /** Workers stand still only with nothing to do, or stuck. */
    lemma Standstill()
      requires Valid() && workers != map[]
      ensures (forall w :: w in workers ==> !Can(w))
        <==> (ch == [] && forall w :: w in workers ==> workers[w].Idle?) || Stuck()
    {
      if forall w :: w in workers ==> !Can(w) {
        if w :| w in workers && workers[w].Idle? {
          assert !Can(w);
          forall u | u in workers ensures workers[u].Idle? { assert !Can(u); }
        } else {
          forall u | u in workers ensures workers[u].Sending? && Worker(u) in blocked && |ch| == capacity
            && !closed { assert !Can(u); }
          var w :| w in workers;
        }
      }
    }

    predicate Possible(o: Outside)
      reads this
    {
      match o
      case Dispatching(d, t, _, _) => Dispatcher(d) !in blocked && t !in timers
      case GivingUp(d) => Dispatcher(d) in blocked
      case Firing(t) => t in timers && Timer(t) !in blocked
      case _ => true
    }

    /** Whatever happens from outside, workers that are stuck stay so, told to
        stop or not: only Close lets them go. */
    method Happen(o: Outside)
      requires Valid() && Possible(o)
      modifies this`handlers, this`running, this`timers, this`blocked, this`made, this`fates
      ensures Valid() && (old(Stuck()) ==> Stuck())
    {
      match o
      case Dispatching(d, t, name, delayed) => var ok := Dispatch(d, t, name, delayed);
      case GivingUp(d) => Abandon(Dispatcher(d));
      case Firing(t) => Fire(t);
      case Registering(name, limit) => var ok := Register(name, limit);
      case Stopping => Stop();
    }
  }

  /** What may happen to a manager besides its workers' steps and closing. */
  datatype Outside =
    | Dispatching(d: nat, t: nat, name: string, delayed: bool)
    | GivingUp(d: nat)
    | Firing(t: nat)
    | Registering(name: string, limit: int)
    | Stopping

  /** A dispatcher finds room for its job at once. */
  method Fill(m: Manager, name: string)
    requires m.Valid() && name in m.handlers && !m.closed && m.blocked == map[] && m.timers == map[]
    requires |m.ch| < m.capacity
    modifies m`timers, m`blocked, m`made, m`fates, m`ch
    ensures m.Valid() && m.blocked == map[] && m.timers == map[]
    ensures m.ch == old(m.ch) + [Job(old(m.made), name, 1, m.handlers[name])]
  {
    var ok := m.Dispatch(0, 0, name, false);
    m.Land(Dispatcher(0));
  }

  /** A manager with room for one job and one worker, at rest. */
  method Staffed(name: string, limit: int) returns (m: Manager)
    requires name != ""
    ensures fresh(m) && m.Valid() && m.capacity == 1 && m.workers == map[0 := Idle] && m.handlers == map[name := limit]
    ensures !m.closed
    ensures m.ch == [] && m.blocked == map[] && m.timers == map[]
  {
    m := new Manager(1);
    var ok := m.Register(name, limit);
    ok := m.Start({0});
  }

  /** That worker starts on the one job that is ready. */
  method Take(m: Manager)
    requires m.Valid() && m.workers == map[0 := Idle] && |m.ch| == 1 && m.ch[0].name in m.handlers
    modifies m`ch, m`workers, m`failed, m`fates
    ensures m.Valid() && m.ch == [] && m.workers == map[0 := Handling(old(m.ch)[0])]
  {
    m.Receive(0);
    m.Handle(0);
  }

  /** That worker's handler fails, while another job has taken the room. */
  method Fail(m: Manager)
    requires m.Valid() && m.capacity == 1 == |m.ch| && m.workers.Keys == {0} && m.workers[0].Handling? && !m.closed
    requires m.timers == map[] && m.workers[0].job.attempt < m.Limit(m.workers[0].job)
    modifies m`workers, m`failed, m`timers, m`blocked, m`fates
    ensures m.Valid() && m.Stuck()
  {
    m.Judge(0, false, false, false);
    m.Settle(0, 0);
  }

  /** With one worker, room for one job, and a handler that fails: while it runs
      another job takes the room, and a retry without delay has nowhere to go. */
  method Jam(name: string) returns (m: Manager)
    requires name != ""
    ensures fresh(m) && m.Valid() && m.Stuck()
  {
    m := Staffed(name, 2);
    Fill(m, name);
    Take(m);
    Fill(m, name);
    Fail(m);
  }
}
