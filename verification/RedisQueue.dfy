/** The job queue kept in Redis lists. Every method is one command, script or
    transaction, which Redis runs without interruption; clients interleave
    freely between them, and any worker may crash between any two. */
module RedisQueue {
  import opened Common
  import Jobs

  /** The payload: two jobs are never the same, being told apart by serial. */
  type Job = Jobs.Job

  datatype Decision = Acknowledge | Again(at: int) | Bury

  datatype Work = Free | Busy(job: Job) | Decided(job: Job, decision: Decision)

  /** Where a job is kept. A job being processed may have lost its worker. */
  datatype Shelf = OnReady | OnDelayed | OnProcessing(worker: Option<nat>) | OnDead | Gone

  /** A job, where it is, and whether its handler has succeeded at this
      attempt. */
  datatype Trace = Trace(job: Job, shelf: Shelf, succeeded: bool)

  /** The position of x, counted from the head. */
  function IndexOf(s: seq<Job>, x: Job): nat
    requires x in s
    ensures IndexOf(s, x) < |s| && s[IndexOf(s, x)] == x
  {
    if s[0] == x then 0 else 1 + IndexOf(s[1..], x)
  }

  /** LREM with a count of 1: the first occurrence goes. */
  function Removed(s: seq<Job>, x: Job): seq<Job> {
    if x in s then s[..IndexOf(s, x)] + s[IndexOf(s, x) + 1..] else s
  }

  ghost predicate Distinct(s: seq<Job>) { forall i, j :: 0 <= i < j < |s| ==> s[i].serial != s[j].serial }

  lemma RemovedMembers(s: seq<Job>, x: Job)
    requires Distinct(s) && x in s
    ensures Distinct(Removed(s, x)) && |Removed(s, x)| == |s| - 1
    ensures forall y :: y in Removed(s, x) <==> y in s && y.serial != x.serial
  {
    var k := IndexOf(s, x);
    var r := Removed(s, x);
    assert forall i :: 0 <= i < |r| ==> r[i] == s[if i < k then i else i + 1];
    forall y | y in s && y.serial != x.serial ensures y in r {
      var i :| 0 <= i < |s| && s[i] == y;
      assert r[if i < k then i else i - 1] == y;
    }
  }

  lemma PushedMembers(s: seq<Job>, x: Job)
    requires Distinct(s) && forall y :: y in s ==> y.serial != x.serial
    ensures Distinct([x] + s) && forall y :: y in [x] + s <==> y == x || y in s
  {
  }

  lemma PulledMembers(s: seq<Job>)
    requires Distinct(s) && s != []
    ensures var n := |s| - 1; Distinct(s[..n]) && s[n] in s && forall y ::
      y in s[..n] <==> y in s && y.serial != s[n].serial
  {
    var n := |s| - 1;
    forall y | y in s && y.serial != s[n].serial ensures y in s[..n] {
      var i :| 0 <= i < |s| && s[i] == y;
      assert s[..n][i] == y;
    }
  }

  lemma {:induction false} Earliest(delayed: map<Job, int>, s: set<Job>) returns (j: Job)
    requires s != {} && s <= delayed.Keys
    ensures j in s && forall k :: k in s ==> delayed[j] <= delayed[k]
  {
    j :| j in s;
    if s != {j} {
      var i := Earliest(delayed, s - {j});
      if delayed[i] < delayed[j] { j := i; }
    }
  }

  lemma {:induction false} ReversedAppend(s: seq<Job>, j: Job)
    ensures Reversed(s + [j]) == [j] + Reversed(s)
    ensures forall r: seq<Job> {:trigger Reversed(s) + r} :: Reversed(s + [j]) + r == [j] + (Reversed(s) + r)
  {
    if s == [] {
      assert s + [j] == [j];
    } else {
      assert (s + [j])[1..] == s[1..] + [j];
      ReversedAppend(s[1..], j);
    }
  }

  /** due is what has been taken from was, leaving left: nothing but due jobs,
      earliest first, and none before one that is left. */
  ghost predicate Batch(was: map<Job, int>, left: map<Job, int>, due: seq<Job>, now: int) {
    && left == was - (set j | j in due)
    && (forall j :: j in due ==> j in was && was[j] <= now)
    && (forall a, b :: 0 <= a < b < |due| ==> due[a] != due[b] && was[due[a]] <= was[due[b]])
    && (forall j, k :: j in due && k in left ==> was[j] <= left[k])
  }

  lemma BatchNext(was: map<Job, int>, left: map<Job, int>, due: seq<Job>, now: int, j: Job)
    requires Batch(was, left, due, now) && j in left && left[j] <= now && forall k :: k in left ==> left[j] <= left[k]
    ensures Batch(was, left - {j}, due + [j], now)
  {
    var more := due + [j];
    assert (set x | x in more) == (set x | x in due) + {j};
    forall a, b | 0 <= a < b < |more| ensures more[a] != more[b] && was[more[a]] <= was[more[b]] {
      assert more[a] in due;
    }
  }

  class Queue {
    var ready: seq<Job>
    var processing: seq<Job>
    var dead: seq<Job>
    /** The delayed jobs with the times they are due. */
    var delayed: map<Job, int>
    /** How many jobs have been enqueued. */
    var made: nat
    var workers: map<nat, Work>
    ghost var traces: seq<Trace>

    ghost predicate Is(j: Job, s: Shelf)
      reads this`traces
    {
      j.serial < |traces| && traces[j.serial].shelf == s && traces[j.serial].job == j
    }

    ghost predicate Shelved(n: nat)
      requires n < |traces|
      reads this
    {
      var t := traces[n];
      && t.job.serial == n
      && match t.shelf
         case OnReady => t.job in ready
         case OnDelayed => t.job in delayed
         case OnProcessing(w) => t.job in processing
           && (w.Some? ==> w.value in workers && !workers[w.value].Free? && workers[w.value].job == t.job)
         case OnDead => t.job in dead
         case Gone => t.succeeded
    }

    ghost predicate WorkOk(w: nat)
      requires w in workers
      reads this
    {
      var d := workers[w];
      && (!d.Free? ==> Is(d.job, OnProcessing(Some(w))))
      && (d.Decided? && d.decision.Acknowledge? ==> traces[d.job.serial].succeeded)
    }

    ghost predicate InProcessing(j: Job)
      reads this`traces
    {
      j.serial < |traces| && traces[j.serial].shelf.OnProcessing? && traces[j.serial].job == j
    }

    /** Every job enqueued is on exactly one shelf, the one its trace says, or is
        gone, its handler having succeeded. */
    ghost predicate Valid()
      reads this
    {
      && |traces| == made
      && Distinct(ready) && (forall j :: j in ready ==> Is(j, OnReady))
      && Distinct(processing) && (forall j :: j in processing ==> InProcessing(j))
      && Distinct(dead) && (forall j :: j in dead ==> Is(j, OnDead))
      && (forall j :: j in delayed ==> Is(j, OnDelayed))
      && (forall w :: w in workers ==> WorkOk(w))
      && (forall n {:trigger Shelved(n)} :: 0 <= n < |traces| ==> Shelved(n))
    }

    constructor ()
      ensures Valid() && traces == [] && workers == map[]
    {
      ready, processing, dead, delayed, made, workers, traces := [], [], [], map[], 0, map[], [];
    }

    /** Only job n has a new trace, and only its places have changed. */
    twostate predicate Moved(n: nat, u: int)
      reads this
    {
      && n < |traces| == made && old(|traces|) <= |traces| <= old(|traces|) + 1
        && (|traces| > old(|traces|) ==> n == old(|traces|))
      && (forall m :: 0 <= m < |traces| && m != n ==> traces[m] == old(traces[m]))
      && (forall j: Job {:trigger j in ready} {:trigger j in old(ready)} :: j.serial != n ==>
        (j in ready <==> j in old(ready)))
      && (forall j: Job {:trigger j in processing} {:trigger j in old(processing)} :: j.serial != n ==>
        (j in processing <==> j in old(processing)))
      && (forall j: Job {:trigger j in dead} {:trigger j in old(dead)} :: j.serial != n ==>
        (j in dead <==> j in old(dead)))
      && (forall j: Job {:trigger j in delayed} {:trigger j in old(delayed)} :: j.serial != n ==>
        (j in delayed <==> j in old(delayed)))
      && (forall w {:trigger w in workers} {:trigger w in old(workers)} :: w != u ==>
        (w in workers <==> w in old(workers)) && (w in workers ==> workers[w] == old(workers[w])))
      && (u in old(workers) && !old(workers[u]).Free? ==> old(workers[u]).job.serial == n)
      && (n < old(|traces|) && old(traces[n]).shelf.OnProcessing? ==>
        old(traces[n]).shelf.worker in {None, if u < 0 then None else Some(u)})
    }

    /** Job n is on no shelf but its own. */
    ghost predicate OnlyAt(n: nat)
      reads this
    {
      && (forall j :: j in ready && j.serial == n ==> Is(j, OnReady))
      && (forall j :: j in processing && j.serial == n ==> InProcessing(j))
      && (forall j :: j in dead && j.serial == n ==> Is(j, OnDead))
      && (forall j :: j in delayed && j.serial == n ==> Is(j, OnDelayed))
    }

    twostate lemma Stays(n: nat, new u: int, new m: nat)
      requires old(Valid()) && Moved(n, u) && m != n && m < |traces|
      ensures Shelved(m)
    {
      assert old(Shelved(m));
      var t := traces[m];
      if t.shelf.OnProcessing? && t.shelf.worker.Some? { assert old(WorkOk(t.shelf.worker.value)); }
    }

    twostate lemma WorkStays(n: nat, new u: int, new w: nat)
      requires old(Valid()) && Moved(n, u) && w in workers && w != u
      ensures WorkOk(w)
    {
      assert old(WorkOk(w));
    }

    twostate lemma ShelvesStay(n: nat, new u: int)
      requires old(Valid()) && Moved(n, u) && OnlyAt(n)
      ensures forall j :: j in ready ==> Is(j, OnReady)
      ensures forall j :: j in processing ==> InProcessing(j)
      ensures forall j :: j in dead ==> Is(j, OnDead)
      ensures forall j :: j in delayed ==> Is(j, OnDelayed)
    {
      forall j | j in ready ensures Is(j, OnReady) { if j.serial != n { assert j in old(ready); } }
      forall j | j in processing ensures InProcessing(j) { if j.serial != n { assert j in old(processing); } }
      forall j | j in dead ensures Is(j, OnDead) { if j.serial != n { assert j in old(dead); } }
      forall j | j in delayed ensures Is(j, OnDelayed) { if j.serial != n { assert j in old(delayed); } }
    }

    twostate lemma MoveKeeps(n: nat, new u: int)
      requires old(Valid()) && Moved(n, u) && OnlyAt(n) && Shelved(n)
      requires Distinct(ready) && Distinct(processing) && Distinct(dead) && (0 <= u && u in workers ==> WorkOk(u))
      ensures Valid()
    {
      ShelvesStay(n, u);
      forall w | w in workers ensures WorkOk(w) { if w != u { WorkStays(n, u, w); } }
      forall m | 0 <= m < |traces| ensures Shelved(m) { if m != n { Stays(n, u, m); } }
    }

    // ------------------------------------------------------------ commands

    /** LPUSH to the ready list, or ZADD to the delayed set. */
    method Enqueue(name: string, limit: int, due: Option<int>)
      requires Valid()
      modifies this`ready, this`delayed, this`made, this`traces
      ensures Valid()
      ensures var j := Jobs.Job(old(|traces|), name, 1, limit);
        && traces == old(traces) + [Trace(j, if due.Some? then OnDelayed else OnReady, false)]
        && ready == (if due.Some? then old(ready) else [j] + old(ready))
        && delayed == (if due.Some? then old(delayed)[j := due.value] else old(delayed))
    {
      var j := Jobs.Job(made, name, 1, limit);
      made := made + 1;
      if due.Some? {
        delayed := delayed[j := due.value];
        traces := traces + [Trace(j, OnDelayed, false)];
      } else {
        PushedMembers(ready, j);
        ready := [j] + ready;
        traces := traces + [Trace(j, OnReady, false)];
      }
      MoveKeeps(j.serial, -1);
    }

    /** BLMOVE: the oldest ready job goes to the front of those processed. */
    method Take(w: nat)
      requires Valid() && w in workers && workers[w].Free? && ready != []
      modifies this`ready, this`processing, this`workers, this`traces
      ensures Valid()
      ensures var n := old(|ready|) - 1; var j := old(ready)[n];
        && ready == old(ready)[..n] && processing == [j] + old(processing) && workers == old(workers)[w := Busy(j)]
        && j.serial < old(|traces|) && traces
          == old(traces)[j.serial := old(traces)[j.serial].(shelf := OnProcessing(Some(w)))]
    {
      var n := |ready| - 1;
      var j := ready[n];
      PulledMembers(ready);
      assert Is(j, OnReady) && WorkOk(w) && Shelved(j.serial);
      PushedMembers(processing, j);
      ready := ready[..n];
      processing := [j] + processing;
      workers := workers[w := Busy(j)];
      traces := traces[j.serial := traces[j.serial].(shelf := OnProcessing(Some(w)))];
      MoveKeeps(j.serial, w);
    }

    /** The handler is done: success is acknowledged, failure retried or given
        up. */
    method Decide(w: nat, ok: bool, retry: Option<int>)
      requires Valid() && w in workers && workers[w].Busy?
      modifies this`workers, this`traces
      ensures Valid()
      ensures var j := old(workers[w]).job;
        && workers == old(workers)[w := Decided(j, if ok then Acknowledge else if retry.Some? then Again(retry.value)
          else Bury)]
        && j.serial < old(|traces|) && traces == if ok
          then old(traces)[j.serial := old(traces)[j.serial].(succeeded := true)] else old(traces)
    {
      var j := workers[w].job;
      assert WorkOk(w) && Shelved(j.serial);
      workers := workers[w := Decided(j, if ok then Acknowledge else if retry.Some? then Again(retry.value) else Bury)];
      if ok { traces := traces[j.serial := traces[j.serial].(succeeded := true)]; }
      MoveKeeps(j.serial, w);
    }

    /** Ack: LREM. */
    method Ack(w: nat)
      requires Valid() && w in workers && workers[w].Decided? && workers[w].decision.Acknowledge?
      modifies this`processing, this`workers, this`traces
      ensures Valid()
      ensures var j := old(workers[w]).job;
        && processing == Removed(old(processing), j) && workers == old(workers)[w := Free]
        && j.serial < old(|traces|) && traces == old(traces)[j.serial := old(traces)[j.serial].(shelf := Gone)]
          && traces[j.serial].succeeded
    {
      var j := workers[w].job;
      assert WorkOk(w) && Shelved(j.serial);
      RemovedMembers(processing, j);
      processing := Removed(processing, j);
      workers := workers[w := Free];
      traces := traces[j.serial := traces[j.serial].(shelf := Gone)];
      MoveKeeps(j.serial, w);
    }

    /** Retry: LREM and ZADD in one transaction. */
    method Retry(w: nat)
      requires Valid() && w in workers && workers[w].Decided? && workers[w].decision.Again?
      modifies this`processing, this`delayed, this`workers, this`traces
      ensures Valid()
      ensures var Decided(j, d) := old(workers[w]); var next := j.(attempt := j.attempt + 1);
        && processing == Removed(old(processing), j) && delayed == old(delayed)[next := d.at]
          && workers == old(workers)[w := Free]
        && j.serial < old(|traces|) && traces == old(traces)[j.serial := Trace(next, OnDelayed, false)]
    {
      var Decided(j, d) := workers[w];
      assert WorkOk(w) && Shelved(j.serial);
      var next := j.(attempt := j.attempt + 1);
      RemovedMembers(processing, j);
      processing := Removed(processing, j);
      delayed := delayed[next := d.at];
      workers := workers[w := Free];
      traces := traces[j.serial := Trace(next, OnDelayed, false)];
      MoveKeeps(j.serial, w);
    }

    /** Reject: LREM and LPUSH to the dead list in one transaction. */
    method Reject(w: nat)
      requires Valid() && w in workers && workers[w].Decided? && workers[w].decision.Bury?
      modifies this`processing, this`dead, this`workers, this`traces
      ensures Valid()
      ensures var j := old(workers[w]).job;
        && processing == Removed(old(processing), j) && dead == [j] + old(dead) && workers == old(workers)[w := Free]
        && j.serial < old(|traces|) && traces == old(traces)[j.serial := old(traces)[j.serial].(shelf := OnDead)]
    {
      var j := workers[w].job;
      assert WorkOk(w) && Shelved(j.serial);
      RemovedMembers(processing, j);
      PushedMembers(dead, j);
      processing := Removed(processing, j);
      dead := [j] + dead;
      workers := workers[w := Free];
      traces := traces[j.serial := traces[j.serial].(shelf := OnDead)];
      assert traces == old(traces)[j.serial := old(traces)[j.serial].(shelf := OnDead)] && j.serial < |old(traces)|;
      MoveKeeps(j.serial, w);
    }

    /** A worker dies, or the command that would settle its delivery is lost:
        whatever it was doing, no list changes. */
    method Crash(w: nat)
      requires Valid() && w in workers
      modifies this`workers, this`traces
      ensures Valid() && workers == old(workers) - {w} && |traces| == old(|traces|)
      ensures old(workers[w]).Free? ==> traces == old(traces)
      ensures !old(workers[w]).Free? ==>
        var n := old(workers[w]).job.serial;
        n < |traces| && traces == old(traces)[n := old(traces)[n].(shelf := OnProcessing(None))]
    {
      var d := workers[w];
      assert WorkOk(w) && (!d.Free? ==> Shelved(d.job.serial));
      workers := workers - {w};
      if d.Free? {
        forall n | 0 <= n < |traces| ensures Shelved(n) { assert old(Shelved(n)); }
        forall u | u in workers ensures WorkOk(u) { assert old(WorkOk(u)); }
      } else {
        traces := traces[d.job.serial := traces[d.job.serial].(shelf := OnProcessing(None))];
        MoveKeeps(d.job.serial, w);
      }
    }

    method Join(w: nat)
      requires Valid() && w !in workers
      modifies this`workers
      ensures Valid() && workers == old(workers)[w := Free]
    {
      workers := workers[w := Free];
      forall n | 0 <= n < |traces| ensures Shelved(n) { assert old(Shelved(n)); }
      forall u | u in workers ensures WorkOk(u) { if u != w { assert old(WorkOk(u)); } }
    }

    /** One LMOVE of RequeueProcessing, no worker having a job. */
    method RequeueOne()
      requires Valid() && processing != [] && forall w :: w in workers ==> workers[w].Free?
      modifies this`ready, this`processing, this`traces
      ensures Valid()
      ensures var n := old(|processing|) - 1; var j := old(processing)[n];
        && processing == old(processing)[..n] && ready == [j] + old(ready)
        && j.serial < old(|traces|) && traces == old(traces)[j.serial := old(traces)[j.serial].(shelf := OnReady)]
    {
      var n := |processing| - 1;
      var j := processing[n];
      PulledMembers(processing);
      assert InProcessing(j) && Shelved(j.serial);
      PushedMembers(ready, j);
      processing := processing[..n];
      ready := [j] + ready;
      traces := traces[j.serial := traces[j.serial].(shelf := OnReady)];
      MoveKeeps(j.serial, -1);
    }

    /** Everything in processing is ready again, the oldest first to be taken. */
    method RequeueProcessing() returns (n: nat)
      requires Valid() && forall w :: w in workers ==> workers[w].Free?
      modifies this`ready, this`processing, this`traces
      ensures Valid() && n == |old(processing)|
      ensures processing == [] && ready == old(processing) + old(ready)
    {
      n := 0;
      ghost var all := processing + ready;
      while processing != []
        invariant Valid() && n == |old(processing)| - |processing| && processing + ready == all
        decreases |processing|
      {
        Rolled(processing, ready);
        RequeueOne();
        n := n + 1;
      }
    }

    lemma Rolled(a: seq<Job>, b: seq<Job>)
      requires a != []
      ensures a[..|a| - 1] + ([a[|a| - 1]] + b) == a + b
    {
    }

    /** ZREM and LPUSH of one job. */
    method PromoteOne(j: Job)
      requires Valid() && j in delayed
      modifies this`ready, this`delayed, this`traces
      ensures Valid() && delayed == old(delayed) - {j} && ready == [j] + old(ready)
      ensures j.serial < old(|traces|) && traces == old(traces)[j.serial := old(traces)[j.serial].(shelf := OnReady)]
    {
      assert Is(j, OnDelayed) && Shelved(j.serial);
      PushedMembers(ready, j);
      delayed := delayed - {j};
      ready := [j] + ready;
      traces := traces[j.serial := traces[j.serial].(shelf := OnReady)];
      MoveKeeps(j.serial, -1);
    }

    /** The promote script: of the jobs due, up to 100, earliest first, become
        ready, behind those that already are. */
    method Promote(now: int) returns (due: seq<Job>)
      requires Valid()
      modifies this`ready, this`delayed, this`traces
      ensures Valid() && |due| <= 100 && ready == Reversed(due) + old(ready)
      ensures Batch(old(delayed), delayed, due, now)
      ensures |due| < 100 ==> forall j :: j in delayed ==> delayed[j] > now
    {
      due := [];
      var more := true;
      while more && |due| < 100
        invariant Valid() && |due| <= 100 && ready == Reversed(due) + old(ready)
        invariant Batch(old(delayed), delayed, due, now)
        invariant !more ==> forall j :: j in delayed ==> delayed[j] > now
        decreases more, 100 - |due|
      {
        due, more := PromoteNext(now, due, old(delayed), old(ready));
      }
    }

    /** One turn of the promote script's loop, due having been moved so far. */
    method PromoteNext(now: int, due: seq<Job>, ghost was: map<Job, int>, ghost before: seq<Job>)
      returns (more: seq<Job>, found: bool)
      requires Valid() && ready == Reversed(due) + before && Batch(was, delayed, due, now)
      modifies this`ready, this`delayed, this`traces
      ensures Valid() && ready == Reversed(more) + before && Batch(was, delayed, more, now)
      ensures |more| == |due| + (if found then 1 else 0)
      ensures !found ==> forall j :: j in delayed ==> delayed[j] > now
    {
      var j := NextDue(now);
      if j.None? { return due, false; }
      ReversedAppend(due, j.value);
      BatchNext(was, delayed, due, now, j.value);
      PromoteOne(j.value);
      return due + [j.value], true;
    }

    /** The first member of ZRANGEBYSCORE up to now. */
    method NextDue(now: int) returns (r: Option<Job>)
      ensures r.None? ==> forall j :: j in delayed ==> delayed[j] > now
      ensures r.Some? ==> r.value in delayed && delayed[r.value] <= now && forall j :: j in delayed ==>
        delayed[r.value] <= delayed[j]
    {
      if delayed.Keys == {} { return None; }
      ghost var e := Earliest(delayed, delayed.Keys);
      assert e in delayed && forall k :: k in delayed ==> delayed[e] <= delayed[k];
      var j :| j in delayed && forall k :: k in delayed ==> delayed[j] <= delayed[k];
      return if delayed[j] <= now then Some(j) else None;
    }

    // ------------------------------------------------------------- results

    /** No job leaves the four lists but by an Ack after its handler succeeded;
        and until then it is on exactly one of them, once. */
    lemma NeverLost(n: nat)
      requires Valid() && n < made
      ensures traces[n].shelf.Gone? ==> traces[n].succeeded
      ensures traces[n].shelf.OnReady? <==> exists j :: j in ready && j.serial == n
      ensures traces[n].shelf.OnProcessing? <==> exists j :: j in processing && j.serial == n
      ensures traces[n].shelf.OnDead? <==> exists j :: j in dead && j.serial == n
      ensures traces[n].shelf.OnDelayed? <==> exists j :: j in delayed && j.serial == n
    {
      assert Shelved(n);
    }

    /** No job is with two workers. */
    lemma OneWorker(v: nat, w: nat)
      requires Valid() && v in workers && w in workers && v != w && !workers[v].Free? && !workers[w].Free?
      ensures workers[v].job.serial != workers[w].job.serial
    {
      assert WorkOk(v) && WorkOk(w);
    }
  }
}
