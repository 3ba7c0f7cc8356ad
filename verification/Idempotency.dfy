/** The idempotency protocol: any number of requests, in any number of
    processes, over one shared store. One method is one access to the store, or
    one end of a handler; requests interleave freely between them. A pending
    record is taken to outlive the request that made it. */
module Idempotency {
  import opened Common
  import opened Capture

  type Request = nat

  datatype Kept = Kept(fingerprint: string, done: bool, response: Option<Response>)

  datatype Reply = Unavailable | Reused | InProgress | Replay(response: Response) | Own | Crashed

  datatype Place =
    /** About to try to reserve the key, with so many rounds left. */
    | Adding(key: string, fingerprint: string, rounds: nat)
    /** The key was taken; about to read by whom. */
    | Reading(key: string, fingerprint: string, rounds: nat)
    | Executing(key: string, fingerprint: string)
    /** The handler is done; its response is to be kept, or the key let go. */
    | Settling(key: string, fingerprint: string, outcome: Option<Response>)
    | Answered(reply: Reply)

  predicate Holding(p: Place) { p.Executing? || p.Settling? }

  predicate CanSend(r: Response) { Sendable(r.status) && !Informational(r.status) }

  /** What a client was sent: status 0 if nothing. */
  datatype Sent = Sent(status: int, body: string)

  /** What a client is sent by replaying a response. */
  function Delivers(r: Response): Sent { Sent(r.status, Shown(r.status, r.body)) }

  /** Replaying r sends the status the first client was sent, and the bytes its
      handler wrote; but a response that switched protocols cannot be sent
      again. */
  predicate Tells(r: Response, first: Sent, wrote: string) {
    first.status != 101 ==> Delivers(r) == Sent(first.status, Shown(first.status, wrote))
  }

  datatype Event =
    | Started(key: string, request: Request, fingerprint: string)
    /** A handler run is over: what its client was sent, what it wrote, and what
        the recorder has of it. */
    | Ended(key: string, request: Request, sent: Sent, wrote: string, outcome: Option<Response>)
    | Stored(key: string, request: Request, fingerprint: string, response: Response)
    | Expired(key: string)
    /** A response kept was sent to another client. */
    | Replayed(key: string, request: Request, fingerprint: string, response: Response, sent: Sent)

  type Log = seq<Event>

  datatype Entry = Entry(request: Request, fingerprint: string, response: Response)

  /** The request whose handler runs for k. */
  ghost function Active(log: Log, k: string): Option<Request> {
    if log == [] then None
    else
      var e := log[|log|-1];
      if e.Started? && e.key == k then Some(e.request)
      else if e.Ended? && e.key == k then None
      else Active(log[..|log|-1], k)
  }

  /** What is kept for k. */
  ghost function Standing(log: Log, k: string): Option<Entry> {
    if log == [] then None
    else
      var e := log[|log|-1];
      if e.Stored? && e.key == k then Some(Entry(e.request, e.fingerprint, e.response))
      else if e.Expired? && e.key == k then None
      else Standing(log[..|log|-1], k)
  }

  ghost predicate Fair(log: Log, i: nat)
    requires i < |log|
  {
    match log[i]
    case Started(k, r, fp) => Active(log[..i], k) == None && Standing(log[..i], k) == None
    case Ended(k, r, sent, wrote, o) => Active(log[..i], k) == Some(r) && (o.Some? ==> Tells(o.value, sent, wrote))
    case Stored(k, r, fp, resp) => resp.status < 500 && Started(k, r, fp) in log[..i]
      && HasEnded(log[..i], k, r, Some(resp))
    case Expired(k) => true
    case Replayed(k, r, fp, resp, sent) => sent == Delivers(resp) && exists q ::
      Standing(log[..i], k) == Some(Entry(q, fp, resp))
  }

  ghost predicate HasEnded(log: Log, k: string, r: Request, o: Option<Response>) {
    exists e :: e in log && e.Ended? && e.key == k && e.request == r && e.outcome == o
  }

  ghost predicate AllFair(log: Log) { forall i :: 0 <= i < |log| ==> Fair(log, i) }

  lemma FairAppend(log: Log, e: Event)
    requires AllFair(log) && Fair(log + [e], |log|)
    ensures AllFair(log + [e])
  {
    forall i | 0 <= i < |log| ensures Fair(log + [e], i) {
      assert Fair(log, i) && (log + [e])[..i] == log[..i];
    }
  }

  lemma Append(log: Log, e: Event, k: string)
    ensures Active(log + [e], k) ==
      if e.Started? && e.key == k then Some(e.request) else if e.Ended? && e.key == k then None else Active(log, k)
    ensures Standing(log + [e], k) ==
      if e.Stored? && e.key == k then Some(Entry(e.request, e.fingerprint, e.response)) else if e.Expired? && e.key == k
        then None else Standing(log, k)
  {
    assert (log + [e])[..|log|] == log;
  }

  // -------------------------------------------------- safety over whole runs

  lemma {:induction false} ActiveUntilEnded(log: Log, k: string, i: nat, j: nat)
    requires AllFair(log) && i < j <= |log| && log[i].Started? && log[i].key == k
    ensures Active(log[..j], k) == Some(log[i].request) || exists m ::
      i < m < j && log[m].Ended? && log[m].key == k && log[m].request == log[i].request
  {
    assert log[..j] == log[..j-1] + [log[j-1]];
    Append(log[..j-1], log[j-1], k);
    if j > i + 1 {
      ActiveUntilEnded(log, k, i, j - 1);
      assert Fair(log, j - 1);
    }
  }

  /** Handler runs for one key never overlap. */
  lemma NoOverlap(log: Log, k: string, i: nat, j: nat)
    requires AllFair(log) && i < j < |log|
    requires log[i].Started? && log[j].Started? && log[i].key == k == log[j].key
    ensures exists m :: i < m < j && log[m].Ended? && log[m].key == k && log[m].request == log[i].request
  {
    ActiveUntilEnded(log, k, i, j);
    assert Fair(log, j);
  }

  lemma {:induction false} StandingUntilExpired(log: Log, k: string, i: nat, j: nat)
    requires i < j <= |log| && log[i].Stored? && log[i].key == k
    ensures Standing(log[..j], k).Some? || exists m :: i < m < j && log[m] == Expired(k)
  {
    assert log[..j] == log[..j-1] + [log[j-1]];
    Append(log[..j-1], log[j-1], k);
    if j > i + 1 { StandingUntilExpired(log, k, i, j - 1); }
  }

  /** Once a response is kept, no handler runs for the key until it expires. */
  lemma NoRunWhileKept(log: Log, k: string, i: nat, j: nat)
    requires AllFair(log) && i < j < |log|
    requires log[i].Stored? && log[j].Started? && log[i].key == k == log[j].key
    ensures exists m :: i < m < j && log[m] == Expired(k)
  {
    StandingUntilExpired(log, k, i, j);
    assert Fair(log, j);
  }

  /** Event i is the last to have made x what is kept for k. */
  ghost predicate KeptAt(log: Log, k: string, x: Entry, i: nat, j: nat) {
    && i < j <= |log| && log[i] == Stored(k, x.request, x.fingerprint, x.response)
    && forall m :: i < m < j ==> log[m] != Expired(k) && !(log[m].Stored? && log[m].key == k)
  }

  lemma {:induction false} StandingSince(log: Log, k: string, j: nat) returns (i: nat)
    requires j <= |log| && Standing(log[..j], k).Some?
    ensures KeptAt(log, k, Standing(log[..j], k).value, i, j)
  {
    assert log[..j] == log[..j-1] + [log[j-1]];
    Append(log[..j-1], log[j-1], k);
    if log[j-1].Stored? && log[j-1].key == k { return j - 1; }
    i := StandingSince(log, k, j - 1);
  }

  /** A replay is to a request with the fingerprint of one that was executed. It
      sends the status that the client of that one was sent and the bytes that
      were written to it, unless that one was switched to another protocol; and
      no handler for the key has begun since they were kept. */
  lemma ReplayFaithful(log: Log, j: nat) returns (i: nat, h: nat)
    requires AllFair(log) && j < |log| && log[j].Replayed?
    ensures h < i < j && log[i].Stored? && log[i].key == log[j].key && log[i].response == log[j].response
    ensures log[h].Ended? && log[h].key == log[j].key && log[h].request == log[i].request
    ensures Started(log[j].key, log[i].request, log[j].fingerprint) in log[..i]
    ensures log[h].sent.status != 101 ==>
      log[j].sent == Sent(log[h].sent.status, Shown(log[h].sent.status, log[h].wrote))
    ensures forall m :: i < m < j && log[m].Started? ==> log[m].key != log[j].key
  {
    var k := log[j].key;
    assert Fair(log, j);
    i := StandingSince(log, k, j);
    assert Fair(log, i);
    var e :| e in log[..i] && e.Ended? && e.key == k && e.request == log[i].request
      && e.outcome == Some(log[i].response);
    h :| 0 <= h < i && log[h] == e;
    assert Fair(log, h);
    forall m | i < m < j && log[m].Started? ensures log[m].key != k {
      if log[m].key == k { NoRunWhileKept(log, k, i, m); }
    }
  }

  // -------------------------------------------------------------- protocol

  class Service {
    var store: map<string, Kept>
    var requests: map<Request, Place>
    ghost var holders: map<string, Request>
    ghost var log: Log

    ghost predicate RequestOk(r: Request)
      requires r in requests
      reads this
    {
      var p := requests[r];
      && (Holding(p) ==> p.key in holders && holders[p.key] == r && Started(p.key, r, p.fingerprint) in log)
      && (p.Executing? ==> Active(log, p.key) == Some(r))
      && (p.Settling? && p.outcome.Some? ==>
        p.outcome.value.status < 500 && CanSend(p.outcome.value) && HasEnded(log, p.key, r, p.outcome))
      && ((p.Adding? || p.Reading?) ==> 1 <= p.rounds <= 2)
    }

    ghost predicate KeyOk(k: string)
      reads this
    {
      && (k in holders ==> holders[k] in requests && Holding(requests[holders[k]]) && requests[holders[k]].key == k)
      && (k in holders ==> k in store && store[k] == Kept(requests[holders[k]].fingerprint, false, None))
      && (Active(log, k).Some? ==> k in holders && holders[k] in requests && requests[holders[k]].Executing?)
      && (Standing(log, k).Some? <==> k in store && store[k].done)
      && (k in store && store[k].done ==> store[k].response.Some? && CanSend(store[k].response.value))
      && (k in store && store[k].done ==>
        var x := Standing(log, k).value; store[k] == Kept(x.fingerprint, true, Some(x.response)))
    }

    ghost predicate Valid()
      reads this
    {
      && (forall r :: r in requests ==> RequestOk(r))
      && (forall k {:trigger KeyOk(k)} :: KeyOk(k))
      && AllFair(log)
    }

    constructor ()
      ensures Valid() && store == map[] && requests == map[] && log == []
    {
      store, requests, holders, log := map[], map[], map[], [];
    }

    /** Request r did something about key k. */
    twostate predicate StepOf(r: Request, k: string)
      reads this
    {
      && r in requests && requests == old(requests)[r := requests[r]]
      && (r in old(requests) && !old(requests[r]).Answered? ==> old(requests[r]).key == k)
      && OnlyAbout(k) && (k in old(holders) && old(holders[k]) != r ==> k in holders && holders[k] == old(holders[k]))
      && (k in holders && holders[k] != r ==> k in old(holders) && holders[k] == old(holders[k]))
      && (forall e :: e in log[|old(log)|..] && (e.Started? || e.Ended?) ==>
        e.request == r && (k in old(holders) ==> old(holders[k]) == r))
    }

    /** Nothing of other keys has changed. */
    twostate predicate OnlyAbout(k: string)
      reads this
    {
      && (forall m {:trigger m in holders} {:trigger m in old(holders)} :: m != k ==>
        (m in holders <==> m in old(holders)) && (m in holders ==> holders[m] == old(holders[m])))
      && (forall m {:trigger m in store} {:trigger m in old(store)} :: m != k ==>
        (m in store <==> m in old(store)) && (m in store ==> store[m] == old(store[m])))
      && old(log) <= log && forall e :: e in log[|old(log)|..] ==> e.key == k
    }

    twostate lemma LogKept(k: string, new m: string)
      requires OnlyAbout(k) && m != k
      ensures Active(log, m) == old(Active(log, m)) && Standing(log, m) == old(Standing(log, m))
    {
      Unaffected(old(log), log[|old(log)|..], m);
      assert log == old(log) + log[|old(log)|..];
    }

    twostate lemma RequestKept(r: Request, new k: string, new q: Request)
      requires old(Valid()) && StepOf(r, k) && q in requests && q != r
      ensures RequestOk(q)
    {
      assert q in old(requests) && old(RequestOk(q));
      var p := requests[q];
      if Holding(p) {
        if p.key != k {
          LogKept(k, p.key);
        } else {
          SameActive(old(log), log[|old(log)|..], k);
          assert log == old(log) + log[|old(log)|..];
        }
      }
    }

    twostate lemma KeyKept(r: Request, new k: string, new m: string)
      requires old(Valid()) && StepOf(r, k) && m != k
      ensures KeyOk(m)
    {
      assert old(KeyOk(m));
      LogKept(k, m);
    }

    twostate lemma StepKeeps(r: Request, new k: string)
      requires old(Valid()) && StepOf(r, k) && RequestOk(r) && KeyOk(k) && AllFair(log)
      ensures Valid()
    {
      forall q | q in requests ensures RequestOk(q) { if q != r { RequestKept(r, k, q); } }
      forall m ensures KeyOk(m) { if m != k { KeyKept(r, k, m); } }
    }

    /** Adding to the record. */
    ghost method Note(e: Event)
      requires AllFair(log) && Fair(log + [e], |log|)
      modifies this`log
      ensures AllFair(log) && log == old(log) + [e]
      ensures Active(log, e.key) == if e.Started? then Some(e.request) else if e.Ended? then None
        else old(Active(log, e.key))
      ensures Standing(log, e.key) == if e.Stored? then Some(Entry(e.request, e.fingerprint, e.response))
        else if e.Expired? then None else old(Standing(log, e.key))
    {
      FairAppend(log, e);
      Append(log, e, e.key);
      log := log + [e];
    }

    method Arrive(r: Request, k: string, fp: string)
      requires Valid() && r !in requests
      modifies this`requests
      ensures Valid() && requests == old(requests)[r := Adding(k, fp, 2)]
    {
      assert KeyOk(k);
      requests := requests[r := Adding(k, fp, 2)];
      StepKeeps(r, k);
    }

    /** Trying to make the pending record. The store may fail to answer, having
        made the record or not. A request that made it goes on to its handler. */
    method TryAdd(r: Request, answers: bool, applied: bool)
      requires Valid() && r in requests && requests[r].Adding?
      modifies this
      ensures Valid()
      ensures var Adding(k, fp, n) := old(requests[r]);
        var makes := k !in old(store) && (answers || applied);
        && store == (if makes then old(store)[k := Kept(fp, false, None)] else old(store))
        && requests == old(requests)[r := if !answers then Answered(Unavailable) else if makes then Executing(k, fp)
          else Reading(k, fp, n)]
        && log == old(log) + if makes && answers then [Started(k, r, fp)] else []
    {
      var Adding(k, fp, n) := requests[r];
      assert RequestOk(r) && KeyOk(k);
      assert (log + [Started(k, r, fp)])[..|log|] == log;
      var free := k !in store;
      if free && (answers || applied) { store := store[k := Kept(fp, false, None)]; }
      if !answers {
        requests := requests[r := Answered(Unavailable)];
      } else if free {
        requests := requests[r := Executing(k, fp)];
        holders := holders[k := r];
        Note(Started(k, r, fp));
      } else {
        requests := requests[r := Reading(k, fp, n)];
      }
      StepKeeps(r, k);
    }

    /** Reading who has the key: a different request, one still running, or one
        whose response is replayed to this one's client w. A record gone
        meanwhile means another round; after two there is no answer. */
    method Read(r: Request, answers: bool, w: Client, extra: Header)
      requires Valid() && r in requests && requests[r].Reading? && w.Valid() && !w.written
      modifies this`requests, this`log, w
      ensures Valid()
      ensures var Reading(k, fp, n) := old(requests[r]);
        requests == old(requests)[r :=
             if !answers then Answered(Unavailable)
             else if k !in store then (if n > 1 then Adding(k, fp, n - 1) else Answered(Unavailable))
             else if store[k].fingerprint != fp then Answered(Reused)
             else if !store[k].done || store[k].response.None? then Answered(InProgress)
             else Answered(Replay(store[k].response.value))]
      ensures var Reading(k, fp, n) := old(requests[r]);
        if requests[r].Answered? && requests[r].reply.Replay?
        then log == old(log) + [Replayed(k, r, fp, requests[r].reply.response, Sent(w.status, w.body))] && w.written
        else log == old(log) && !w.written
    {
      var Reading(k, fp, n) := requests[r];
      assert RequestOk(r) && KeyOk(k);
      if !answers {
        requests := requests[r := Answered(Unavailable)];
      } else if k !in store {
        requests := requests[r := if n > 1 then Adding(k, fp, n - 1) else Answered(Unavailable)];
      } else if store[k].fingerprint != fp {
        requests := requests[r := Answered(Reused)];
      } else if !store[k].done || store[k].response.None? {
        requests := requests[r := Answered(InProgress)];
      } else {
        var resp := store[k].response.value;
        WriteTo(resp, w, extra, |resp.body|);
        requests := requests[r := Answered(Replay(resp))];
        assert (log + [Replayed(k, r, fp, resp, Delivers(resp))])[..|log|] == log;
        Note(Replayed(k, r, fp, resp, Delivers(resp)));
      }
      StepKeeps(r, k);
    }

    /** The handler runs to its end, doing what it likes to the response of its
        client w, and returns, with an error or not. */
    method Finish(r: Request, failed: bool, w: Client, limit: nat, actions: seq<Action>)
      requires Valid() && r in requests && requests[r].Executing? && w.Valid() && !w.written
      requires forall a :: a in actions && a.WriteHeader? ==> Sendable(a.code)
      modifies this`requests, this`log, w
      ensures Valid() && w.status == Committed(actions) && w.body == Shown(w.status, Through(actions))
      ensures |log| == |old(log)| + 1 && log[..|old(log)|] == old(log)
      ensures var Executing(k, fp) := old(requests[r]); var e := log[|old(log)|];
        && e.Ended? && e.key == k && e.request == r && e.sent == Sent(w.status, w.body) && e.wrote == Bytes(actions)
        && requests == old(requests)[r := Settling(k, fp, if failed || e.outcome.None? || e.outcome.value.status >= 500
          then None else e.outcome)]
    {
      var Executing(k, fp) := requests[r];
      assert RequestOk(r) && KeyOk(k);
      var result := Record(w, limit, actions);
      requests := requests[r := Settling(k, fp, if failed || result.None? || result.value.status >= 500 then None
        else result)];
      ghost var e := Ended(k, r, Sent(w.status, w.body), Bytes(actions), result);
      assert (log + [e])[..|log|] == log;
      Note(e);
      assert e in log;
      StepKeeps(r, k);
    }

    /** The response is kept or the key let go; or the store does neither, and
        the request is over all the same. */
    method Settle(r: Request, applied: bool)
      requires Valid() && r in requests && requests[r].Settling?
      modifies this
      ensures Valid()
      ensures var Settling(k, fp, o) := old(requests[r]);
        && requests == old(requests)[r := Answered(Own)] && holders == old(holders) - {k}
        && store == (if !applied then old(store) else if o.None? then old(store) - {k}
          else old(store)[k := Kept(fp, true, o)])
        && log == old(log) + if applied && o.Some? then [Stored(k, r, fp, o.value)] else []
    {
      var Settling(k, fp, o) := requests[r];
      assert RequestOk(r) && KeyOk(k);
      requests := requests[r := Answered(Own)];
      holders := holders - {k};
      if applied {
        if o.None? {
          store := store - {k};
        } else {
          store := store[k := Kept(fp, true, o)];
          assert (log + [Stored(k, r, fp, o.value)])[..|log|] == log;
          Note(Stored(k, r, fp, o.value));
        }
      }
      StepKeeps(r, k);
    }

    /** The process dies, or the handler panics: the pending record stays. */
    method Die(r: Request)
      requires Valid() && r in requests && !requests[r].Answered?
      modifies this
      ensures Valid() && store == old(store) && requests == old(requests)[r := Answered(Crashed)]
      ensures var p := old(requests[r]);
        && holders == (if Holding(p) then old(holders) - {p.key} else old(holders))
        && log == old(log) + if p.Executing? then [Ended(p.key, r, Sent(0, ""), "", None)] else []
    {
      var p := requests[r];
      assert RequestOk(r) && KeyOk(p.key);
      requests := requests[r := Answered(Crashed)];
      if Holding(p) { holders := holders - {p.key}; }
      if p.Executing? {
        assert (log + [Ended(p.key, r, Sent(0, ""), "", None)])[..|log|] == log;
        Note(Ended(p.key, r, Sent(0, ""), "", None));
      }
      StepKeeps(r, p.key);
    }

    /** A record's time is up: any record, but a pending one only when the
        request that made it is over. */
    method Expire(k: string)
      requires Valid() && k in store && (store[k].done || k !in holders)
      modifies this`store, this`log
      ensures Valid() && store == old(store) - {k} && log == old(log) + [Expired(k)]
    {
      assert KeyOk(k);
      label Before:
      store := store - {k};
      assert (log + [Expired(k)])[..|log|] == log;
      Note(Expired(k));
      ExpireKeeps@Before(k);
    }

    twostate lemma ExpireKeeps(k: string)
      requires old(Valid()) && requests == old(requests) && holders == old(holders) && k !in holders
      requires OnlyAbout(k) && log == old(log) + [Expired(k)] && k !in store && AllFair(log)
      ensures Valid()
    {
      Append(old(log), Expired(k), k);
      forall r | r in requests ensures RequestOk(r) {
        assert old(RequestOk(r));
        if Holding(requests[r]) { LogKept(k, requests[r].key); }
      }
      forall m ensures KeyOk(m) {
        assert old(KeyOk(m));
        if m != k { LogKept(k, m); }
      }
    }
  }

  lemma {:induction false} Unaffected(log: Log, more: Log, k: string)
    requires forall e :: e in more ==> e.key != k
    ensures Active(log + more, k) == Active(log, k) && Standing(log + more, k) == Standing(log, k)
  {
    if more == [] {
      assert log + more == log;
    } else {
      var n := |more| - 1;
      Unaffected(log, more[..n], k);
      assert log + more == (log + more[..n]) + [more[n]];
      Append(log + more[..n], more[n], k);
    }
  }

  lemma {:induction false} SameActive(log: Log, more: Log, k: string)
    requires forall e :: e in more ==> !e.Started? && !e.Ended?
    ensures Active(log + more, k) == Active(log, k)
  {
    if more == [] {
      assert log + more == log;
    } else {
      var n := |more| - 1;
      SameActive(log, more[..n], k);
      assert log + more == (log + more[..n]) + [more[n]];
      Append(log + more[..n], more[n], k);
    }
  }
}
