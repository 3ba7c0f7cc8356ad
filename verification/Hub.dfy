/** The realtime hub. Every public operation runs under one lock, and a receive
    is one channel operation, so any interleaving is a sequence of the methods
    below; what they keep (Valid) holds throughout every run. */
module Hub {
  import opened Common
  import opened Text

  datatype Event = Event(id: string, name: string, data: string)

  /** The floor for a subscriber channel's buffer. */
  const MIN_SUBSCRIBER_BUFFER := 16

  // ------------------------------------------------------------------ IDs

  /** strconv.ParseUint(s, 10, 64). */
  function ParseUint(s: string): Option<nat> {
    if s == "" || !Digits(s) then None
    else if Number(s) < 0x1_0000_0000_0000_0000 then Some(Number(s)) else None
  }

  /** Whether a buffered event is to be replayed to a client that last saw
      lastID: numeric IDs compare, anything that cannot be ordered is sent. */
  predicate AfterLastID(id: string, lastID: string) {
    ParseUint(lastID).None? || ParseUint(id).None? || ParseUint(id).value > ParseUint(lastID).value
  }

  function Unseen(events: seq<Event>, lastID: string): seq<Event> {
    if events == [] then []
    else (if AfterLastID(events[0].id, lastID) then [events[0]] else []) + Unseen(events[1..], lastID)
  }

  function Min(a: nat, b: nat): nat { if a < b then a else b }

  /** The most recent events, at most n of them. */
  function Recent(events: seq<Event>, n: nat): seq<Event> {
    events[|events| - Min(|events|, n)..]
  }

  /** What a new subscriber is replayed. */
  function Replay(published: seq<Event>, replay: nat, lastID: string): seq<Event> {
    if lastID == "" then [] else Unseen(Recent(published, replay), lastID)
  }

  // --------------------------------------------------------- resuming

  /** When one who has seen the first n of these events, and says so by lastID,
      is replayed just the rest: all of the rest is still buffered, what is
      buffered of the others counts as seen, and none of the rest does. */
  ghost predicate Resumes(published: seq<Event>, replay: nat, lastID: string, n: nat)
    requires n <= |published|
  {
    if lastID == "" then n == |published|
    else
      |published| - n <= replay && Parted(published, |published| - Min(|published|, replay), n, lastID)
  }

  /** From kept on, the events before n count as seen and the others do not. */
  ghost predicate Parted(published: seq<Event>, kept: nat, n: nat, lastID: string)
    requires n <= |published|
  {
    && (forall k :: kept <= k < n ==> !AfterLastID(published[k].id, lastID))
    && (forall k :: n <= k < |published| ==> AfterLastID(published[k].id, lastID))
  }

  lemma {:induction false} UnseenAppend(a: seq<Event>, b: seq<Event>, lastID: string)
    ensures Unseen(a + b, lastID) == Unseen(a, lastID) + Unseen(b, lastID)
  {
    if a == [] {
      assert a + b == b;
    } else {
      assert (a + b)[0] == a[0] && (a + b)[1..] == a[1..] + b;
      UnseenAppend(a[1..], b, lastID);
      var head := if AfterLastID(a[0].id, lastID) then [a[0]] else [];
      assert head + (Unseen(a[1..], lastID) + Unseen(b, lastID)) == head + Unseen(a[1..], lastID) + Unseen(b, lastID);
    }
  }

  ghost predicate AllAfter(events: seq<Event>, lastID: string) {
    forall e :: e in events ==> AfterLastID(e.id, lastID)
  }

  lemma {:induction false} UnseenAll(events: seq<Event>, lastID: string)
    ensures AllAfter(Unseen(events, lastID), lastID) && |Unseen(events, lastID)| <= |events|
    ensures Unseen(events, lastID) == events <==> AllAfter(events, lastID)
  {
    if events != [] {
      var e, rest := events[0], events[1..];
      UnseenAll(rest, lastID);
      assert events == [e] + rest;
      if AfterLastID(e.id, lastID) {
        assert Unseen(events, lastID)[1..] == Unseen(rest, lastID);
      } else {
        assert e in events && Unseen(events, lastID) == Unseen(rest, lastID);
      }
    }
  }

  lemma {:induction false} UnseenNone(events: seq<Event>, lastID: string)
    ensures Unseen(events, lastID) == [] <==> forall e :: e in events ==> !AfterLastID(e.id, lastID)
  {
    if events != [] {
      UnseenNone(events[1..], lastID);
      assert events == [events[0]] + events[1..];
    }
  }

  /** A filtered sequence that ends up as its own second half. */
  lemma UnseenHalf(a: seq<Event>, b: seq<Event>, lastID: string)
    ensures Unseen(a + b, lastID) == b <==> Unseen(a, lastID) == [] && Unseen(b, lastID) == b
  {
    UnseenAppend(a, b, lastID);
    UnseenAll(a + b, lastID);
    UnseenAll(b, lastID);
  }

  lemma UnseenStretch(published: seq<Event>, kept: nat, n: nat, lastID: string)
    requires kept <= n <= |published|
    ensures Unseen(published[kept..], lastID) == published[n..] <==> Parted(published, kept, n, lastID)
  {
    var a, b := published[kept..n], published[n..];
    assert published[kept..] == a + b;
    UnseenHalf(a, b, lastID);
    UnseenNone(a, lastID);
    UnseenAll(b, lastID);
    assert forall k :: kept <= k < n ==> published[k] in a;
    assert forall k :: n <= k < |published| ==> published[k] in b;
  }

  /** For every history and every lastID: reconnecting goes on without a gap or
      a repeat exactly when Resumes says so. */
  lemma ResumeExact(published: seq<Event>, replay: nat, lastID: string, n: nat)
    requires n <= |published|
    ensures Replay(published, replay, lastID) == published[n..] <==> Resumes(published, replay, lastID, n)
  {
    var kept := |published| - Min(|published|, replay);
    if lastID == "" {
      assert |published[n..]| == |published| - n;
      return;
    }
    assert Replay(published, replay, lastID) == Unseen(published[kept..], lastID);
    if n < kept {
      TooFew(published, kept, n, lastID);
    } else {
      UnseenStretch(published, kept, n, lastID);
    }
  }

  lemma TooFew(published: seq<Event>, kept: nat, n: nat, lastID: string)
    requires n < kept <= |published|
    ensures Unseen(published[kept..], lastID) != published[n..]
  {
    UnseenAll(published[kept..], lastID);
    assert |published[n..]| > |published[kept..]|;
  }

  /** Publish numbered these events itself. */
  ghost predicate Automatic(published: seq<Event>) {
    |published| < 0x1_0000_0000_0000_0000 && forall k :: 0 <= k < |published| ==> published[k].id == Decimal(k + 1)
  }

  lemma ParseDecimal(n: nat)
    requires n < 0x1_0000_0000_0000_0000
    ensures ParseUint(Decimal(n)) == Some(n)
  {
    NumberDecimal(n);
  }

  lemma AutomaticAfter(k: nat, n: nat)
    requires k < 0x1_0000_0000_0000_0000 && n < 0x1_0000_0000_0000_0000
    ensures AfterLastID(Decimal(k), Decimal(n)) <==> k > n
  {
    ParseDecimal(k);
    ParseDecimal(n);
  }

  /** With automatic IDs only, that is exactly when no more events were missed
      than the buffer holds. */
  lemma ResumeGapFree(published: seq<Event>, replay: nat, n: nat)
    requires Automatic(published) && n <= |published|
    ensures Replay(published, replay, Decimal(n)) == published[n..] <==> |published| - n <= replay
  {
    ResumeExact(published, replay, Decimal(n), n);
    ParseDecimal(n);
    forall k | 0 <= k < |published| ensures AfterLastID(published[k].id, Decimal(n)) <==> k >= n {
      AutomaticAfter(k + 1, n);
    }
  }

  /** Numbers that only go up, whoever gave them. */
  ghost predicate Ascending(published: seq<Event>) {
    && (forall i :: 0 <= i < |published| ==> ParseUint(published[i].id).Some?)
    && (forall i, j :: 0 <= i < j < |published| ==> ParseUint(published[i].id).value < ParseUint(published[j].id).value)
  }

  /** With such IDs, some given and some automatic, the same is true of one who
      comes back with the ID of the last event seen. */
  lemma ResumeAscending(published: seq<Event>, replay: nat, n: nat)
    requires Ascending(published) && 1 <= n <= |published|
    ensures Replay(published, replay, published[n-1].id) == published[n..] <==> |published| - n <= replay
  {
    var lastID := published[n-1].id;
    ResumeExact(published, replay, lastID, n);
    forall k | 0 <= k < |published| ensures AfterLastID(published[k].id, lastID) <==> k >= n {
      assert ParseUint(published[k].id).Some? && ParseUint(lastID).Some?;
    }
  }

  /** An event given the ID of one that was seen is missed for good, however
      much room the buffer has. */
  lemma ResumeGap()
    ensures var p := [Event("1", "", "a"), Event("1", "", "b")]; Replay(p, 64, "1") == [] != p[1..]
  {
    var p := [Event("1", "", "a"), Event("1", "", "b")];
    UnseenNone(p, "1");
  }

  /** An event with an ID that is not a number is sent again. */
  lemma ResumeRepeat()
    ensures var p := [Event("x", "", "a"), Event("2", "", "b")]; Replay(p, 64, "2") == p[..1] != p[2..]
  {
    var p := [Event("x", "", "a"), Event("2", "", "b")];
    assert p == p[..1] + p[1..];
    UnseenAppend(p[..1], p[1..], "2");
    assert "x"[0] == 'x' && !Digits("x");
    UnseenAll(p[..1], "2");
    UnseenNone(p[1..], "2");
  }

  // ------------------------------------------------------------- objects

  /** A ring buffer read from start and wrapping around. */
  ghost function RingFrom(buf: seq<Event>, start: nat): seq<Event>
    requires start <= |buf|
  {
    buf[start..] + buf[..start]
  }

  /** A topic lifetime: from creation until it is dropped from the table. */
  class Topic {
    var next: nat
    var buf: seq<Event>
    var start: nat
    var subs: set<Subscriber>
    var lastUse: nat
    ghost var published: seq<Event>

    constructor ()
      ensures subs == {} && published == [] && buf == [] && start == 0 && next == 0
    {
      next, buf, start, subs, lastUse, published := 0, [], 0, {}, 0, [];
    }

    ghost predicate Ring(replay: nat)
      reads `next, `buf, `start, `published
    {
      next == |published| && RingOf(buf, start, published, replay)
    }

    /** The recording half of Publish. */
    method Record(e: Event, replay: nat) returns (stamped: Event)
      requires Ring(replay)
      modifies this`next, this`buf, this`start, this`published
      ensures Ring(replay) && published == old(published) + [stamped]
      ensures stamped == Stamp(e, |old(published)|)
      ensures replay > 0 ==> |buf| > 0
    {
      next := next + 1;
      stamped := if e.id == "" then e.(id := Decimal(next)) else e;
      Store(stamped, replay);
      published := published + [stamped];
    }

    method Store(e: Event, replay: nat)
      requires RingOf(buf, start, published, replay)
      modifies this`buf, this`start
      ensures RingOf(buf, start, published + [e], replay) && (replay > 0 ==> |buf| > 0)
    {
      if replay > 0 {
        if |buf| < replay {
          RingGrows(buf, start, published, replay, e);
          buf := buf + [e];
        } else {
          RingTurns(buf, start, published, replay, e);
          Wrap(start, |buf|);
          buf := buf[start := e];
          start := (start + 1) % |buf|;
        }
      } else {
        RecentAppend(published, replay, e);
      }
    }
  }

  /** From start, and round, the buffer holds the most recent events. */
  ghost predicate RingOf(buf: seq<Event>, start: nat, published: seq<Event>, replay: nat) {
    && |buf| == Min(|published|, replay)
    && (start == 0 || (|buf| == replay && start < replay))
    && RingFrom(buf, start) == Recent(published, replay)
  }

  lemma RingGrows(buf: seq<Event>, start: nat, published: seq<Event>, replay: nat, e: Event)
    requires RingOf(buf, start, published, replay) && |buf| < replay
    ensures RingOf(buf + [e], start, published + [e], replay)
  {
    RecentAppend(published, replay, e);
    assert RingFrom(buf, 0) == buf && RingFrom(buf + [e], 0) == buf + [e];
  }

  lemma RingTurns(buf: seq<Event>, start: nat, published: seq<Event>, replay: nat, e: Event)
    requires RingOf(buf, start, published, replay) && |buf| == replay > 0
    ensures RingOf(buf[start := e], Next(start, |buf|), published + [e], replay)
  {
    RecentAppend(published, replay, e);
    Rotate(buf, start, e);
  }

  lemma UnseenNext(ring: seq<Event>, i: nat, lastID: string, queue: seq<Event>)
    requires i < |ring|
    ensures queue + Unseen(ring[i..], lastID)
      == (if AfterLastID(ring[i].id, lastID) then queue + [ring[i]] else queue) + Unseen(ring[i+1..], lastID)
  {
    assert ring[i..][0] == ring[i] && ring[i..][1..] == ring[i+1..];
    assert [] + Unseen(ring[i+1..], lastID) == Unseen(ring[i+1..], lastID);
  }

  lemma UnseenEnd(ring: seq<Event>, lastID: string, queue: seq<Event>)
    ensures queue + Unseen(ring[|ring|..], lastID) == queue
  {
  }

  lemma RecentAppend(published: seq<Event>, replay: nat, e: Event)
    ensures |published| < replay ==> Recent(published + [e], replay) == Recent(published, replay) + [e]
    ensures 0 < replay <= |published| ==> Recent(published + [e], replay) == Recent(published, replay)[1..] + [e]
    ensures replay == 0 ==> Recent(published + [e], replay) == []
  {
  }

  lemma Wrap(start: nat, n: nat)
    requires start < n
    ensures (start + 1) % n == Next(start, n)
  {
    WrapAt(start + 1, n);
  }

  lemma WrapAt(a: nat, n: nat)
    requires 0 < n && a < n + n
    ensures a % n == if a < n then a else a - n
  {
    if a >= n { assert a / n == 1; }
  }

  function Next(start: nat, n: nat): nat { if start + 1 == n then 0 else start + 1 }

  /** Overwriting the oldest slot of a full ring and moving start past it. */
  lemma Rotate(buf: seq<Event>, start: nat, e: Event)
    requires start < |buf|
    ensures RingFrom(buf[start := e], Next(start, |buf|)) == RingFrom(buf, start)[1..] + [e]
  {
    assert RingFrom(buf, start)[1..] == buf[start+1..] + buf[..start];
    if start + 1 < |buf| {
      assert buf[start := e][start+1..] == buf[start+1..];
      assert buf[start := e][..start+1] == buf[..start] + [e];
    } else {
      assert buf[start := e] == buf[..start] + [e];
    }
  }

  /** The state of a subscription. */
  datatype Account = Account(queue: seq<Event>, closed: bool, replayed: seq<Event>, received: seq<Event>,
    history: seq<Event>)

  /** What handing over e does to one with a channel of this capacity. */
  ghost function Handed(a: Account, cap: nat, e: Event): Account {
    if |a.queue| < cap then a.(queue := a.queue + [e], history := a.history + [e]) else a
  }

  /** Either e is handed over or, for want of room, the channel is closed. */
  ghost function Offered(a: Account, cap: nat, e: Event): Account {
    if |a.queue| < cap then Handed(a, cap, e) else a.(closed := true)
  }

  /** One that is not a subscriber, or no longer, is left alone. A subscriber with
      room gets e behind what it has been sent, one without is closed and keeps
      what it has. */
  ghost function OfferedIf(hit: bool, a: Account, cap: nat, e: Event): (r: Account)
    ensures hit && |a.queue| < cap ==> r.queue == a.queue + [e] && r.closed == a.closed
    ensures hit && |a.queue| >= cap ==> r.queue == a.queue && r.closed
    ensures r.replayed == a.replayed && r.received == a.received && (!hit ==> r == a)
  {
    if hit then Offered(a, cap, e) else a
  }

  /** A subscription. Ghost: the topic and the number of events published on it
      before joining, what was replayed, what the client has received, and the
      topic's events up to now (or up to the moment of being detached). */
  class Subscriber {
    const cap: nat
    var queue: seq<Event>
    var closed: bool
    const name: string
    ghost const home: Topic?
    ghost const joined: nat
    ghost var replayed: seq<Event>
    ghost var received: seq<Event>
    ghost var history: seq<Event>

    constructor (cap: nat, name: string, ghost home: Topic?, ghost history: seq<Event>)
      ensures this.cap == cap && this.name == name && this.home == home && joined == |history|
      ensures this.history == history
      ensures queue == [] && !closed && received == [] && replayed == []
    {
      this.cap, queue, closed := cap, [], false;
      this.name, this.home, joined, this.history, replayed, received := name, home, |history|, history, [], [];
    }

    ghost function Books(): Account
      reads this
    {
      Account(queue, closed, replayed, received, history)
    }

    /** Everything handed over, received or still queued, is the replay followed
        by every event published since joining: no gap, repeat or reordering. */
    ghost predicate Ok()
      reads this
    {
      && joined <= |history| && |queue| <= cap
      && received + queue == replayed + history[joined..]
    }

    /** What was replayed is what the topic's first n events are followed by. */
    ghost predicate InStep(n: nat)
      reads this
    {
      n <= joined <= |history| && replayed == history[n..joined]
    }

    /** How many of the topic's events the client has taken or had before. */
    ghost function Seen(n: nat): (m: nat)
      requires Ok() && InStep(n)
      reads this
      ensures n <= m <= |history|
    {
      Straight(n);
      |history| - |queue|
    }

    /** In step, received and queued events are the topic's, in order, from the
        n-th on. */
    lemma Straight(n: nat)
      requires Ok() && InStep(n)
      ensures received + queue == history[n..] && |queue| <= |history| - n
    {
      assert history[n..] == history[n..joined] + history[joined..];
    }

    /** One who had the topic's events from n0 to n before, on other channels,
        and is in step on this one, has them all up to where it has come. */
    lemma Continued(had: seq<Event>, n0: nat, n: nat)
      requires Ok() && InStep(n) && n0 <= n && had == history[n0..n]
      ensures had + received == history[n0..Seen(n)] && had + received + queue == history[n0..]
    {
      Straight(n);
      assert history[n0..] == had + history[n..];
      assert had + received + queue == had + (received + queue);
      assert (had + received + queue)[..|had + received|] == had + received;
      assert history[n0..Seen(n)] == history[n0..][..Seen(n)-n0];
    }

    /** A send that does not block: false when the buffer is full. Sending on a
        closed channel would panic. */
    method TrySend(e: Event) returns (sent: bool)
      requires !closed && |queue| <= cap
      modifies this`queue
      ensures sent <==> |old(queue)| < cap
      ensures queue == if sent then old(queue) + [e] else old(queue)
    {
      if |queue| == cap {
        return false;
      }
      queue := queue + [e];
      return true;
    }

    /** A send that counts as one more event owed, when there is room. */
    method Hand(e: Event) returns (sent: bool)
      requires Ok() && !closed
      modifies this`queue, this`history
      ensures Ok() && Books() == Handed(old(Books()), cap, e) && (sent <==> |old(queue)| < cap)
    {
      OneMore(received, queue, replayed, history, joined, e);
      sent := TrySend(e);
      if sent { history := history + [e]; }
    }

    /** Closing a channel twice would panic. */
    method CloseChannel()
      requires !closed
      modifies this`closed
      ensures closed
    {
      closed := true;
    }
  }

  /** The event as recorded: numbered after n earlier ones unless it has an ID. */
  function Stamp(e: Event, n: nat): Event { if e.id == "" then e.(id := Decimal(n + 1)) else e }

  function Max(a: nat, b: nat): nat { if a < b then b else a }

  /** When a name was last used, -1 if never. */
  ghost function LastOf(uses: seq<string>, n: string): (k: int)
    ensures -1 <= k < |uses| && (k >= 0 ==> uses[k] == n) && forall j :: k < j < |uses| ==> uses[j] != n
  {
    if uses == [] then -1
    else if uses[|uses|-1] == n then |uses| - 1
    else LastOf(uses[..|uses|-1], n)
  }

  lemma LastOfAppend(uses: seq<string>, u: string, n: string)
    ensures LastOf(uses + [u], n) == if u == n then |uses| else LastOf(uses, n)
  {
    assert (uses + [u])[..|uses|] == uses;
  }

  class Hub {
    const replay: nat
    const maxTopics: nat
    var topics: map<string, Topic>
    var useSeq: nat
    var closed: bool
    ghost var all: set<Subscriber>
    ghost var peak: nat
    /** The names of the topics looked up for publishing, with replay, and for
        subscribing, in order. */
    ghost var uses: seq<string>

    constructor (replay: nat, maxTopics: nat)
      ensures this.replay == replay && this.maxTopics == maxTopics
      ensures Valid() && !closed && topics == map[] && all == {} && uses == []
    {
      this.replay, this.maxTopics := replay, maxTopics;
      topics, useSeq, closed, all, peak, uses := map[], 0, false, {}, 0, [];
    }

    // ----------------------------------------------------------- invariant

    /** Every live topic's buffer holds its most recent events. */
    ghost predicate RingsOk()
      reads this, topics.Values
    {
      forall n {:trigger topics[n].Ring(replay)} :: n in topics ==> topics[n].Ring(replay)
    }

    /** Every topic knows when it was last used. A closed hub has no topics. */
    ghost predicate TableOk()
      reads this, topics.Values
    {
      && (closed ==> topics == map[])
      && useSeq == |uses|
      && (forall n {:trigger Recalled(n)} :: n in topics ==> Recalled(n))
    }

    ghost predicate Recalled(n: string)
      requires n in topics
      reads this, topics.Values
    {
      topics[n].lastUse == LastOf(uses, n)
    }

    /** The subscribers of a topic are open, subscribed to that very topic, and
        have been handed all its events (those in lag: all but the latest). */
    ghost predicate SubsOk(lag: set<Subscriber>)
      reads this, topics.Values, all
    {
      forall n, s {:trigger s in topics[n].subs} :: n in topics && s in topics[n].subs ==>
        && s in all && s.name == n && !s.closed
        && s.history == if s in lag then AllButLast(topics[n].published) else topics[n].published
    }

    /** Every subscriber's account is straight. */
    ghost predicate AccountsOk()
      reads this, all
    {
      forall s {:trigger s.Ok()} :: s in all ==> s.Ok()
    }

    /** Open subscribers are attached. */
    ghost predicate Attached()
      reads this, topics.Values, all
    {
      forall s {:trigger s in all} :: s in all && !s.closed ==> s.name in topics && s in topics[s.name].subs
    }

    /** An open subscriber is on the topic it joined; and as long as that topic
        lives, open or not, it has been handed a prefix of its events. */
    ghost predicate Rooted(s: Subscriber)
      reads this, topics.Values, s
    {
      && (!s.closed ==> s.name in topics && topics[s.name] == s.home)
      && (s.name in topics && topics[s.name] == s.home ==> s.history <= topics[s.name].published)
    }

    ghost predicate AllRooted()
      reads this, topics.Values, all
    {
      forall s {:trigger Rooted(s)} :: s in all ==> Rooted(s)
    }

    /** Topics live on, and their histories only grow; others are new. */
    twostate predicate LiveOn()
      reads this, topics.Values
    {
      forall n {:trigger n in topics} :: n in topics ==>
        if n in old(topics) then topics[n] == old(topics[n])
          && old(topics[n].published) <= topics[n].published else fresh(topics[n])
    }

    /** Nothing happened to subscriber s but, perhaps, being closed. */
    twostate predicate Aside(s: Subscriber)
      reads this, s
    {
      s in old(all) && s.history == old(s.history) && (!s.closed ==> !old(s.closed) && s.name in topics)
    }

    twostate lemma RootedKept(new x: Subscriber?)
      requires old(AllRooted()) && LiveOn() && (x != null ==> x in all ==> Rooted(x))
      requires forall s :: s in all && s != x ==> s in old(all)
      requires forall s :: s in old(all) && s in all && s != x ==> Aside(s)
      ensures AllRooted()
    {
      forall s | s in all && s != x ensures Rooted(s) { assert old(Rooted(s)) && Aside(s); }
    }

    /** A topic without subscribers is kept only for its replay buffer. */
    ghost predicate Useful(but: set<string>)
      reads this, topics.Values
    {
      forall n :: n in topics && n !in but ==> topics[n].subs != {} || |topics[n].buf| > 0
    }

    ghost function Busy(): set<string>
      reads this, topics.Values
    {
      set n | n in topics && topics[n].subs != {}
    }

    /** peak: the largest number of topics that had subscribers at one time. */
    ghost predicate Bounded()
      reads this, topics.Values
    {
      |Busy()| <= peak && (maxTopics > 0 ==> |topics| <= Max(maxTopics, 1 + peak))
    }

    ghost predicate Core(lag: set<Subscriber>)
      reads this, topics.Values, all
    {
      TableOk() && RingsOk() && AccountsOk() && SubsOk(lag) && Attached() && Bounded() && AllRooted()
    }

    ghost predicate Valid()
      reads this, topics.Values, all
    {
      Core({}) && Useful({})
    }

    /** No topic was looked up. */
    twostate predicate Unused()
      reads this
    {
      useSeq == old(useSeq) && uses == old(uses)
    }

    twostate lemma TableKept()
      requires old(TableOk()) && Unused() && (closed ==> topics == map[])
      requires forall n :: n in topics ==> n in old(topics) && topics[n].lastUse == old(topics[n].lastUse)
      ensures TableOk()
    {
      forall n | n in topics ensures Recalled(n) { assert old(Recalled(n)); }
    }

    /** Just this one was. */
    twostate predicate Used(name: string)
      reads this
    {
      useSeq == old(useSeq) + 1 && uses == old(uses) + [name]
    }

    // ------------------------------------------------------- topic table

    ghost predicate Idle(n: string)
      reads this, topics.Values
    {
      n in topics && topics[n].subs == {}
    }

    /** The least recently used topic without subscribers, which is unique. */
    ghost predicate Victim(n: string)
      reads this, topics.Values
    {
      Idle(n) && forall m :: Idle(m) && m != n ==> LastOf(uses, n) < LastOf(uses, m)
    }

    /** The table once there is room for one more topic, as far as possible. */
    ghost function Roomed(): map<string, Topic>
      reads this, topics.Values
    {
      if maxTopics > 0 && |topics| >= maxTopics then map n | n in topics && !Victim(n) :: topics[n] else topics
    }

    lemma RoomedBy(dropped: Option<string>)
      requires maxTopics > 0 && |topics| >= maxTopics
      requires match dropped case Some(n) => Victim(n) case None => forall n :: n in topics ==> !Idle(n)
      ensures Roomed() == if dropped.Some? then topics - {dropped.value} else topics
    {
    }

    /** Makes room at the cap by dropping the victim, if there is one. */
    method EvictLocked() returns (dropped: Option<string>)
      requires TableOk()
      modifies this`topics
      ensures maxTopics == 0 || |old(topics)| < maxTopics ==> dropped == None
      ensures maxTopics > 0 && |old(topics)| >= maxTopics && dropped == None ==> forall n :: n in old(topics) ==>
        !old(Idle(n))
      ensures dropped.Some? ==> old(Victim(dropped.value)) && topics == old(topics) - {dropped.value}
      ensures dropped == None ==> topics == old(topics)
      ensures topics == old(Roomed())
    {
      if maxTopics == 0 || |topics| < maxTopics {
        return None;
      }
      var victim, oldest, found := "", 0, false;
      var rest := topics.Keys;
      while rest != {}
        invariant rest <= topics.Keys
        invariant found ==> Idle(victim) && victim !in rest && oldest == LastOf(uses, victim)
        invariant found ==> forall m :: Idle(m) && m != victim && m !in rest ==> oldest < LastOf(uses, m)
        invariant !found ==> forall m :: m in topics && m !in rest ==> !Idle(m)
        decreases rest
      {
        var name :| name in rest;
        rest := rest - {name};
        var t := topics[name];
        assert Recalled(name);
        if |t.subs| == 0 {
          if !found || t.lastUse < oldest {
            victim, oldest, found := name, t.lastUse, true;
          }
        }
      }
      RoomedBy(if found then Some(victim) else None);
      if found {
        topics := topics - {victim};
        return Some(victim);
      }
      return None;
    }

    twostate lemma SameBusy()
      requires forall n :: n in topics ==> topics[n].subs == if n in old(topics) then old(topics[n].subs) else {}
      requires forall n :: n in old(topics) && n !in topics ==> old(topics[n].subs) == {}
      ensures Busy() == old(Busy())
    {
    }

    /** After eviction either there is room for one more topic within the cap,
        or every topic is busy. */
    method MakeRoom()
      requires Valid()
      modifies this`topics
      ensures Valid() && topics == old(Roomed())
      ensures maxTopics > 0 ==> |topics| + 1 <= Max(maxTopics, 1 + peak)
    {
      var dropped := EvictLocked();
      if dropped.Some? {
        DroppedIdle(dropped.value);
      } else if maxTopics > 0 && |topics| >= maxTopics {
        assert Busy() == topics.Keys;
      }
    }

    twostate lemma DroppedIdle(n: string)
      requires old(Valid()) && old(Idle(n)) && topics == old(topics) - {n}
      requires all == old(all) && peak == old(peak) && Unused() && closed == old(closed)
      requires forall m :: m in topics ==> unchanged(topics[m])
      requires forall x :: x in all ==> unchanged(x)
      ensures Valid() && |topics| == |old(topics)| - 1
    {
      TableKept();
      SameBusy();
      RootedKept(null);
    }

    /** A fresh, empty topic was added under a new name. */
    twostate predicate Added(name: string, new t: Topic)
      reads this, topics.Values, all, t
    {
      && name !in old(topics) && topics == old(topics)[name := t] && fresh(t)
      && t.subs == {} && t.published == [] && t.Ring(replay)
      && all == old(all) && (forall s :: s in all ==> unchanged(s))
      && (forall n :: n in topics && n != name ==> unchanged(topics[n]))
    }

    twostate lemma AddedSubs(name: string, new t: Topic)
      requires Added(name, t) && old(SubsOk({})) && old(Attached())
      ensures SubsOk({}) && Attached()
    {
    }

    twostate lemma AddedRings(name: string, new t: Topic)
      requires Added(name, t) && old(RingsOk()) && old(AccountsOk())
      ensures RingsOk() && AccountsOk()
    {
    }

    twostate lemma AddedUseful(name: string, new t: Topic)
      requires Added(name, t) && old(Useful({})) && old(Bounded())
      requires maxTopics > 0 ==> |old(topics)| + 1 <= Max(maxTopics, 1 + peak)
      requires peak == old(peak)
      ensures Useful({name}) && Bounded()
    {
      SameBusy();
    }

    method Insert(name: string) returns (t: Topic)
      requires Valid() && !closed && name !in topics
      requires maxTopics > 0 ==> |topics| + 1 <= Max(maxTopics, 1 + peak)
      modifies this`topics, this`useSeq, this`uses
      ensures Core({}) && Useful({name}) && Added(name, t) && uses == old(uses) + [name]
    {
      t := new Topic();
      topics := topics[name := t];
      t.lastUse := useSeq;
      useSeq, uses := useSeq + 1, uses + [name];
      assert Added(name, t);
      AddedSubs(name, t);
      AddedRings(name, t);
      AddedUseful(name, t);
      AddedTable(name, t);
      AddedRooted(name, t);
    }

    twostate lemma AddedRooted(name: string, new t: Topic)
      requires Added(name, t) && old(AllRooted()) && old(Attached())
      ensures AllRooted()
    {
      RootedKept(null);
    }

    twostate lemma AddedTable(name: string, new t: Topic)
      requires Added(name, t) && old(TableOk()) && !closed && Used(name) && t.lastUse == old(useSeq)
      ensures TableOk()
    {
      forall n | n in topics ensures Recalled(n) {
        if n != name { assert old(Recalled(n)); }
        LastOfAppend(old(uses), name, n);
      }
    }

    method Touch(name: string, t: Topic)
      requires Valid() && name in topics && topics[name] == t
      modifies this`useSeq, this`uses, t`lastUse
      ensures Valid() && uses == old(uses) + [name]
    {
      OtherTopics(name);
      t.lastUse := useSeq;
      useSeq, uses := useSeq + 1, uses + [name];
      Touched(name);
    }

    twostate lemma Touched(name: string)
      requires old(Valid()) && name in topics && topics == old(topics) && all == old(all) && peak == old(peak)
      requires closed == old(closed) && Used(name) && topics[name].lastUse == old(useSeq)
      requires forall m :: m in topics && m != name ==> unchanged(topics[m])
      requires topics[name].subs == old(topics[name].subs) && topics[name].published == old(topics[name].published)
      requires topics[name].buf == old(topics[name].buf) && topics[name].start == old(topics[name].start)
      requires topics[name].next == old(topics[name].next)
      requires forall x :: x in all ==> unchanged(x)
      ensures Valid()
    {
      assert old(topics[name].Ring(replay));
      assert topics[name].Ring(replay);
      SameBusy();
      RootedKept(null);
      TouchedTable(name);
    }

    twostate lemma TouchedTable(name: string)
      requires old(TableOk()) && name in topics && topics == old(topics) && closed == old(closed)
      requires Used(name) && topics[name].lastUse == old(useSeq)
      requires forall m :: m in topics && m != name ==> topics[m].lastUse == old(topics[m].lastUse)
      ensures TableOk()
    {
      forall n | n in topics ensures Recalled(n) {
        if n != name { assert old(Recalled(n)); }
        LastOfAppend(old(uses), name, n);
      }
    }

    /** Looks a topic up, creating it (after an eviction) if it is new, and
        marks it most recently used. */
    method TopicLocked(name: string) returns (t: Topic)
      requires Valid() && !closed
      modifies this`topics, this`useSeq, this`uses, topics.Values`lastUse
      ensures uses == old(uses) + [name]
      ensures forall n {:trigger old(topics[n])} :: n in old(topics) && n != name ==>
        old(topics[n]).lastUse == old(topics[n].lastUse)
      ensures Core({}) && Useful({name}) && (name in old(topics) ==> Useful({}))
      ensures name in topics && topics[name] == t
      ensures topics == if name in old(topics) then old(topics) else old(Roomed())[name := t]
      ensures name !in old(topics) ==> fresh(t) && t.published == [] && t.subs == {}
    {
      if name in topics {
        t := topics[name];
        OtherTopics(name);
        Touch(name, t);
      } else {
        MakeRoom();
        t := Insert(name);
      }
    }

    // ---------------------------------------------------------- delivering

    /** Only this subscriber changed. */
    twostate predicate OnlySub(s: Subscriber)
      reads this, topics.Values, all
    {
      && topics == old(topics) && all == old(all) && peak == old(peak) && Unused() && closed == old(closed)
      && (forall n :: n in topics ==> unchanged(topics[n]))
      && (forall x :: x in all && x != s ==> unchanged(x))
    }

    twostate lemma OnlySubKeeps(s: Subscriber)
      requires OnlySub(s) && old(RingsOk()) && old(AccountsOk()) && old(Bounded())
      ensures RingsOk() && Bounded() && forall x :: x in all && x != s ==> x.Ok()
    {
      SameBusy();
    }

    /** Hands the topic's latest event to one subscriber that lacks it; false,
        and nothing done, when its buffer is full. */
    method Deliver(s: Subscriber, e: Event, ghost lag: set<Subscriber>) returns (sent: bool)
      requires Core(lag) && Useful({}) && s in all && s in lag && !s.closed
      requires topics[s.name].published != [] && Last(topics[s.name].published) == e
      modifies s`queue, s`history
      ensures OnlySub(s) && !s.closed && Useful({})
      ensures sent <==> |old(s.queue)| < s.cap
      ensures if sent then Core(lag - {s}) else Core(lag)
      ensures s.Books() == Handed(old(s.Books()), s.cap, e)
    {
      assert s.Ok();
      assert s in topics[s.name].subs;
      assert s.history + [e] == topics[s.name].published;
      sent := s.Hand(e);
      if sent {
        DeliverKeeps((s, lag));
      }
    }

    twostate lemma DeliverKeeps(w: (Subscriber, set<Subscriber>))
      requires OnlySub(w.0) && old(Core(w.1)) && old(Useful({}))
      requires w.0 in all && !w.0.closed && w.0.Ok() && w.0.name in topics && w.0.history == topics[w.0.name].published
      requires old(!w.0.closed)
      ensures Core(w.1 - {w.0}) && Useful({})
    {
      TableKept();
      OnlySubKeeps(w.0);
      assert old(Rooted(w.0));
      RootedKept(w.0);
    }

    /** The client takes the next event off its channel; None when there is none
        (if the channel is closed, for good). */
    method Receive(s: Subscriber) returns (e: Option<Event>)
      requires Valid() && s in all
      modifies s`queue, s`received
      ensures Valid() && OnlySub(s)
      ensures e.None? <==> old(s.queue) == []
      ensures e.Some? ==> s.received == old(s.received) + [e.value] && old(s.queue) == [e.value] + s.queue
    {
      if |s.queue| == 0 {
        return None;
      }
      assert s.Ok();
      e := Some(s.queue[0]);
      s.queue, s.received := s.queue[1..], s.received + [s.queue[0]];
      assert s.received + s.queue == old(s.received + s.queue);
      ReceiveKeeps(s);
    }

    twostate lemma ReceiveKeeps(s: Subscriber)
      requires OnlySub(s) && old(Valid()) && s.Ok() && s.closed == old(s.closed) && s.history == old(s.history)
      ensures Valid()
    {
      TableKept();
      OnlySubKeeps(s);
      RootedKept(null);
    }

    // --------------------------------------------------------- detaching

    /** Takes a subscriber off its topic and closes its channel, unless that has
        been done already; then this does nothing at all, whatever lifetime of
        the topic t is. A topic left with no subscribers and nothing to replay
        goes. */
    method DetachLocked(name: string, t: Topic, s: Subscriber, ghost lag: set<Subscriber>)
      requires Core(lag) && Useful({}) && name in topics && topics[name] == t
      requires s in all && s.name == name
      modifies this`topics, t`subs, s`closed
      ensures Core(lag) && Useful({})
      ensures if old(s.closed) then Undisturbed() else Left(name, t, s)
    {
      NothingLeft(name, s, lag);
      if s in t.subs {
        t.subs := t.subs - {s};
      }
      if |t.subs| == 0 && (replay == 0 || |t.buf| == 0) {
        topics := topics - {name};
      }
      if !s.closed {
        s.CloseChannel();
        assert Left(name, t, s);
        Detached((name, t, s, lag));
      }
    }

    /** A subscriber that was detached before is not attached again, and the
        topic now under its name has something to be kept for. */
    lemma NothingLeft(name: string, s: Subscriber, lag: set<Subscriber>)
      requires Core(lag) && Useful({}) && name in topics && s in all && s.name == name
      ensures s.closed <==> s !in topics[name].subs
      ensures topics[name].subs == {} ==> replay > 0 && |topics[name].buf| > 0
    {
      assert topics[name].Ring(replay);
    }

    /** Nothing changed. */
    twostate predicate Undisturbed()
      reads this, topics.Values, all
    {
      && topics == old(topics) && all == old(all) && peak == old(peak) && Unused() && closed == old(closed)
      && (forall n :: n in topics ==>
        topics[n].subs == old(topics[n].subs) && topics[n].published == old(topics[n].published))
      && (forall x :: x in all ==> unchanged(x))
    }

    twostate lemma Detached(w: (string, Topic, Subscriber, set<Subscriber>))
      requires Left(w.0, w.1, w.2) && old(Core(w.3)) && old(Useful({}))
      ensures Core(w.3) && Useful({})
    {
      LeftSubs(w);
      LeftRings((w.0, w.1, w.2));
      LeftTable((w.0, w.1, w.2));
      LeftBounded((w.0, w.1, w.2));
      LeftRooted((w.0, w.1, w.2));
    }

    twostate lemma LeftRooted(w: (string, Topic, Subscriber))
      requires Left(w.0, w.1, w.2) && old(AllRooted()) && Attached()
      ensures AllRooted()
    {
      RootedKept(null);
    }

    /** What unsubscribing does, however often it is called. */
    method RemoveSub(s: Subscriber)
      requires Valid() && s in all
      modifies this`topics, topics.Values`subs, s`closed
      ensures Valid() && s.closed
      ensures s.queue == old(s.queue) && s.received == old(s.received)
      ensures old(s.closed) ==> Undisturbed()
      ensures topics == old(topics) || topics == old(topics) - {s.name}
      ensures topics != old(topics) ==> replay == 0 || old(topics[s.name].published) == []
    {
      assert s.name in topics ==> topics[s.name].Ring(replay);
      // an open subscriber's topic is in the table, so there is nothing to close otherwise
      if s.name in topics {
        DetachLocked(s.name, topics[s.name], s, {});
      }
    }

    /** One subscriber left its topic, which may have gone with it. */
    twostate predicate Left(name: string, t: Topic, s: Subscriber)
      reads this, topics.Values, all, t, s
    {
      && name in old(topics) && old(topics[name]) == t && s in old(t.subs) && t.subs == old(t.subs) - {s}
      && all == old(all) && s.closed && s.queue == old(s.queue) && s.received == old(s.received)
      && s.replayed == old(s.replayed) && s.history == old(s.history)
      && (forall x :: x in all && x != s ==> unchanged(x))
      && Unused() && closed == old(closed) && peak == old(peak) && t.lastUse == old(t.lastUse)
      && topics == (if t.subs == {} && (replay == 0 || |t.buf| == 0) then old(topics) - {name} else old(topics))
      && t.next == old(t.next) && t.buf == old(t.buf) && t.start == old(t.start) && t.published == old(t.published)
      && (forall n :: n in topics && n != name ==> unchanged(topics[n]))
    }

    twostate lemma LeftSubs(w: (string, Topic, Subscriber, set<Subscriber>))
      requires Left(w.0, w.1, w.2) && old(SubsOk(w.3)) && old(Attached()) && old(TableOk())
      ensures SubsOk(w.3) && Attached()
    {
      forall x | x in all && !x.closed ensures x.name in topics && x in topics[x.name].subs {
        assert old(x in topics[x.name].subs);
        if x.name == w.0 { assert x in w.1.subs; }
      }
    }

    twostate lemma LeftTable(w: (string, Topic, Subscriber))
      requires Left(w.0, w.1, w.2) && old(TableOk()) && old(Useful({})) && old(RingsOk())
      ensures TableOk() && Useful({})
    {
      TableKept();
      assert old(topics[w.0].Ring(replay));
    }

    twostate lemma LeftBounded(w: (string, Topic, Subscriber))
      requires Left(w.0, w.1, w.2) && old(Bounded())
      ensures Bounded()
    {
      FewerBusy();
    }

    twostate lemma LeftRings(w: (string, Topic, Subscriber))
      requires Left(w.0, w.1, w.2) && old(RingsOk()) && old(AccountsOk())
      ensures RingsOk() && AccountsOk()
    {
      assert w.2 in all ==> old(w.2.Ok());
    }

    twostate lemma FewerBusy()
      requires topics.Keys <= old(topics.Keys)
      requires forall n :: n in topics ==> topics[n] == old(topics[n]) && topics[n].subs <= old(topics[n].subs)
      ensures |Busy()| <= old(|Busy()|) && |topics| <= |old(topics)|
    {
      SubsetSize(Busy(), old(Busy()));
      SubsetSize(topics.Keys, old(topics.Keys));
    }

    // -------------------------------------------------------- publishing

    /** The topic's history grew by one event; nobody has been handed it yet. */
    twostate predicate Recorded(name: string, t: Topic, e: Event)
      reads this, topics.Values, all, t
    {
      && topics == old(topics) && name in topics && topics[name] == t
      && Unused() && closed == old(closed) && peak == old(peak) && all == old(all)
      && t.published == old(t.published) + [e] && t.Ring(replay)
      && t.subs == old(t.subs) && t.lastUse == old(t.lastUse)
      && (forall n :: n in topics && n != name ==> unchanged(topics[n]))
      && (forall x :: x in all ==> unchanged(x))
    }

    twostate lemma RecordedKeeps(w: (string, Topic, Event))
      requires Recorded(w.0, w.1, w.2) && old(Core({})) && old(Useful({w.0}))
      requires w.1.subs != {} || |w.1.buf| > 0
      ensures Core(w.1.subs) && Useful({})
    {
      TableKept();
      RecordedSubs(w);
      SameBusy();
      RootedKept(null);
    }

    twostate lemma RecordedSubs(w: (string, Topic, Event))
      requires Recorded(w.0, w.1, w.2) && old(SubsOk({})) && old(Attached())
      ensures SubsOk(w.1.subs) && Attached()
    {
      assert AllButLast(w.1.published) == old(w.1.published);
    }

    /** Offering e to the subscribers of t has come so far: all but rest have had
        their turn, and those in drop had no room. */
    ghost predicate Fanned(t: Topic, e: Event, before: map<Subscriber, Account>, rest: set<Subscriber>,
      drop: set<Subscriber>)
      reads this, all, t
    {
      && before.Keys == all && t.subs <= all
      && (forall x {:trigger x.Books()} :: x in all ==>
            x.Books() == if x in t.subs && x !in rest then Handed(before[x], x.cap, e) else before[x])
      && (forall x {:trigger x in drop} :: x in t.subs ==> (x in drop <==> x !in rest && |before[x].queue| >= x.cap))
    }

    /** Offers the latest event to every subscriber; those without room are
        returned. */
    method FanOut(name: string, t: Topic, e: Event, ghost before: map<Subscriber, Account>)
      returns (drop: set<Subscriber>)
      requires Shut(before, {}) && Core(t.subs) && Useful({}) && name in topics && topics[name] == t
      requires t.published != [] && Last(t.published) == e
      modifies all`queue, all`history
      ensures Core(drop) && Useful({}) && drop <= t.subs
      ensures Fanned(t, e, before, {}, drop)
    {
      drop := {};
      var rest := t.subs;
      KnownSubs(name, t.subs);
      while rest != {}
        invariant rest <= t.subs && drop <= t.subs && Core(rest + drop) && Useful({})
        invariant Fanned(t, e, before, rest, drop)
        decreases rest
      {
        var sub :| sub in rest;
        drop := OfferTo(name, t, sub, e, rest, drop, before);
        rest := rest - {sub};
      }
    }

    method OfferTo(name: string, t: Topic, sub: Subscriber, e: Event, ghost rest: set<Subscriber>,
      drop: set<Subscriber>, ghost before: map<Subscriber, Account>) returns (more: set<Subscriber>)
      requires Core(rest + drop) && Useful({}) && name in topics && topics[name] == t && t.published != []
      requires Last(t.published) == e
      requires sub in rest && rest <= t.subs && drop <= t.subs && Fanned(t, e, before, rest, drop)
      modifies sub`queue, sub`history
      ensures more <= t.subs && Core((rest - {sub}) + more) && Useful({})
      ensures Fanned(t, e, before, rest - {sub}, more)
    {
      assert sub in topics[name].subs && sub.Books() == before[sub];
      assert rest + drop - {sub} == (rest - {sub}) + drop && rest + drop == (rest - {sub}) + (drop + {sub});
      var sent := Deliver(sub, e, rest + drop);
      more := if sent then drop else drop + {sub};
      FannedNext((t, e, before, rest, drop), sub, more);
    }

    lemma KnownSubs(name: string, lag: set<Subscriber>)
      requires SubsOk(lag) && name in topics
      ensures topics[name].subs <= all
    {
      assert forall x :: x in topics[name].subs ==> x in all;
    }

    twostate lemma FannedNext(w: (Topic, Event, map<Subscriber, Account>, set<Subscriber>, set<Subscriber>),
      new sub: Subscriber, new more: set<Subscriber>)
      requires old(Fanned(w.0, w.1, w.2, w.3, w.4)) && sub in w.3 && sub in w.0.subs
      requires all == old(all) && w.0.subs == old(w.0.subs) && forall x :: x in all && x != sub ==> unchanged(x)
      requires sub.Books() == Handed(w.2[sub], sub.cap, w.1)
      requires more == if |w.2[sub].queue| < sub.cap then w.4 else w.4 + {sub}
      ensures Fanned(w.0, w.1, w.2, w.3 - {sub}, more)
    {
      forall x | x in all && x != sub ensures x.Books() == old(x.Books()) {}
    }

    lemma LagShrinks(lag: set<Subscriber>, lag': set<Subscriber>)
      requires SubsOk(lag)
      requires forall n, x :: n in topics && x in topics[n].subs ==> (x in lag <==> x in lag')
      ensures SubsOk(lag')
    {
    }

    /** Since before, exactly the channels of those in gone were closed. */
    ghost predicate Shut(before: map<Subscriber, Account>, gone: set<Subscriber>)
      reads this, all
    {
      && before.Keys == all
      && forall x {:trigger x.Books()} :: x in all ==>
        x.Books() == if x in gone then before[x].(closed := true) else before[x]
    }

    /** Disconnects the subscribers that had no room. Nothing of theirs but
        closed is touched, and nothing of anybody else. */
    method DropAll(name: string, t: Topic, drop: set<Subscriber>, ghost before: map<Subscriber, Account>)
      requires Core(drop) && Useful({}) && Present(name, t, drop) && Shut(before, drop - drop) && Filled(t)
      modifies this`topics, t`subs, drop`closed
      ensures Core({}) && Useful({}) && Shut(before, drop - {}) && Fewer(old(topics), name)
    {
      var rest := drop;
      ghost var was := topics;
      while rest != {}
        invariant rest <= drop && Core(rest) && Useful({}) && Shut(before, drop - rest) && Present(name, t, rest)
        invariant Fewer(was, name)
        decreases rest
      {
        var sub :| sub in rest;
        DropOne(name, t, sub, drop, rest, before, was);
        rest := rest - {sub};
      }
    }

    /** While some of its subscribers remain the topic is in the table. */
    ghost predicate Present(name: string, t: Topic, rest: set<Subscriber>)
      reads this, t
    {
      rest <= t.subs && (rest != {} ==> name in topics && topics[name] == t)
    }

    /** With replay, there is something to replay. */
    ghost predicate Filled(t: Topic)
      reads t`buf
    {
      replay > 0 ==> |t.buf| > 0
    }

    /** The table is what it was, but without replay the topic may have gone. */
    ghost predicate Fewer(was: map<string, Topic>, name: string)
      reads this`topics
    {
      topics == was || (replay == 0 && topics == was - {name})
    }

    method DropOne(name: string, t: Topic, sub: Subscriber, ghost drop: set<Subscriber>, ghost rest: set<Subscriber>,
                   ghost before: map<Subscriber, Account>, ghost was: map<string, Topic>)
      requires Core(rest) && Useful({}) && Present(name, t, rest) && sub in rest && rest <= drop
      requires Shut(before, drop - rest)
      requires Filled(t) && Fewer(was, name)
      modifies this`topics, t`subs, sub`closed
      ensures Core(rest - {sub}) && Useful({}) && Present(name, t, rest - {sub}) && Shut(before, drop - (rest - {sub}))
      ensures Fewer(was, name)
    {
      Dismiss(name, t, sub, rest);
      ShutNext((before, drop - rest, sub));
      assert drop - rest + {sub} == drop - (rest - {sub});
    }

    method Dismiss(name: string, t: Topic, sub: Subscriber, ghost rest: set<Subscriber>)
      requires Core(rest) && Useful({}) && Present(name, t, rest) && sub in rest && Filled(t)
      modifies this`topics, t`subs, sub`closed
      ensures sub in all && Core(rest - {sub}) && Useful({}) && Present(name, t, rest - {sub})
      ensures Fewer(old(topics), name) && sub.Books() == old(sub.Books()).(closed := true)
    {
      assert sub in topics[name].subs;
      DetachLocked(name, t, sub, rest);
      LagShrinks(rest, rest - {sub});
    }

    twostate lemma ShutNext(w: (map<Subscriber, Account>, set<Subscriber>, Subscriber))
      requires old(Shut(w.0, w.1)) && w.2 in all && w.2 !in w.1 && all == old(all) && forall x ::
        x in all && x != w.2 ==> unchanged(x)
      requires w.2.Books() == old(w.2.Books()).(closed := true)
      ensures Shut(w.0, w.1 + {w.2})
    {
      forall x | x in all && x != w.2 ensures x.Books() == old(x.Books()) {}
    }

    /** Hub.Publish. Every open subscriber of the topic is handed the event if it
        has room and is disconnected, losing nothing it was handed before, if it
        has not; nobody else is touched. Automatic IDs count up per lifetime. */
    method Publish(name: string, e: Event) returns (ghost stamped: Event)
      requires Valid()
      modifies this`topics, this`useSeq, this`uses, topics.Values, all
      ensures Valid() && all == old(all) && closed == old(closed)
      ensures uses == if !closed && replay > 0 then old(uses) + [name] else old(uses)
      ensures !closed && replay > 0 ==> name in topics
      ensures !closed && replay > 0 ==>
        topics == if name in old(topics) then old(topics) else old(Roomed())[name := topics[name]]
      ensures !closed && replay > 0 && name !in old(topics) ==>
        fresh(topics[name]) && topics[name].published == [stamped]
      ensures replay == 0 ==> Fewer(old(topics), name)
      ensures forall n {:trigger old(topics[n])} :: n in old(topics) && n != name ==>
        old(topics[n]).published == old(topics[n].published)
      ensures forall x {:trigger x.Books()} :: x in all ==>
        x.Books() == OfferedIf(!old(x.closed) && x.name == name, old(x.Books()), x.cap, stamped)
      ensures stamped.name == e.name && stamped.data == e.data
      ensures stamped.id == if e.id != "" then e.id else
          Decimal(if name in old(topics) then old(|topics[name].published|) + 1 else 1)
      ensures old(closed) ==> topics == old(topics)
      ensures !closed && name in old(topics) ==> old(topics[name]).published == old(topics[name].published) + [stamped]
    {
      stamped := Stamp(e, if name in topics then |topics[name].published| else 0);
      OpenHere(name);
      if closed {
        return;
      }
      if replay == 0 && name !in topics {
        return;
      }
      PublishHere(name, e);
    }

    method PublishHere(name: string, e: Event)
      requires Valid() && !closed && (replay == 0 ==> name in topics)
      modifies this`topics, this`useSeq, this`uses, topics.Values, all
      ensures Valid() && all == old(all) && Listed(name)
      ensures uses == if replay > 0 then old(uses) + [name] else old(uses)
      ensures forall n {:trigger old(topics[n])} :: n in old(topics) && n != name ==>
        old(topics[n]).published == old(topics[n].published)
      ensures replay > 0 && name !in old(topics) ==> fresh(topics[name]) && topics[name].published == [Stamp(e, 0)]
      ensures var stamped := Stamp(e, if name in old(topics) then old(|topics[name].published|) else 0);
        && (name in old(topics) ==> old(topics[name]).published == old(topics[name].published) + [stamped])
        && forall x {:trigger x.Books()} :: x in all ==>
          x.Books() == OfferedIf(name in old(topics) && x in old(topics[name].subs), old(x.Books()), x.cap, stamped)
    {
      if name in topics {
        PublishAgain(name, e);
      } else {
        PublishFirst(name, e);
      }
    }

    /** Publishing to a topic that is there; without replay it is not touched. */
    method PublishAgain(name: string, e: Event)
      requires Valid() && !closed && name in topics
      modifies this`topics, this`useSeq, this`uses, topics.Values, all
      ensures Valid() && all == old(all) && Fewer(old(topics), name)
      ensures uses == if replay > 0 then old(uses) + [name] else old(uses)
      ensures forall n {:trigger old(topics[n])} :: n in old(topics) && n != name ==>
        old(topics[n]).published == old(topics[n].published)
      ensures var stamped := Stamp(e, old(|topics[name].published|));
        && old(topics[name]).published == old(topics[name].published) + [stamped]
        && forall x {:trigger x.Books()} :: x in all ==>
          x.Books() == OfferedIf(x in old(topics[name].subs), old(x.Books()), x.cap, stamped)
    {
      OtherTopics(name);
      var t: Topic;
      if replay == 0 {
        t := topics[name];
      } else {
        t := TopicLocked(name);
      }
      PublishTo(name, t, e);
    }

    /** Publishing to a topic that begins with it, and has no subscribers. */
    method PublishFirst(name: string, e: Event)
      requires Valid() && !closed && name !in topics && replay > 0
      modifies this`topics, this`useSeq, this`uses, topics.Values`lastUse, all
      ensures Valid() && all == old(all) && name in topics && topics == old(Roomed())[name := topics[name]]
      ensures uses == old(uses) + [name]
      ensures fresh(topics[name]) && topics[name].published == [Stamp(e, 0)]
      ensures forall x {:trigger x.Books()} :: x in all ==> x.Books() == old(x.Books())
    {
      var t := TopicLocked(name);
      PublishTo(name, t, e);
    }

    /** The table after a publish that reached its topic. */
    twostate predicate Listed(name: string)
      reads this, topics.Values
    {
      if replay == 0 then Fewer(old(topics), name)
      else name in topics && topics == if name in old(topics) then old(topics) else old(Roomed())[name := topics[name]]
    }

    lemma OtherTopics(name: string)
      requires TableOk() && name in topics
      ensures forall n :: n in topics && n != name ==> topics[n] != topics[name]
    {
      forall n | n in topics && n != name ensures topics[n] != topics[name] {
        assert Recalled(n) && Recalled(name);
      }
    }

    /** The open subscribers of a topic are those attached to it. */
    lemma OpenHere(name: string)
      requires SubsOk({}) && Attached()
      ensures forall x :: x in all ==> (!x.closed && x.name == name <==> name in topics && x in topics[name].subs)
    {
    }

    method PublishTo(name: string, t: Topic, e: Event)
      requires Core({}) && Useful({name}) && name in topics && topics[name] == t
      requires replay == 0 ==> Useful({})
      modifies this`topics, t, all
      ensures Valid() && all == old(all) && Fewer(old(topics), name)
      ensures forall x {:trigger x.Books()} :: x in all ==>
        x.Books() == OfferedIf(x in old(t.subs), old(x.Books()), x.cap, Stamp(e, old(|t.published|)))
      ensures t.published == old(t.published) + [Stamp(e, old(|t.published|))]
    {
      var sent := RecordIn(name, t, e);
      Spread(name, t, sent);
    }

    /** Everybody is offered the latest event; those without room go. */
    method Spread(name: string, t: Topic, e: Event)
      requires Core(t.subs) && Useful({}) && name in topics && topics[name] == t
      requires t.published != [] && Last(t.published) == e
      modifies this`topics, t`subs, all
      ensures Valid() && all == old(all) && Fewer(old(topics), name)
      ensures forall x {:trigger x.Books()} :: x in all ==>
        x.Books() == OfferedIf(x in old(t.subs), old(x.Books()), x.cap, e)
    {
      assert t.Ring(replay);
      ghost var before, subs := map x | x in all :: x.Books(), t.subs;
      var drop := FanOut(name, t, e, before);
      ghost var between := map x | x in all :: x.Books();
      FannedOnly(t, e, before, between, drop);
      DropAll(name, t, drop, between);
      forall x | x in all ensures x.Books() == if x in subs then Offered(before[x], x.cap, e) else before[x] {
        assert x.Books() == if x in drop then between[x].(closed := true) else between[x];
      }
    }

    lemma FannedOnly(t: Topic, e: Event, before: map<Subscriber, Account>, between: map<Subscriber, Account>,
      drop: set<Subscriber>)
      requires Fanned(t, e, before, {}, drop) && Shut(between, {}) && drop <= t.subs
      ensures forall x {:trigger between[x]} :: x in all ==>
        (if x in drop then between[x].(closed := true) else between[x]) == if x in t.subs
          then Offered(before[x], x.cap, e) else before[x]
    {
      forall x | x in all ensures (if x in drop then between[x].(closed := true) else between[x]) == if x in t.subs
        then Offered(before[x], x.cap, e) else before[x] {
        assert x.Books() == between[x];
      }
    }

    method RecordIn(name: string, t: Topic, e: Event) returns (stamped: Event)
      requires Core({}) && Useful({name}) && name in topics && topics[name] == t
      requires replay == 0 ==> Useful({})
      modifies t`next, t`buf, t`start, t`published
      ensures Core(t.subs) && Useful({}) && Recorded(name, t, stamped)
      ensures stamped == Stamp(e, |old(t.published)|)
    {
      OtherTopics(name);
      assert t.Ring(replay);
      stamped := t.Record(e, replay);
      RecordedKeeps((name, t, stamped));
    }

    // ------------------------------------------------------- subscribing

    /** Queues what is to be replayed into an empty channel. No send can block:
        the channel has room for the whole buffer. */
    method Backfill(t: Topic, s: Subscriber, lastID: string)
      requires t.Ring(replay) && !s.closed && s.queue == [] && s.cap >= replay
      modifies s`queue, s`replayed
      ensures s.queue == s.replayed == Replay(t.published, replay, lastID) && |s.queue| <= s.cap
    {
      if lastID != "" {
        ghost var ring := RingFrom(t.buf, t.start);
        var i := 0;
        assert ring[0..] == ring && s.queue + Unseen(ring, lastID) == Unseen(ring, lastID);
        while i < |t.buf|
          invariant 0 <= i <= |t.buf| == |ring| && |s.queue| <= i && !s.closed
          invariant s.queue + Unseen(ring[i..], lastID) == Unseen(ring, lastID)
        {
          UnseenNext(ring, i, lastID, s.queue);
          var e := Slot(t.buf, t.start, i);
          if AfterLastID(e.id, lastID) {
            var sent := s.TrySend(e);
          }
          i := i + 1;
        }
        UnseenEnd(ring, lastID, s.queue);
      }
      s.replayed := s.queue;
    }

    /** A new subscriber, caught up by its replay, joined its topic. */
    twostate predicate Joined(t: Topic, s: Subscriber)
      reads this, topics.Values, all, t, s
    {
      && s.name in topics && topics[s.name] == t && topics == old(topics)
      && Unused() && closed == old(closed)
      && s !in old(all) && all == old(all) + {s} && s.Ok() && !s.closed && s.history == t.published
      && t.subs == old(t.subs) + {s} && t.lastUse == old(t.lastUse)
      && t.published == old(t.published) && t.buf == old(t.buf) && t.start == old(t.start) && t.next == old(t.next)
      && (forall n :: n in topics && n != s.name ==> unchanged(topics[n]))
      && (forall x :: x in old(all) ==> unchanged(x))
      && peak >= old(peak) && peak >= |Busy()|
    }

    twostate lemma JoinedSubs(w: (Topic, Subscriber))
      requires Joined(w.0, w.1) && old(SubsOk({})) && old(Attached()) && old(AccountsOk())
      ensures SubsOk({}) && Attached() && AccountsOk()
    {
      forall x | x in all ensures x.Ok() {
        if x != w.1 { assert old(x.Ok()); }
      }
    }

    twostate lemma JoinedRest(w: (Topic, Subscriber))
      requires Joined(w.0, w.1) && old(TableOk()) && old(RingsOk()) && old(Bounded()) && old(Useful({w.1.name}))
      ensures TableOk() && RingsOk() && Bounded() && Useful({})
    {
      TableKept();
      forall n | n in topics ensures topics[n].Ring(replay) {
        assert old(topics[n].Ring(replay));
      }
    }

    twostate lemma JoinedRooted(w: (Topic, Subscriber))
      requires Joined(w.0, w.1) && old(AllRooted()) && Attached() && w.1.home == w.0
      ensures AllRooted()
    {
      RootedKept(w.1);
    }

    method Enlist(t: Topic, s: Subscriber)
      requires Core({}) && Useful({s.name}) && s.name in topics && topics[s.name] == t == s.home
      requires s !in all && s.Ok() && !s.closed && s.history == t.published
      modifies this`all, this`peak, t`subs
      ensures Valid() && Joined(t, s)
    {
      OtherTopics(s.name);
      t.subs := t.subs + {s};
      all := all + {s};
      ghost var busy := Busy();
      peak := Max(peak, |busy|);
      assert Busy() == busy;
      JoinedSubs((t, s));
      JoinedRest((t, s));
      JoinedRooted((t, s));
    }

    /** Hub.Subscribe. The channel first holds the replay, then receives every
        event published from now on. */
    method Subscribe(name: string, lastID: string) returns (s: Subscriber)
      requires Valid()
      modifies this, topics.Values`lastUse, topics.Values`subs
      ensures Valid() && fresh(s) && closed == old(closed)
      ensures old(closed) ==> s.closed && s.queue == [] && all == old(all)
      ensures !old(closed) ==> all == old(all) + {s} && !s.closed && s.name == name && s.received == []
      ensures uses == if closed then old(uses) else old(uses) + [name]
      ensures !old(closed) ==> name in topics && topics[name] == s.home
      ensures !old(closed) ==> topics == if name in old(topics) then old(topics) else old(Roomed())[name := s.home]
      ensures !old(closed) ==> s.history == if name in old(topics) then old(topics[name].published) else []
      ensures !old(closed) ==> s.joined == |s.history| && s.queue == s.replayed == Replay(s.history, replay, lastID)
      ensures forall x :: x in old(all) ==> unchanged(x)
    {
      if closed {
        s := new Subscriber(0, name, null, []);
        s.CloseChannel();
        return;
      }
      var t := TopicLocked(name);
      s := JoinTopic(name, t, lastID);
    }

    method JoinTopic(name: string, t: Topic, lastID: string) returns (s: Subscriber)
      requires Core({}) && Useful({name}) && name in topics && topics[name] == t
      modifies this`all, this`peak, t`subs
      ensures Valid() && fresh(s) && all == old(all) + {s} && topics == old(topics)
      ensures !s.closed && s.name == name && s.home == t && s.received == []
      ensures s.history == old(t.published) && s.joined == |s.history|
      ensures s.queue == s.replayed == Replay(s.history, replay, lastID)
    {
      assert t.Ring(replay);
      s := OpenChannel(name, t, lastID);
      Enlist(t, s);
    }

    method OpenChannel(name: string, t: Topic, lastID: string) returns (s: Subscriber)
      requires t.Ring(replay)
      ensures fresh(s) && s.Ok() && !s.closed && s.name == name && s.home == t && s.received == []
      ensures s.history == t.published && s.joined == |s.history|
      ensures s.queue == s.replayed == Replay(t.published, replay, lastID)
    {
      s := new Subscriber(Max(replay, MIN_SUBSCRIBER_BUFFER), name, t, t.published);
      Backfill(t, s, lastID);
      assert s.history[s.joined..] == [];
    }

    /** A client of channel s, which may have been closed, comes back while its
        topic lives. What it then gets goes on, without a gap or a repeat, from
        what it had taken off s if and only if Resumes says so of the last ID it
        sends; and then the two together are all the events of the topic since
        it was first in step, however often this is repeated. */
    method Reconnect(s: Subscriber, lastID: string, ghost n: nat) returns (again: Subscriber)
      requires Valid() && s in all && s.InStep(n) && s.Ok()
      requires s.name in topics && topics[s.name] == s.home
      modifies this, topics.Values`lastUse, topics.Values`subs
      ensures Valid() && fresh(again) && again in all && !again.closed && unchanged(s)
      ensures uses == old(uses) + [s.name]
      ensures again.home == s.home && topics == old(topics) && again.history == topics[s.name].published
      ensures s.history <= again.history && again.received == []
      ensures again.InStep(s.Seen(n)) <==> Resumes(again.history, replay, lastID, s.Seen(n))
      ensures again.InStep(s.Seen(n)) ==> s.received + again.queue == again.history[n..]
    {
      assert Rooted(s);
      again := Subscribe(s.name, lastID);
      assert again.Ok();
      Resumed(s, again, lastID, n);
    }

    lemma Resumed(s: Subscriber, again: Subscriber, lastID: string, n: nat)
      requires s.Ok() && s.InStep(n) && s.history <= again.history && again.Ok()
      requires again.joined == |again.history| && again.queue == again.replayed == Replay(again.history, replay, lastID)
      requires again.received == []
      ensures again.InStep(s.Seen(n)) <==> Resumes(again.history, replay, lastID, s.Seen(n))
      ensures again.InStep(s.Seen(n)) ==> s.received + again.queue == again.history[n..]
    {
      var m, all := s.Seen(n), again.history;
      ResumeExact(all, replay, lastID, m);
      assert all[m..|all|] == all[m..];
      if again.InStep(m) {
        s.Straight(n);
        s.Continued([], n, n);
        assert s.history[n..m] == all[n..m];
        again.Continued(s.received, n, m);
      }
    }

    // ----------------------------------------------------------- closing

    twostate predicate SameAccount(x: Subscriber)
      reads x
    {
      x.queue == old(x.queue) && x.received == old(x.received) && x.replayed == old(x.replayed)
        && x.history == old(x.history)
    }

    /** Hub.Close: every open channel is closed, none of them twice; what was
        queued can still be received. Idempotent. */
    method Close()
      requires Valid()
      modifies this`closed, this`topics, all`closed
      ensures Valid() && closed && topics == map[] && all == old(all)
      ensures forall x :: x in all ==> x.closed && SameAccount(x)
      ensures old(closed) ==> forall x :: x in all ==> unchanged(x)
    {
      NoTopicNoneOpen();
      if closed {
        return;
      }
      closed := true;
      CloseTopics();
      AllClosed();
      topics := map[];
      assert Busy() == {};
    }

    method CloseTopics()
      requires SubsOk({})
      modifies all`closed
      ensures forall x :: x in all ==> SameAccount(x) && (old(x.closed) ==> x.closed)
      ensures forall n, x {:trigger x in topics[n].subs} :: n in topics && x in topics[n].subs ==> x.closed
    {
      var names := topics.Keys;
      while names != {}
        invariant names <= topics.Keys
        invariant forall x :: x in all ==> SameAccount(x) && (old(x.closed) ==> x.closed)
        invariant forall n, x {:trigger x in topics[n].subs} :: n in topics && n !in names && x in topics[n].subs ==>
          x.closed
        decreases names
      {
        var name :| name in names;
        CloseSubs(topics[name].subs);
        names := names - {name};
      }
    }

    method CloseSubs(subs: set<Subscriber>)
      modifies subs`closed
      ensures forall x :: x in subs ==> x.closed
    {
      var rest := subs;
      while rest != {}
        invariant rest <= subs
        invariant forall x :: x in subs - rest ==> x.closed
        decreases rest
      {
        var sub :| sub in rest;
        if !sub.closed {
          sub.CloseChannel();
        }
        rest := rest - {sub};
      }
    }

    lemma NoTopicNoneOpen()
      requires Attached()
      ensures topics == map[] ==> forall x :: x in all ==> x.closed
    {
    }

    /** Nobody can be open outside the topics just gone through. */
    twostate lemma AllClosed()
      requires old(Valid()) && all == old(all) && topics == old(topics)
      requires forall n :: n in topics ==> topics[n].subs == old(topics[n].subs)
      requires forall x :: x in all ==> SameAccount(x) && (old(x.closed) ==> x.closed)
      requires forall n, x {:trigger x in topics[n].subs} :: n in topics && x in topics[n].subs ==> x.closed
      ensures forall x :: x in all ==> x.closed
      ensures AccountsOk()
    {
      forall x | x in all ensures x.closed && x.Ok() {
        assert old(x.Ok());
        if !old(x.closed) { assert x in topics[x.name].subs; }
      }
    }
  }

  /** The i-th event of a ring, oldest first. */
  method Slot(buf: seq<Event>, start: nat, i: nat) returns (e: Event)
    requires (start < |buf| || start == 0) && i < |buf|
    ensures e == RingFrom(buf, start)[i]
  {
    WrapAt(start + i, |buf|);
    e := buf[(start + i) % |buf|];
  }

  /** An account that is straight stays so when one more event is owed and
      queued. */
  lemma OneMore(received: seq<Event>, queue: seq<Event>, replayed: seq<Event>, history: seq<Event>, joined: nat,
    e: Event)
    requires joined <= |history| && received + queue == replayed + history[joined..]
    ensures received + (queue + [e]) == replayed + (history + [e])[joined..]
  {
    assert (history + [e])[joined..] == history[joined..] + [e];
    assert received + (queue + [e]) == received + queue + [e]
      && replayed + (history[joined..] + [e]) == replayed + history[joined..] + [e];
  }

  function Last(s: seq<Event>): Event
    requires s != []
  {
    s[|s|-1]
  }

  ghost function AllButLast(s: seq<Event>): seq<Event> { if s == [] then [] else s[..|s|-1] }
}
