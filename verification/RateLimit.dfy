/** The generic cell rate algorithm, the token bucket it implements, and the two
    limiters built on it: in memory with sweeping, and in Redis with key expiry.
    Times are integers on one clock; the unit is a nanosecond in memory and a
    microsecond in Redis. */
module RateLimit {
  import opened Common

  /** Go's zero time, before every clock reading: the value of a missing key. */
  const ZERO_TIME := 0

  datatype Rate = Rate(limit: nat, period: nat, burst: nat)

  /** Rates the algorithm is defined for: at most one request per time unit. */
  ghost predicate Proper(r: Rate) { 0 < r.limit <= r.period }

  function Interval(r: Rate): (i: nat)
    requires Proper(r)
    ensures i >= 1
  {
    AtLeastOne(r);
    r.period / r.limit
  }

  lemma AtLeastOne(r: Rate)
    requires Proper(r)
    ensures r.period / r.limit >= 1
  {
  }

  function Capacity(r: Rate): nat {
    if r.burst > 0 then r.burst else r.limit
  }

  datatype Decision = Decision(allowed: bool, limit: nat, remaining: int, resetAfter: int, retryAfter: int)

  function Min(a: int, b: int): int { if a < b then a else b }

  /** The decision at time now, and the theoretical arrival time to store. */
  function Gcra(r: Rate, now: int, stored: int): (Decision, int)
    requires Proper(r)
  {
    var interval, capacity := Interval(r), Capacity(r);
    var burst := interval * capacity;
    var tat := if stored < now then now else stored;
    var newTat := tat + interval;
    var allowAt := newTat - burst;
    if now < allowAt then (Decision(false, capacity, 0, tat - now, allowAt - now), tat)
    else (Decision(true, capacity, Min((now - allowAt) / interval, capacity - 1), newTat - now, 0), newTat)
  }

  // --------------------------------------------------------- token bucket

  /** A token bucket. Its content is counted in time units: a token is worth an
      interval, and the bucket gains one unit per unit of time until full. */
  datatype Bucket = Bucket(level: int, at: int)

  function Full(r: Rate): nat
    requires Proper(r)
  {
    Interval(r) * Capacity(r)
  }

  function Refilled(r: Rate, b: Bucket, now: int): int
    requires Proper(r)
  {
    Min(Full(r), b.level + (now - b.at))
  }

  /** A request takes a token if there is a whole one. */
  function Take(r: Rate, b: Bucket, now: int): (bool, Bucket)
    requires Proper(r)
  {
    var level := Refilled(r, b, now);
    if level >= Interval(r) then (true, Bucket(level - Interval(r), now)) else (false, Bucket(level, now))
  }

  /** The bucket a stored arrival time stands for at a given time. */
  function BucketOf(r: Rate, tat: int, now: int): Bucket
    requires Proper(r)
  {
    Bucket(Full(r) - (if tat > now then tat - now else 0), now)
  }

  /** Stored times never run further ahead than a bucketful. */
  ghost predicate Reasonable(r: Rate, tat: int, now: int)
    requires Proper(r)
  {
    tat - now <= Full(r)
  }

  lemma RefillIsTime(r: Rate, tat: int, now: int, later: int)
    requires Proper(r) && now <= later
    ensures Refilled(r, BucketOf(r, tat, now), later) == BucketOf(r, tat, later).level
  {
  }

  lemma OneToken(r: Rate)
    requires Proper(r)
    ensures Full(r) >= Interval(r)
  {
    assert Capacity(r) >= 1;
    Scale(Interval(r), 1, Capacity(r));
  }

  lemma Scale(i: nat, a: int, b: int)
    requires a <= b
    ensures i * a <= i * b
  {
  }

  lemma StepRefines(r: Rate, tat: int, now: int, later: int)
    requires Proper(r) && now <= later && Reasonable(r, tat, now)
    ensures var (d, tat') := Gcra(r, later, tat); var (taken, b) := Take(r, BucketOf(r, tat, now), later);
      d.allowed == taken && BucketOf(r, tat', later) == b && Reasonable(r, tat', later)
  {
    RefillIsTime(r, tat, now, later);
    OneToken(r);
  }

  /** Request times in lock order, none before start. */
  ghost predicate Ordered(times: seq<int>, start: int) {
    forall i :: 0 <= i < |times| ==> start <= times[i] && (i > 0 ==> times[i-1] <= times[i])
  }

  function RunGcra(r: Rate, tat: int, times: seq<int>): seq<bool>
    requires Proper(r)
    decreases |times|
  {
    if times == [] then []
    else var (d, tat') := Gcra(r, times[0], tat); [d.allowed] + RunGcra(r, tat', times[1..])
  }

  function RunBucket(r: Rate, b: Bucket, times: seq<int>): seq<bool>
    requires Proper(r)
    decreases |times|
  {
    if times == [] then []
    else var (taken, b') := Take(r, b, times[0]); [taken] + RunBucket(r, b', times[1..])
  }

  /** Over every non-decreasing sequence of requests the algorithm decides
      exactly as the token bucket. */
  lemma {:induction false} DecidesAsBucket(r: Rate, tat: int, start: int, times: seq<int>)
    requires Proper(r) && Reasonable(r, tat, start) && Ordered(times, start)
    ensures RunGcra(r, tat, times) == RunBucket(r, BucketOf(r, tat, start), times)
    decreases |times|
  {
    if times != [] {
      StepRefines(r, tat, start, times[0]);
      OrderedTail(times, start);
      DecidesAsBucket(r, Gcra(r, times[0], tat).1, times[0], times[1..]);
    }
  }

  lemma OrderedTail(times: seq<int>, start: int)
    requires Ordered(times, start) && times != []
    ensures Ordered(times[1..], times[0])
  {
    forall i | 0 <= i < |times[1..]| ensures times[0] <= times[1..][i] && (i > 0 ==> times[1..][i-1] <= times[1..][i]) {
      Climb(times, start, i + 1);
    }
  }

  lemma {:induction false} Climb(times: seq<int>, start: int, i: nat)
    requires Ordered(times, start) && i < |times|
    ensures times[0] <= times[i]
  {
    if i > 0 { Climb(times, start, i - 1); }
  }

  function Count(s: seq<bool>): nat {
    if s == [] then 0 else (if s[0] then 1 else 0) + Count(s[1..])
  }

  /** What a bucket gives out is what it held plus what time added. */
  lemma {:induction false} BucketBudget(r: Rate, b: Bucket, times: seq<int>)
    requires Proper(r) && times != [] && Ordered(times, b.at) && b.level >= 0
    ensures Interval(r) * Count(RunBucket(r, b, times)) <= b.level + (times[|times|-1] - b.at)
    decreases |times|
  {
    var (taken, b') := Take(r, b, times[0]);
    var rest := RunBucket(r, b', times[1..]);
    assert RunBucket(r, b, times) == [taken] + rest && ([taken] + rest)[1..] == rest;
    if |times| == 1 {
      assert rest == [];
    } else {
      OrderedTail(times, b.at);
      assert times[1..][|times[1..]|-1] == times[|times|-1];
      BucketBudget(r, b', times[1..]);
    }
    if taken { Distribute(Interval(r), 1, Count(rest)); }
  }

  lemma Distribute(i: nat, a: int, b: int)
    ensures i * (a + b) == i * a + i * b
  {
  }

  lemma QuotientBound(i: nat, n: nat, capacity: nat, w: nat)
    requires i >= 1 && i * n <= i * capacity + w
    ensures n <= capacity + w / i
  {
    Distribute(i, w / i, 1);
    assert i * (w / i + 1) > w;
    Distribute(i, capacity, w / i + 1);
    if n > capacity + w / i {
      Scale(i, capacity + (w / i + 1), n);
    }
  }

  /** The limit the algorithm is for: however requests arrive, and whatever the
      state before, no window of width w sees more than capacity + w/interval of
      them admitted. */
  lemma AdmittedInWindow(r: Rate, tat: int, times: seq<int>)
    requires Proper(r) && times != [] && Ordered(times, times[0]) && Reasonable(r, tat, times[0])
    ensures var w := times[|times|-1] - times[0];
      w >= 0 && Count(RunGcra(r, tat, times)) <= Capacity(r) + w / Interval(r)
  {
    var w := times[|times|-1] - times[0];
    Climb(times, times[0], |times| - 1);
    DecidesAsBucket(r, tat, times[0], times);
    BucketBudget(r, BucketOf(r, tat, times[0]), times);
    QuotientBound(Interval(r), Count(RunGcra(r, tat, times)), Capacity(r), w);
  }

  // -------------------------------------------- what the answer promises

  /** How many requests in a row the bucket would still admit at time now. */
  function Instant(now: int, n: nat): seq<int> { seq(n, _ => now) }

  lemma {:induction false} BurstOf(r: Rate, tat: int, now: int, n: nat)
    requires Proper(r) && tat >= now
    requires Interval(r) * n <= Full(r) - (tat - now)
    ensures Count(RunGcra(r, tat, Instant(now, n))) == n
    decreases n
  {
    var times := Instant(now, n);
    if n > 0 {
      assert times[1..] == Instant(now, n - 1);
      Distribute(Interval(r), 1, n - 1);
      Scale(Interval(r), 1, n);
      BurstOf(r, tat + Interval(r), now, n - 1);
      var (d, tat') := Gcra(r, now, tat);
      assert d.allowed && tat' == tat + Interval(r);
      assert ([d.allowed] + RunGcra(r, tat', times[1..]))[1..] == RunGcra(r, tat', times[1..]);
    }
  }

  lemma {:induction false} BurstEnds(r: Rate, tat: int, now: int, n: nat)
    requires Proper(r) && tat >= now
    requires 0 <= Full(r) - (tat - now) < Interval(r) * n
    ensures Count(RunGcra(r, tat, Instant(now, n))) < n
    decreases n
  {
    var times := Instant(now, n);
    if n > 0 {
      assert times[0] == now && times[1..] == Instant(now, n - 1);
      Distribute(Interval(r), 1, n - 1);
      var (d, tat') := Gcra(r, now, tat);
      assert ([d.allowed] + RunGcra(r, tat', times[1..]))[1..] == RunGcra(r, tat', times[1..]);
      CountAtMost(RunGcra(r, tat', times[1..]));
      RunLength(r, tat', times[1..]);
      if d.allowed { BurstEnds(r, tat', now, n - 1); }
    }
  }

  lemma {:induction false} CountAtMost(s: seq<bool>)
    ensures Count(s) <= |s|
  {
    if s != [] { CountAtMost(s[1..]); }
  }

  lemma {:induction false} RunLength(r: Rate, tat: int, times: seq<int>)
    requires Proper(r)
    ensures |RunGcra(r, tat, times)| == |times|
    decreases |times|
  {
    if times != [] { RunLength(r, Gcra(r, times[0], tat).1, times[1..]); }
  }

  /** Remaining is exact: after an admitted request just that many more would be
      admitted at the same moment, and not one beyond. The cap at capacity - 1
      never bites. */
  lemma RemainingExact(r: Rate, now: int, stored: int)
    requires Proper(r) && Gcra(r, now, stored).0.allowed
    ensures var (d, tat) := Gcra(r, now, stored);
      && 0 <= d.remaining < Capacity(r)
      && Count(RunGcra(r, tat, Instant(now, d.remaining))) == d.remaining
      && Count(RunGcra(r, tat, Instant(now, d.remaining + 1))) <= d.remaining
  {
    var (d, tat) := Gcra(r, now, stored);
    RemainingIs(r, now, stored);
    BurstOf(r, tat, now, d.remaining);
    BurstEnds(r, tat, now, d.remaining + 1);
  }

  /** As many whole intervals as there are in what is left of the burst. */
  lemma RemainingIs(r: Rate, now: int, stored: int)
    requires Proper(r) && Gcra(r, now, stored).0.allowed
    ensures var (d, tat) := Gcra(r, now, stored);
      && tat >= now && 0 <= d.remaining < Capacity(r)
      && Interval(r) * d.remaining <= Full(r) - (tat - now) < Interval(r) * (d.remaining + 1)
  {
    var (d, tat) := Gcra(r, now, stored);
    var i, slack := Interval(r), Full(r) - (tat - now);
    Quotient(slack, i);
    Distribute(i, Capacity(r) - 1, 1);
    if slack / i > Capacity(r) - 1 { Scale(i, Capacity(r), slack / i); }
  }

  lemma Quotient(a: int, i: nat)
    requires i >= 1
    ensures i * (a / i) <= a < i * (a / i + 1)
  {
    Distribute(i, a / i, 1);
  }

  /** RetryAfter is exact: a denied client that waits is admitted if and only if
      it waited that long. A denial stores what was there before. */
  lemma RetryAfterExact(r: Rate, now: int, stored: int, wait: nat)
    requires Proper(r) && !Gcra(r, now, stored).0.allowed
    ensures var (d, tat) := Gcra(r, now, stored);
      && tat == stored
      && d.retryAfter > 0
      && (Gcra(r, now + wait, tat).0.allowed <==> wait >= d.retryAfter)
  {
    OneToken(r);
  }

  /** ResetAfter is exact: the bucket is full again that much later, not before. */
  lemma ResetAfterExact(r: Rate, now: int, stored: int, wait: nat)
    requires Proper(r)
    ensures var (d, tat) := Gcra(r, now, stored);
      BucketOf(r, tat, now + wait).level == Full(r) <==> wait >= d.resetAfter
  {
  }

  // ----------------------------------------------------- forgetting a key

  /** Dropping a stored arrival time goes unnoticed at time now exactly when
      that time is not in the future. */
  lemma ForgettingUnnoticed(r: Rate, now: int, stored: int)
    requires Proper(r) && now > ZERO_TIME
    ensures Gcra(r, now, ZERO_TIME) == Gcra(r, now, stored) <==> stored <= now
  {
  }

  /** Why the clock must not step back between a sweep and a request: the sweep
      at 11 drops a time of 10 that a request reading 5 would be denied by. */
  lemma SweepNeedsMonotoneClock()
    ensures var r := Rate(1, 5, 1);
      && !Gcra(r, 5, 10).0.allowed && Gcra(r, 5, ZERO_TIME).0.allowed && 10 < 11
  {
    assert Interval(Rate(1, 5, 1)) == 5;
  }

  function Lookup(tats: map<string, int>, key: string): int {
    if key in tats then tats[key] else ZERO_TIME
  }

  /** full is what the limiter would remember if it never dropped a key; tats
      differs from it only in times that are past. */
  ghost predicate Remembers(tats: map<string, int>, full: map<string, int>, now: int) {
    && now >= ZERO_TIME
    && tats.Keys <= full.Keys
    && forall k :: k in full ==> if k in tats then tats[k] == full[k] else full[k] <= now
  }

  // ------------------------------------------------- what was asked and answered

  datatype Request = Request(key: string, at: int, allowed: bool)

  /** When a key's requests were made. */
  ghost function Times(log: seq<Request>, key: string): seq<int> {
    if log == [] then []
    else
      var r := log[|log|-1];
      Times(log[..|log|-1], key) + if r.key == key then [r.at] else []
  }

  /** How they were answered. */
  ghost function Answers(log: seq<Request>, key: string): seq<bool> {
    if log == [] then []
    else
      var r := log[|log|-1];
      Answers(log[..|log|-1], key) + if r.key == key then [r.allowed] else []
  }

  /** The time stored after these requests. */
  function After(r: Rate, tat: int, times: seq<int>): int
    requires Proper(r)
    decreases |times|
  {
    if times == [] then tat else After(r, Gcra(r, times[0], tat).1, times[1..])
  }

  lemma {:induction false} RunSplit(r: Rate, tat: int, a: seq<int>, b: seq<int>)
    requires Proper(r)
    ensures RunGcra(r, tat, a + b) == RunGcra(r, tat, a) + RunGcra(r, After(r, tat, a), b)
    ensures After(r, tat, a + b) == After(r, After(r, tat, a), b)
    decreases |a|
  {
    if a == [] {
      assert a + b == b;
    } else {
      assert (a + b)[0] == a[0] && (a + b)[1..] == a[1..] + b;
      RunSplit(r, Gcra(r, a[0], tat).1, a[1..], b);
    }
  }

  lemma {:induction false} AfterReasonable(r: Rate, tat: int, start: int, times: seq<int>)
    requires Proper(r) && Reasonable(r, tat, start) && Ordered(times, start)
    ensures Reasonable(r, After(r, tat, times), if times == [] then start else times[|times|-1])
    decreases |times|
  {
    if times != [] {
      StepRefines(r, tat, start, times[0]);
      OrderedTail(times, start);
      AfterReasonable(r, Gcra(r, times[0], tat).1, times[0], times[1..]);
    }
  }

  /** What is remembered of a key, and what its clients were told, is what one
      bucket for it alone gives. */
  ghost predicate RecordedFor(r: Rate, log: seq<Request>, full: map<string, int>, last: int, key: string)
    requires Proper(r)
  {
    var times := Times(log, key);
    && Ordered(times, ZERO_TIME) && (times != [] ==> times[|times|-1] <= last)
    && Answers(log, key) == RunGcra(r, ZERO_TIME, times) && Lookup(full, key) == After(r, ZERO_TIME, times)
  }

  ghost predicate Recorded(r: Rate, log: seq<Request>, full: map<string, int>, last: int)
    requires Proper(r)
  {
    last >= ZERO_TIME && forall key {:trigger RecordedFor(r, log, full, last, key)} ::
      RecordedFor(r, log, full, last, key)
  }

  lemma LogNext(log: seq<Request>, e: Request, key: string)
    ensures Times(log + [e], key) == Times(log, key) + if e.key == key then [e.at] else []
    ensures Answers(log + [e], key) == Answers(log, key) + if e.key == key then [e.allowed] else []
  {
    assert (log + [e])[..|log|] == log;
  }

  lemma OneMore(r: Rate, tat: int, times: seq<int>, now: int)
    requires Proper(r)
    ensures var (d, tat') := Gcra(r, now, After(r, tat, times));
      RunGcra(r, tat, times + [now]) == RunGcra(r, tat, times) + [d.allowed] && After(r, tat, times + [now]) == tat'
  {
    RunSplit(r, tat, times, [now]);
    var (d, tat') := Gcra(r, now, After(r, tat, times));
    assert [now][1..] == [] && RunGcra(r, tat', []) == [] && [d.allowed] + [] == [d.allowed];
  }

  lemma OrderedNext(times: seq<int>, now: int)
    requires Ordered(times, ZERO_TIME) && ZERO_TIME <= now && (times != [] ==> times[|times|-1] <= now)
    ensures Ordered(times + [now], ZERO_TIME)
  {
  }

  lemma RecordedNext(r: Rate, log: seq<Request>, full: map<string, int>, full': map<string, int>, last: int,
    key: string, now: int)
    requires Proper(r) && Recorded(r, log, full, last) && last <= now
    requires forall k :: k != key ==> Lookup(full', k) == Lookup(full, k)
    requires Lookup(full', key) == Gcra(r, now, Lookup(full, key)).1
    ensures Recorded(r, log + [Request(key, now, Gcra(r, now, Lookup(full, key)).0.allowed)], full', now)
  {
    var e := Request(key, now, Gcra(r, now, Lookup(full, key)).0.allowed);
    forall k ensures RecordedFor(r, log + [e], full', now, k) {
      assert RecordedFor(r, log, full, last, k);
      LogNext(log, e, k);
      if k == key {
        OneMore(r, ZERO_TIME, Times(log, key), now);
        OrderedNext(Times(log, key), now);
      } else {
        assert Times(log, k) + [] == Times(log, k) && Answers(log, k) + [] == Answers(log, k);
      }
    }
  }

  lemma Later(r: Rate, log: seq<Request>, full: map<string, int>, last: int, now: int)
    requires Proper(r) && Recorded(r, log, full, last) && last <= now
    ensures Recorded(r, log, full, now)
  {
    forall k ensures RecordedFor(r, log, full, now, k) { assert RecordedFor(r, log, full, last, k); }
  }

  /** The answers to the middle part of a run. */
  lemma MiddleAnswers(r: Rate, tat: int, before: seq<int>, window: seq<int>, after: seq<int>)
    requires Proper(r)
    ensures var all := RunGcra(r, tat, before + (window + after));
      |all| == |before| + |window| + |after|
      && all[|before|..|before|+|window|] == RunGcra(r, After(r, tat, before), window)
  {
    RunSplit(r, tat, before, window + after);
    RunSplit(r, After(r, tat, before), window, after);
    RunLength(r, tat, before);
    RunLength(r, After(r, tat, before), window);
    RunLength(r, After(r, After(r, tat, before), window), after);
  }

  lemma AdmittedBetween(r: Rate, times: seq<int>, i: nat, j: nat)
    requires Proper(r) && Ordered(times, ZERO_TIME) && i < j <= |times|
    ensures |RunGcra(r, ZERO_TIME, times)| == |times|
    ensures times[i] <= times[j-1]
    ensures Count(RunGcra(r, ZERO_TIME, times)[i..j]) <= Capacity(r) + (times[j-1] - times[i]) / Interval(r)
  {
    assert times == times[..i] + (times[i..j] + times[j..]);
    SliceOrdered(times, i, j);
    AdmittedAmid(r, times, i, j, times[..i], times[i..j], times[j..]);
  }

  lemma AdmittedAmid(r: Rate, times: seq<int>, i: nat, j: nat, before: seq<int>, window: seq<int>, after: seq<int>)
    requires Proper(r) && times == before + (window + after) && i == |before| && j == i + |window|
    requires Ordered(before, ZERO_TIME) && window != [] && Ordered(window, window[0])
    requires window[0] == times[i] && window[|window|-1] == times[j-1]
    requires (if before == [] then ZERO_TIME else before[|before|-1]) <= times[i]
    ensures |RunGcra(r, ZERO_TIME, times)| == |times| && times[i] <= times[j-1]
    ensures Count(RunGcra(r, ZERO_TIME, times)[i..j]) <= Capacity(r) + (times[j-1] - times[i]) / Interval(r)
  {
    MiddleAnswers(r, ZERO_TIME, before, window, after);
    AfterReasonable(r, ZERO_TIME, ZERO_TIME, before);
    AdmittedInWindow(r, After(r, ZERO_TIME, before), window);
  }

  /** However long a limiter runs, no window of a key's requests sees more than
      capacity + width / interval of them admitted, and the answers are those of
      a token bucket. */
  lemma WindowBound(r: Rate, log: seq<Request>, full: map<string, int>, last: int, key: string, i: nat, j: nat)
    requires Proper(r) && Recorded(r, log, full, last) && i < j <= |Times(log, key)|
    ensures |Answers(log, key)| == |Times(log, key)|
    ensures var w := Times(log, key)[j-1] - Times(log, key)[i];
      w >= 0 && Count(Answers(log, key)[i..j]) <= Capacity(r) + w / Interval(r)
    ensures Answers(log, key) == RunBucket(r, Bucket(Full(r), ZERO_TIME), Times(log, key))
  {
    assert RecordedFor(r, log, full, last, key);
    AdmittedBetween(r, Times(log, key), i, j);
    DecidesAsBucket(r, ZERO_TIME, ZERO_TIME, Times(log, key));
  }

  lemma SliceOrdered(times: seq<int>, i: nat, j: nat)
    requires Ordered(times, ZERO_TIME) && i < j <= |times|
    ensures Ordered(times[..i], ZERO_TIME) && Ordered(times[i..j], times[i]) && times[i..j][0] == times[i]
    ensures times[i..j][|times[i..j]|-1] == times[j-1]
    ensures (if i == 0 then ZERO_TIME else times[..i][|times[..i]|-1]) <= times[i]
  {
    var window := times[i..j];
    forall k | 0 <= k < |window| ensures times[i] <= window[k] && (k > 0 ==> window[k-1] <= window[k]) {
      ClimbFrom(times, i, i + k);
      assert window[k] == times[i+k] && (k > 0 ==> window[k-1] == times[i+k-1]);
    }
  }

  lemma {:induction false} ClimbFrom(times: seq<int>, i: nat, k: nat)
    requires Ordered(times, ZERO_TIME) && i <= k < |times|
    ensures times[i] <= times[k]
  {
    if i < k { ClimbFrom(times, i, k - 1); }
  }

  // ------------------------------------- what limit, period and burst mean

  /** The interval is the period divided by the limit, rounded down. */
  lemma IntervalIs(r: Rate)
    requires Proper(r)
    ensures Interval(r) * r.limit <= r.period < (Interval(r) + 1) * r.limit
  {
  }

  /** Requests a period's share apart are an interval apart. */
  lemma ShareIsInterval(r: Rate, d: int)
    requires Proper(r) && d * r.limit >= r.period
    ensures d >= Interval(r)
  {
    IntervalIs(r);
    Unscale(r.limit, d, Interval(r));
  }

  lemma Unscale(i: nat, a: int, b: int)
    requires i > 0 && i * a >= i * b
    ensures a >= b
  {
  }

  /** Each is the period's share, or more, after the one before. */
  ghost predicate Spaced(r: Rate, times: seq<int>) {
    forall i :: 1 <= i < |times| ==> (times[i] - times[i-1]) * r.limit >= r.period
  }

  lemma {:induction false} SpacedAllowed(r: Rate, tat: int, times: seq<int>)
    requires Proper(r) && Spaced(r, times) && (times != [] ==> tat <= times[0])
    ensures |RunGcra(r, tat, times)| == |times| && forall i :: 0 <= i < |times| ==> RunGcra(r, tat, times)[i]
    decreases |times|
  {
    if times != [] {
      OneToken(r);
      var (d, tat') := Gcra(r, times[0], tat);
      if |times| > 1 { ShareIsInterval(r, times[1] - times[0]); }
      assert forall i :: 1 <= i < |times| - 1 ==> times[1..][i] == times[i+1] && times[1..][i-1] == times[i];
      SpacedAllowed(r, tat', times[1..]);
    }
  }

  /** At one instant, k of a new key's requests having been let through. */
  lemma {:induction false} InstantAllowed(r: Rate, now: int, k: nat, n: nat)
    requires Proper(r) && k <= Capacity(r)
    ensures var a := RunGcra(r, now + Interval(r) * k, Instant(now, n));
      |a| == n && forall i :: 0 <= i < n ==> (a[i] <==> k + i < Capacity(r))
    decreases n
  {
    if n > 0 {
      var times := Instant(now, n);
      assert times[0] == now && times[1..] == Instant(now, n - 1);
      OneAtInstant(r, now, k);
      InstantAllowed(r, now, if k < Capacity(r) then k + 1 else k, n - 1);
    }
  }

  lemma OneAtInstant(r: Rate, now: int, k: nat)
    requires Proper(r) && k <= Capacity(r)
    ensures var (d, next) := Gcra(r, now, now + Interval(r) * k);
      (d.allowed <==> k < Capacity(r)) && next == now + Interval(r) * (if k < Capacity(r) then k + 1 else k)
  {
    Distribute(Interval(r), k, 1);
    if k < Capacity(r) { Scale(Interval(r), k + 1, Capacity(r)); }
  }

  /** However a limiter is used, a key whose requests come no faster than limit
      a period is never refused. */
  lemma SteadyAdmitted(r: Rate, log: seq<Request>, full: map<string, int>, last: int, key: string)
    requires Proper(r) && Recorded(r, log, full, last) && Spaced(r, Times(log, key))
    ensures |Answers(log, key)| == |Times(log, key)| && forall a :: a in Answers(log, key) ==> a
  {
    assert RecordedFor(r, log, full, last, key);
    SpacedAllowed(r, ZERO_TIME, Times(log, key));
  }

  /** And of a key whose requests all come at once the burst is admitted, or the
      limit if there is none, and no more. */
  lemma BurstAdmitted(r: Rate, log: seq<Request>, full: map<string, int>, last: int, key: string, now: int)
    requires Proper(r) && Recorded(r, log, full, last) && forall t :: t in Times(log, key) ==> t == now
    ensures |Answers(log, key)| == |Times(log, key)|
    ensures forall i :: 0 <= i < |Answers(log, key)| ==>
      (Answers(log, key)[i] <==> i < if r.burst > 0 then r.burst else r.limit)
  {
    assert RecordedFor(r, log, full, last, key);
    BurstAtOnce(r, Times(log, key), now);
  }

  lemma BurstAtOnce(r: Rate, times: seq<int>, now: int)
    requires Proper(r) && Ordered(times, ZERO_TIME) && forall t :: t in times ==> t == now
    ensures var a := RunGcra(r, ZERO_TIME, times);
      |a| == |times| && forall i :: 0 <= i < |a| ==> (a[i] <==> i < Capacity(r))
  {
    var n := |times|;
    assert forall i :: 0 <= i < n ==> times[i] in times;
    assert times == Instant(now, n);
    if n > 0 {
      assert times[0] == now;
      NewKey(r, now, n);
    }
    InstantAllowed(r, now, 0, n);
  }

  /** A key nobody has seen stands at the present. */
  lemma NewKey(r: Rate, now: int, n: nat)
    requires Proper(r) && now >= ZERO_TIME && n > 0
    ensures RunGcra(r, ZERO_TIME, Instant(now, n)) == RunGcra(r, now + Interval(r) * 0, Instant(now, n))
  {
    assert Gcra(r, now, ZERO_TIME) == Gcra(r, now, now + Interval(r) * 0);
  }

  /** One shard of the in-memory limiter. */
  class Memory {
    const rate: Rate
    var tats: map<string, int>
    var calls: nat
    ghost var full: map<string, int>
    ghost var last: int
    ghost var log: seq<Request>

    constructor (rate: Rate)
      ensures this.rate == rate && tats == map[] && full == map[] && last == ZERO_TIME && calls == 0 && log == []
      ensures Proper(rate) ==> Valid()
    {
      this.rate, tats, calls, full, last, log := rate, map[], 0, map[], ZERO_TIME, [];
    }

    ghost predicate Valid()
      reads this
    {
      Proper(rate) && Remembers(tats, full, last) && Recorded(rate, log, full, last)
    }

    /** Decides like a limiter that never sweeps, provided the clock does not
        step back from one call to the next. */
    method Allow(key: string, now: int) returns (d: Decision)
      requires Valid() && now > ZERO_TIME && now >= last
      modifies this
      ensures d.limit == if rate.burst > 0 then rate.burst else rate.limit
      ensures Valid() && last == now
      ensures d == Gcra(rate, now, Lookup(old(full), key)).0
      ensures full == old(full)[key := Gcra(rate, now, Lookup(old(full), key)).1]
      ensures log == old(log) + [Request(key, now, d.allowed)]
    {
      ForgettingUnnoticed(rate, now, Lookup(full, key));
      var step := Gcra(rate, now, Lookup(tats, key));
      d := step.0;
      tats := tats[key := step.1];
      calls := calls + 1;
      RecordedNext(rate, log, full, full[key := step.1], last, key, now);
      full, log := full[key := step.1], log + [Request(key, now, d.allowed)];
      last := now;
      if calls % 1024 == 0 {
        Sweep(now);
      }
    }

    method Sweep(now: int)
      requires Remembers(tats, full, now)
      modifies this`tats
      ensures Remembers(tats, full, now)
      ensures forall k :: k in tats <==> k in old(tats) && old(tats)[k] >= now
    {
      var rest := tats.Keys;
      while rest != {}
        invariant rest <= tats.Keys && Remembers(tats, full, now)
        invariant forall k :: k in tats <==> k in old(tats) && (k in rest || old(tats)[k] >= now)
        invariant forall k :: k in tats ==> tats[k] == old(tats)[k]
        decreases rest
      {
        var k :| k in rest;
        rest := rest - {k};
        if tats[k] < now {
          tats := tats - {k};
        }
      }
    }
  }

  // -------------------------------------------------- the Redis limiter

  /** A value under a Redis key and the time from which it may be gone. */
  datatype Stored = Stored(tat: int, deadline: int)

  datatype Reply = Reply(allowed: bool, first: int, second: int)

  /** math.ceil of a non-negative number of microseconds, in milliseconds. */
  function CeilMillis(us: nat): nat { (us + 999) / 1000 }

  /** The script: like Gcra, but it stores only on success. */
  function Script(interval: nat, burst: nat, now: int, stored: Option<Stored>): (Reply, Option<Stored>) {
    var got := if stored.Some? then stored.value.tat else now;
    var tat := if got < now then now else got;
    var newTat := tat + interval;
    var allowAt := newTat - burst;
    if now < allowAt then (Reply(false, allowAt - now, tat - now), stored)
    else (Reply(true, now - allowAt, newTat - now), Some(Stored(newTat, now + 1000 * CeilMillis(newTat - now))))
  }

  function FromReply(r: Rate, reply: Reply): Decision
    requires Proper(r)
  {
    if reply.allowed then Decision(true, Capacity(r), Min(reply.first / Interval(r), Capacity(r) - 1), reply.second, 0)
    else Decision(false, Capacity(r), 0, reply.second, reply.first)
  }

  /** The script and the Go function are the same algorithm. */
  lemma ScriptIsGcra(r: Rate, now: int, stored: Option<Stored>)
    requires Proper(r) && now > ZERO_TIME
    ensures var (reply, after) := Script(Interval(r), Full(r), now, stored);
      var (d, tat) := Gcra(r, now, if stored.Some? then stored.value.tat else ZERO_TIME);
      && FromReply(r, reply) == d
      && (d.allowed ==> after.Some? && after.value.tat == tat && tat <= after.value.deadline < tat + 1000)
      && (!d.allowed ==> after == stored)
  {
    OneToken(r);
  }

  class Shared {
    const rate: Rate
    var keys: map<string, Stored>
    ghost var full: map<string, int>
    ghost var last: int
    ghost var log: seq<Request>

    constructor (rate: Rate)
      ensures this.rate == rate && keys == map[] && full == map[] && last == ZERO_TIME && log == []
      ensures Proper(rate) ==> Valid()
    {
      this.rate, keys, full, last, log := rate, map[], map[], ZERO_TIME, [];
    }

    ghost function Tats(): map<string, int>
      reads this
    {
      map k | k in keys :: keys[k].tat
    }

    ghost predicate Valid()
      reads this
    {
      && Proper(rate) && Remembers(Tats(), full, last) && Recorded(rate, log, full, last)
      && forall k :: k in keys ==> keys[k].deadline >= keys[k].tat
    }

    /** The server drops a key some time after its deadline. */
    method Expire(key: string, now: int)
      requires Valid() && now >= last && key in keys && keys[key].deadline <= now
      modifies this
      ensures Valid() && full == old(full) && last == now && keys == old(keys) - {key} && log == old(log)
    {
      Later(rate, log, full, last, now);
      keys := keys - {key};
      last := now;
    }

    /** Decides like a limiter whose keys never expire: rounding the lifetime up
        to milliseconds keeps every time that still matters. */
    method Allow(key: string, now: int) returns (d: Decision)
      requires Valid() && now > ZERO_TIME && now >= last
      modifies this
      ensures d.limit == if rate.burst > 0 then rate.burst else rate.limit
      ensures Valid() && last == now
      ensures d == Gcra(rate, now, Lookup(old(full), key)).0
      ensures full == if d.allowed then old(full)[key := Gcra(rate, now, Lookup(old(full), key)).1] else old(full)
      ensures log == old(log) + [Request(key, now, d.allowed)]
    {
      var stored := if key in keys then Some(keys[key]) else None;
      ForgettingUnnoticed(rate, now, Lookup(full, key));
      ScriptIsGcra(rate, now, stored);
      var (reply, after) := Script(Interval(rate), Full(rate), now, stored);
      d := FromReply(rate, reply);
      if !reply.allowed { RetryAfterExact(rate, now, Lookup(full, key), 0); }
      RecordedNext(rate, log, full, if reply.allowed then full[key := after.value.tat] else full, last, key, now);
      log := log + [Request(key, now, d.allowed)];
      if reply.allowed {
        keys := keys[key := after.value];
        full := full[key := after.value.tat];
      }
      last := now;
    }
  }
}
