/** The cache as a plain list of entries, most recently used first. */
module Recency {
  import opened Common

  /** expires is None for entries that never expire. */
  datatype Item = Item(key: string, value: string, expires: Option<int>)

  type List = seq<Item>

  predicate Expired(x: Item, now: int) { x.expires.Some? && now >= x.expires.value }

  ghost predicate Unique(l: List) { forall i, j :: 0 <= i < j < |l| ==> l[i].key != l[j].key }

  ghost function Keys(l: List): set<string> { set x | x in l :: x.key }

  function Filter(l: List, f: Item -> bool): List {
    if l == [] then [] else (if f(l[0]) then [l[0]] else []) + Filter(l[1..], f)
  }

  function NotKey(k: string): Item -> bool { (x: Item) => x.key != k }

  function IsLive(now: int): Item -> bool { (x: Item) => !Expired(x, now) }

  function Without(l: List, k: string): List { Filter(l, NotKey(k)) }

  function Live(l: List, now: int): List { Filter(l, IsLive(now)) }

  function Trim(l: List, max: nat): List { if |l| > max then l[..max] else l }

  /** Writing x: it becomes the most recent entry, and when it is new to a full
      cache the least recent entry goes. */
  ghost function Put(l: List, max: nat, x: Item): List {
    if x.key in Keys(l) then [x] + Without(l, x.key) else Trim([x] + l, max)
  }

  // ---------------------------------------------------------- filter facts

  lemma {:induction false} FilterIn(l: List, f: Item -> bool)
    ensures forall x :: x in Filter(l, f) <==> x in l && f(x)
    ensures |Filter(l, f)| <= |l|
  {
    if l != [] { FilterIn(l[1..], f); }
  }

  lemma {:induction false} FilterUnique(l: List, f: Item -> bool)
    requires Unique(l)
    ensures Unique(Filter(l, f))
  {
    if l != [] {
      FilterUnique(l[1..], f);
      FilterIn(l[1..], f);
      var rest := Filter(l[1..], f);
      forall j | 0 <= j < |rest| ensures l[0].key != rest[j].key {
        assert rest[j] in l[1..];
      }
    }
  }

  lemma {:induction false} FilterAll(l: List, f: Item -> bool)
    requires forall x :: x in l ==> f(x)
    ensures Filter(l, f) == l
  {
    if l != [] { FilterAll(l[1..], f); }
  }

  lemma {:induction false} FilterSame(l: List, f: Item -> bool, g: Item -> bool)
    requires forall x :: x in l ==> f(x) == g(x)
    ensures Filter(l, f) == Filter(l, g)
  {
    if l != [] { FilterSame(l[1..], f, g); }
  }

  lemma {:induction false} FilterTwice(l: List, f: Item -> bool, g: Item -> bool, h: Item -> bool)
    requires forall x :: x in l ==> (h(x) <==> f(x) && g(x))
    ensures Filter(Filter(l, f), g) == Filter(l, h)
  {
    if l != [] {
      FilterTwice(l[1..], f, g, h);
      var rest := Filter(l[1..], f);
      if f(l[0]) {
        assert Filter(l, f) == [l[0]] + rest && ([l[0]] + rest)[1..] == rest;
      } else {
        assert Filter(l, f) == [] + rest == rest;
      }
    }
  }

  lemma {:induction false} FilterAppend(a: List, b: List, f: Item -> bool)
    ensures Filter(a + b, f) == Filter(a, f) + Filter(b, f)
  {
    if a == [] {
      assert a + b == b;
    } else {
      assert (a + b)[0] == a[0] && (a + b)[1..] == a[1..] + b;
      FilterAppend(a[1..], b, f);
      var head := if f(a[0]) then [a[0]] else [];
      assert head + (Filter(a[1..], f) + Filter(b, f)) == (head + Filter(a[1..], f)) + Filter(b, f);
    }
  }

  lemma OtherKeys(l: List, i: nat)
    requires Unique(l) && i < |l|
    ensures forall x :: x in l[..i] || x in l[i+1..] ==> x.key != l[i].key
  {
    forall x | x in l[..i] || x in l[i+1..] ensures x.key != l[i].key {
      var j :| 0 <= j < |l| && j != i && l[j] == x;
    }
  }

  lemma DropMiddle(a: List, x: Item, b: List)
    requires (forall y :: y in a ==> y.key != x.key) && (forall y :: y in b ==> y.key != x.key)
    ensures Without(a + ([x] + b), x.key) == a + b
  {
    var f := NotKey(x.key);
    FilterAll(a, f);
    FilterAll(b, f);
    FilterAppend(a, [x] + b, f);
    assert ([x] + b)[1..] == b;
    assert [] + b == b;
  }

  /** Taking one entry out of a list without duplicate keys. */
  lemma DropAt(l: List, i: nat)
    requires Unique(l) && i < |l|
    ensures l[..i] + l[i+1..] == Without(l, l[i].key)
  {
    OtherKeys(l, i);
    DropMiddle(l[..i], l[i], l[i+1..]);
    assert l == l[..i] + ([l[i]] + l[i+1..]);
  }

  lemma WithoutKeys(l: List, k: string)
    ensures Keys(Without(l, k)) == Keys(l) - {k}
    ensures k !in Keys(l) ==> Without(l, k) == l
  {
    FilterIn(l, NotKey(k));
    if k !in Keys(l) { FilterAll(l, NotKey(k)); }
  }

  // --------------------------------------------------- what is left alive

  lemma {:induction false} LiveLength(l: List, now: int)
    ensures |Live(l, now)| <= |l|
    ensures |Live(l, now)| == |l| <==> forall x :: x in l ==> !Expired(x, now)
  {
    if l != [] { LiveLength(l[1..], now); }
  }

  /** What is alive later was alive before. */
  lemma LiveLater(l: List, now: int, later: int)
    requires now <= later
    ensures Live(Live(l, now), later) == Live(l, later)
  {
    FilterTwice(l, IsLive(now), IsLive(later), IsLive(later));
  }

  /** Sweeping and filtering can change places. */
  lemma FilterSwap(l: List, f: Item -> bool, now: int)
    ensures Live(Filter(l, f), now) == Filter(Live(l, now), f)
  {
    var both := (x: Item) => f(x) && !Expired(x, now);
    FilterTwice(l, f, IsLive(now), both);
    FilterTwice(l, IsLive(now), f, both);
  }

  lemma LiveWithout(l: List, k: string, now: int)
    ensures Live(Without(l, k), now) == Without(Live(l, now), k)
  {
    FilterSwap(l, NotKey(k), now);
  }

  lemma LivePush(l: List, x: Item, now: int)
    ensures Live([x] + l, now) == (if Expired(x, now) then [] else [x]) + Live(l, now)
  {
    assert ([x] + l)[1..] == l;
  }

  /** The keys that survive a sweep. */
  lemma LiveKeys(l: List, now: int)
    ensures Keys(Live(l, now)) <= Keys(l)
  {
    FilterIn(l, IsLive(now));
  }

  // ------------------------------------------------------------ looking up

  /** What a reader of key k is given. */
  function Look(l: List, k: string, now: int): Option<string> {
    if l == [] then None
    else if l[0].key != k then Look(l[1..], k, now)
    else if Expired(l[0], now) then None
    else Some(l[0].value)
  }

  lemma {:induction false} LookAt(l: List, i: nat, now: int)
    requires Unique(l) && i < |l|
    ensures Look(l, l[i].key, now) == if Expired(l[i], now) then None else Some(l[i].value)
  {
    if i > 0 { LookAt(l[1..], i - 1, now); }
  }

  lemma {:induction false} LookMissing(l: List, k: string, now: int)
    requires k !in Keys(l)
    ensures Look(l, k, now) == None
  {
    if l != [] {
      assert l[0] in l;
      assert forall x :: x in l[1..] ==> x in l;
      LookMissing(l[1..], k, now);
    }
  }

  /** No reader, now or later, sees that expired entries were dropped. */
  lemma LookSwept(l: List, k: string, now: int, later: int)
    requires Unique(l) && now <= later
    ensures Look(Live(l, now), k, later) == Look(l, k, later)
  {
    var live := Live(l, now);
    FilterIn(l, IsLive(now));
    FilterUnique(l, IsLive(now));
    if k in Keys(l) {
      var i :| 0 <= i < |l| && l[i].key == k;
      LookAt(l, i, later);
      if l[i] in live {
        var j :| 0 <= j < |live| && live[j] == l[i];
        LookAt(live, j, later);
      } else {
        assert k !in Keys(live);
        LookMissing(live, k, later);
      }
    } else {
      LiveKeys(l, now);
      LookMissing(l, k, later);
      LookMissing(live, k, later);
    }
  }

  // ------------------------------------------------ sweeping, then writing

  /** Writing key k costs a live entry its place: the key is new, the cache full
      and its least recent entry alive. */
  ghost predicate Evicts(l: List, max: nat, k: string, now: int) {
    k !in Keys(l) && |l| == max && l != [] && !Expired(l[|l|-1], now)
  }

  lemma LiveLast(l: List, now: int)
    requires l != []
    ensures Live(l, now) == Live(l[..|l|-1], now) + (if Expired(l[|l|-1], now) then [] else [l[|l|-1]])
  {
    var n := |l| - 1;
    assert l == l[..n] + [l[n]];
    FilterAppend(l[..n], [l[n]], IsLive(now));
  }

  /** What a write leaves alive. */
  lemma PutLive(l: List, max: nat, x: Item, now: int)
    requires |l| <= max && max > 0 && !Expired(x, now)
    ensures !Evicts(l, max, x.key, now) ==> Live(Put(l, max, x), now) == [x] + Without(Live(l, now), x.key)
    ensures Evicts(l, max, x.key, now) ==> Live(l, now) != []
    ensures Evicts(l, max, x.key, now) ==> Live(Put(l, max, x), now) == [x] + Live(l, now)[..|Live(l, now)|-1]
  {
    if x.key in Keys(l) {
      LivePush(Without(l, x.key), x, now);
      LiveWithout(l, x.key, now);
    } else {
      LiveKeys(l, now);
      WithoutKeys(Live(l, now), x.key);
      if |l| < max {
        LivePush(l, x, now);
      } else {
        assert ([x] + l)[..max] == [x] + l[..max-1];
        LivePush(l[..max-1], x, now);
        LiveLast(l, now);
      }
    }
  }

  /** Two lists with the same live entries still have the same ones after the
      same write if and only if it evicts a live entry from both or neither. */
  lemma SamePut(a: List, b: List, max: nat, x: Item, now: int)
    requires |a| <= max && |b| <= max && max > 0 && !Expired(x, now)
    requires Live(a, now) == Live(b, now)
    ensures Live(Put(a, max, x), now) == Live(Put(b, max, x), now)
      <==> (Evicts(a, max, x.key, now) <==> Evicts(b, max, x.key, now))
  {
    PutLive(a, max, x, now);
    PutLive(b, max, x, now);
    LiveKeys(a, now);
    LiveKeys(b, now);
    WithoutKeys(Live(a, now), x.key);
  }

  /** When sweeping before a write makes no difference: unless the write evicts
      a live entry from a full cache that holds an expired one. */
  ghost predicate SweepIndifferent(l: List, max: nat, k: string, now: int)
    requires l != []
  {
    k in Keys(l) || |l| < max || (forall x :: x in l ==> !Expired(x, now)) || Expired(l[|l|-1], now)
  }

  lemma SweepThenPut(l: List, max: nat, x: Item, now: int)
    requires l != [] && |l| <= max && !Expired(x, now)
    ensures Live(Put(Live(l, now), max, x), now) == Live(Put(l, max, x), now) <==> SweepIndifferent(l, max, x.key, now)
  {
    LiveLater(l, now, now);
    LiveLength(l, now);
    SamePut(Live(l, now), l, max, x, now);
    if |Live(l, now)| == |l| { FilterAll(l, IsLive(now)); }
  }

  // ------------------------------------------------------------ whole runs

  /** What may be done to two caches side by side. Calls are made to both; a
      sweep happens in the first or in the second. */
  datatype Call =
    | Get(key: string, now: int)
    | Set(key: string, value: string, ttl: int, now: int)
    | Add(key: string, value: string, ttl: int, now: int)
    | Delete(keys: seq<string>, now: int)
    | DeletePrefix(prefix: string, now: int)
    | Sweep(first: bool, now: int)

  function Entered(key: string, value: string, ttl: int, now: int): Item {
    Item(key, value, if ttl > 0 then Some(now + ttl) else None)
  }

  ghost function Listed(keys: seq<string>): set<string> { set k | k in keys }

  function NoneOf(gone: set<string>): Item -> bool { (x: Item) => x.key !in gone }

  function NoPrefix(prefix: string): Item -> bool { (x: Item) => !(prefix <= x.key) }

  /** The list of one cache after a call: a hit moves its entry to the front, a
      miss drops an expired one, a write puts its entry there, and the others
      only take entries away. */
  ghost function After(l: List, max: nat, c: Call, first: bool): List {
    match c
    case Get(k, now) => if Look(l, k, now) == None then Without(l, k) else Filter(l, IsKey(k)) + Without(l, k)
    case Set(k, v, ttl, now) => Put(l, max, Entered(k, v, ttl, now))
    case Add(k, v, ttl, now) => if Look(l, k, now) == None then Put(l, max, Entered(k, v, ttl, now)) else l
    case Delete(keys, _) => Filter(l, NoneOf(Listed(keys)))
    case DeletePrefix(prefix, _) => Filter(l, NoPrefix(prefix))
    case Sweep(here, now) => if here == first then Live(l, now) else l
  }

  /** What the caller is told, if anything: the value found. */
  function Answer(l: List, c: Call): Option<string> {
    if c.Get? || c.Add? then Look(l, c.key, c.now) else None
  }

  function IsKey(k: string): Item -> bool { (x: Item) => x.key == k }

  /** The list of one cache after the first n calls of a run. */
  ghost function Run(l: List, max: nat, calls: seq<Call>, n: nat, first: bool): List
    requires n <= |calls|
  {
    if n == 0 then l else After(Run(l, max, calls, n - 1, first), max, calls[n-1], first)
  }

  /** The time of the last of the first n calls. */
  function Clock(calls: seq<Call>, n: nat, last: int): int
    requires n <= |calls|
  {
    if n == 0 then last else calls[n-1].now
  }

  ghost predicate Timely(calls: seq<Call>, last: int) {
    forall n :: 0 <= n < |calls| ==> Clock(calls, n, last) <= calls[n].now
  }

  /** The call costs a live entry its place. */
  ghost predicate Costs(l: List, max: nat, c: Call) {
    match c
    case Set(k, _, _, now) => Evicts(l, max, k, now)
    case Add(k, _, _, now) => Look(l, k, now) == None && Evicts(l, max, k, now)
    case _ => false
  }

  lemma LiveOnly(l: List, k: string, now: int)
    requires Unique(l)
    ensures Look(l, k, now) == None ==> Without(Live(l, now), k) == Live(l, now)
    ensures Look(l, k, now) != None ==> Live(Filter(l, IsKey(k)), now) == Filter(Live(l, now), IsKey(k))
  {
    FilterSwap(l, IsKey(k), now);
    FilterIn(l, IsLive(now));
    if Look(l, k, now) == None {
      forall x | x in Live(l, now) ensures x.key != k {
        var i :| 0 <= i < |l| && l[i] == x;
        LookAt(l, i, now);
      }
      FilterAll(Live(l, now), NotKey(k));
    }
  }

  /** Looking a key up changes what is alive only by its order, and readers see
      nothing but what is alive. */
  lemma SameGet(a: List, b: List, max: nat, k: string, now: int)
    requires Unique(a) && Unique(b) && Live(a, now) == Live(b, now)
    ensures Look(a, k, now) == Look(b, k, now)
    ensures Live(After(a, max, Get(k, now), true), now) == Live(After(b, max, Get(k, now), false), now)
  {
    LookSwept(a, k, now, now);
    LookSwept(b, k, now, now);
    LiveOnly(a, k, now);
    LiveOnly(b, k, now);
    LiveWithout(a, k, now);
    LiveWithout(b, k, now);
    FilterAppend(Filter(a, IsKey(k)), Without(a, k), IsLive(now));
    FilterAppend(Filter(b, IsKey(k)), Without(b, k), IsLive(now));
  }

  /** Taking the same entries away from both. */
  lemma SameFilter(a: List, b: List, f: Item -> bool, now: int)
    requires Live(a, now) == Live(b, now)
    ensures Live(Filter(a, f), now) == Live(Filter(b, f), now)
  {
    FilterSwap(a, f, now);
    FilterSwap(b, f, now);
  }

  /** One call on two lists with the same live entries. */
  lemma SameCall(a: List, b: List, max: nat, c: Call)
    requires Unique(a) && Unique(b) && |a| <= max && |b| <= max && max > 0
    requires Live(a, c.now) == Live(b, c.now)
    ensures Answer(a, c) == Answer(b, c)
    ensures Live(After(a, max, c, true), c.now) == Live(After(b, max, c, false), c.now)
      <==> (Costs(a, max, c) <==> Costs(b, max, c))
  {
    match c
    case Get(k, now) => SameGet(a, b, max, k, now);
    case Set(k, v, ttl, now) => SamePut(a, b, max, Entered(k, v, ttl, now), now);
    case Add(k, v, ttl, now) =>
      SameGet(a, b, max, k, now);
      SamePut(a, b, max, Entered(k, v, ttl, now), now);
    case Delete(keys, now) => SameFilter(a, b, NoneOf(Listed(keys)), now);
    case DeletePrefix(prefix, now) => SameFilter(a, b, NoPrefix(prefix), now);
    case Sweep(_, now) =>
      LiveLater(a, now, now);
      LiveLater(b, now, now);
  }

  lemma {:induction false} OneOfKey(l: List, k: string)
    requires Unique(l)
    ensures |Filter(l, IsKey(k))| + |Without(l, k)| == |l|
    ensures |Filter(l, IsKey(k))| <= 1 && (|Filter(l, IsKey(k))| == 0 <==> k !in Keys(l))
  {
    if l != [] {
      OneOfKey(l[1..], k);
      assert Keys(l) == {l[0].key} + Keys(l[1..]);
    }
  }

  lemma OnlyOne(l: List, x: Item)
    requires Unique(l) && x in l
    ensures Filter(l, IsKey(x.key)) == [x]
  {
    OneOfKey(l, x.key);
    FilterIn(l, IsKey(x.key));
    assert x in Filter(l, IsKey(x.key));
  }

  lemma FrontUnique(front: List, l: List, k: string)
    requires Unique(l) && |front| <= 1 && forall x :: x in front ==> x.key == k
    ensures Unique(front + Without(l, k))
  {
    FilterUnique(l, NotKey(k));
    FilterIn(l, NotKey(k));
    var rest := Without(l, k);
    forall j | 0 <= j < |rest| ensures rest[j].key != k {
      assert rest[j] in rest;
    }
  }

  lemma PutSound(l: List, max: nat, x: Item)
    requires Unique(l) && |l| <= max
    ensures Unique(Put(l, max, x)) && |Put(l, max, x)| <= max
  {
    FrontUnique([x], l, x.key);
    WithoutKeys(l, x.key);
    OneOfKey(l, x.key);
  }

  lemma FilterSound(l: List, max: nat, f: Item -> bool)
    requires Unique(l) && |l| <= max
    ensures Unique(Filter(l, f)) && |Filter(l, f)| <= max
  {
    FilterUnique(l, f);
    FilterIn(l, f);
  }

  /** No call makes a list too long or doubles a key. */
  lemma AfterSound(l: List, max: nat, c: Call, first: bool)
    requires Unique(l) && |l| <= max
    ensures Unique(After(l, max, c, first)) && |After(l, max, c, first)| <= max
  {
    match c
    case Get(k, _) =>
      FilterIn(l, IsKey(k));
      OneOfKey(l, k);
      FilterSound(l, max, NotKey(k));
      FrontUnique(Filter(l, IsKey(k)), l, k);
    case Set(k, v, ttl, now) => PutSound(l, max, Entered(k, v, ttl, now));
    case Add(k, v, ttl, now) => PutSound(l, max, Entered(k, v, ttl, now));
    case Delete(keys, _) => FilterSound(l, max, NoneOf(Listed(keys)));
    case DeletePrefix(prefix, _) => FilterSound(l, max, NoPrefix(prefix));
    case Sweep(_, now) => FilterSound(l, max, IsLive(now));
  }

  lemma {:induction false} RunSound(l: List, max: nat, calls: seq<Call>, n: nat, first: bool)
    requires Unique(l) && |l| <= max && n <= |calls|
    ensures Unique(Run(l, max, calls, n, first)) && |Run(l, max, calls, n, first)| <= max
  {
    if n > 0 {
      RunSound(l, max, calls, n - 1, first);
      AfterSound(Run(l, max, calls, n - 1, first), max, calls[n-1], first);
    }
  }

  /** After the first n calls the two caches have the same live entries. */
  ghost predicate Alike(a: List, b: List, max: nat, calls: seq<Call>, n: nat, now: int)
    requires n <= |calls|
  {
    Live(Run(a, max, calls, n, true), now) == Live(Run(b, max, calls, n, false), now)
  }

  /** The call after the first n costs both or neither a live entry. */
  ghost predicate Even(a: List, b: List, max: nat, calls: seq<Call>, n: nat)
    requires n < |calls|
  {
    Costs(Run(a, max, calls, n, true), max, calls[n]) <==> Costs(Run(b, max, calls, n, false), max, calls[n])
  }

  /** The call after the first n is answered the same by both. */
  ghost predicate Agreed(a: List, b: List, max: nat, calls: seq<Call>, n: nat)
    requires n < |calls|
  {
    Answer(Run(a, max, calls, n, true), calls[n]) == Answer(Run(b, max, calls, n, false), calls[n])
  }

  /** Alike so far: the next call is answered alike, and they stay alike exactly
      if it costs both or neither a live entry. */
  lemma AlikeNext(a: List, b: List, max: nat, calls: seq<Call>, n: nat, before: int)
    requires Unique(a) && Unique(b) && |a| <= max && |b| <= max && max > 0
    requires n < |calls| && before <= calls[n].now && Alike(a, b, max, calls, n, before)
    ensures Agreed(a, b, max, calls, n)
    ensures Alike(a, b, max, calls, n + 1, calls[n].now) <==> Even(a, b, max, calls, n)
  {
    RunSound(a, max, calls, n, true);
    RunSound(b, max, calls, n, false);
    LiveLater(Run(a, max, calls, n, true), before, calls[n].now);
    LiveLater(Run(b, max, calls, n, false), before, calls[n].now);
    SameCall(Run(a, max, calls, n, true), Run(b, max, calls, n, false), max, calls[n]);
  }

  lemma {:induction false} StayAlike(a: List, b: List, max: nat, calls: seq<Call>, n: nat, last: int)
    requires Unique(a) && Unique(b) && |a| <= max && |b| <= max && max > 0
    requires Live(a, last) == Live(b, last) && Timely(calls, last) && n <= |calls|
    requires forall i :: 0 <= i < n ==> Even(a, b, max, calls, i)
    ensures Alike(a, b, max, calls, n, Clock(calls, n, last))
  {
    if n > 0 {
      StayAlike(a, b, max, calls, n - 1, last);
      AlikeNext(a, b, max, calls, n - 1, Clock(calls, n - 1, last));
    }
  }

  /** Over any run of calls, and whenever either is swept, two caches that start
      with the same live entries keep the same ones if and only if every call
      costs both or neither of them a live entry. */
  lemma SweepUnnoticed(a: List, b: List, max: nat, calls: seq<Call>, last: int)
    requires Unique(a) && Unique(b) && |a| <= max && |b| <= max && max > 0
    requires Live(a, last) == Live(b, last) && Timely(calls, last)
    ensures (forall n :: 0 <= n <= |calls| ==> Alike(a, b, max, calls, n, Clock(calls, n, last)))
      <==> (forall n :: 0 <= n < |calls| ==> Even(a, b, max, calls, n))
  {
    if forall n :: 0 <= n < |calls| ==> Even(a, b, max, calls, n) {
      forall n | 0 <= n <= |calls| ensures Alike(a, b, max, calls, n, Clock(calls, n, last)) {
        StayAlike(a, b, max, calls, n, last);
      }
    }
    if forall n :: 0 <= n <= |calls| ==> Alike(a, b, max, calls, n, Clock(calls, n, last)) {
      forall n | 0 <= n < |calls| ensures Even(a, b, max, calls, n) {
        assert Alike(a, b, max, calls, n + 1, Clock(calls, n + 1, last));
        AlikeNext(a, b, max, calls, n, Clock(calls, n, last));
      }
    }
  }

  /** And as long as that is so every call is answered the same. */
  lemma SameAnswers(a: List, b: List, max: nat, calls: seq<Call>, n: nat, last: int)
    requires Unique(a) && Unique(b) && |a| <= max && |b| <= max && max > 0
    requires Live(a, last) == Live(b, last) && Timely(calls, last) && n < |calls|
    requires forall i :: 0 <= i < n ==> Even(a, b, max, calls, i)
    ensures Agreed(a, b, max, calls, n)
  {
    StayAlike(a, b, max, calls, n, last);
    AlikeNext(a, b, max, calls, n, Clock(calls, n, last));
  }

  /** A new key in a list of two that is full, and in one with room. */
  lemma PutThird(a: Item, b: Item, c: Item)
    requires c.key != a.key && c.key != b.key
    ensures Put([a, b], 2, c) == [c, a] && Put([b], 2, c) == [c, b]
  {
    assert [c] + [a, b] == [c, a, b] && [c] + [b] == [c, b];
  }

  lemma RunTwo(l: List, max: nat, calls: seq<Call>, first: bool)
    requires |calls| > 1
    ensures Run(l, max, calls, 2, first) == After(After(l, max, calls[0], first), max, calls[1], first)
  {
    assert Run(l, max, calls, 0, first) == l;
    assert Run(l, max, calls, 1, first) == After(l, max, calls[0], first);
  }

  /** A sweep that is noticed: with it a later reader of "b" finds its value,
      without it the expired "a" has cost "b" its place. */
  lemma SweepNoticed()
    ensures var l := [Item("a", "1", Some(1)), Item("b", "2", None)];
      var calls := [Sweep(true, 1), Set("c", "3", 0, 1), Get("b", 1)];
      && Answer(Run(l, 2, calls, 2, true), calls[2]) == Some("2")
      && Answer(Run(l, 2, calls, 2, false), calls[2]) == None
  {
    var a, b, c := Item("a", "1", Some(1)), Item("b", "2", None), Item("c", "3", None);
    var calls := [Sweep(true, 1), Set("c", "3", 0, 1), Get("b", 1)];
    RunTwo([a, b], 2, calls, true);
    RunTwo([a, b], 2, calls, false);
    PutThird(a, b, c);
    FilterAll([b], IsLive(1));
    assert Live([a, b], 1) == [] + Live([b], 1) == [b] by { assert [a, b][1..] == [b]; }
    LookMissing([c, a], "b", 1);
    LookAt([c, b], 1, 1);
  }
}
