/** The in-memory cache: a recency list and a key index kept in step, refined to
    the plain list of Recency, with a ghost record of all writes and uses that
    says which keys may be missing. */
module Cache {
  import opened Common
  import opened Recency

  class Entry {
    const key: string
    var value: string
    var expires: Option<int>

    constructor (k: string, v: string, e: Option<int>)
      ensures key == k && value == v && expires == e
    {
      key, value, expires := k, v, e;
    }

    ghost function Content(): Item
      reads this
    {
      Item(key, value, expires)
    }
  }

  ghost function Contents(ll: seq<Entry>): List
    reads ll
  {
    seq(|ll|, i requires 0 <= i < |ll| reads ll => ll[i].Content())
  }

  // ------------------------------------------------------ uses of keys

  /** The keys other than k used (written or hit) since k was last used. */
  ghost function Since(uses: seq<string>, k: string): set<string> {
    if uses == [] || uses[|uses|-1] == k then {}
    else Since(uses[..|uses|-1], k) + {uses[|uses|-1]}
  }

  lemma SinceAppend(uses: seq<string>, u: string, k: string)
    ensures Since(uses + [u], k) == if u == k then {} else Since(uses, k) + {u}
  {
    assert (uses + [u])[..|uses|] == uses;
  }

  /** Every entry is what was last written under its key. */
  ghost predicate Current(l: List, written: map<string, Item>) {
    forall i :: 0 <= i < |l| ==> l[i].key in written && written[l[i].key] == l[i]
  }

  /** The entries in front of one were all used after it was. */
  ghost predicate Ordered(l: List, uses: seq<string>) {
    forall i, j :: 0 <= i < j < |l| ==> l[i].key in Since(uses, l[j].key)
  }

  /** A key may be missing: its entry has expired, or max other keys were used
      since it was last used. */
  ghost predicate MayBeGone(k: string, max: nat, written: map<string, Item>, uses: seq<string>, now: int)
    requires k in written
  {
    Expired(written[k], now) || |Since(uses, k)| >= max
  }

  /** Every key written and not deleted since is there unless it may be gone. */
  ghost predicate Complete(l: List, max: nat, written: map<string, Item>, uses: seq<string>, now: int) {
    forall k :: k in written ==> k in Keys(l) || MayBeGone(k, max, written, uses, now)
  }

  ghost predicate Accounted(l: List, max: nat, written: map<string, Item>, uses: seq<string>, now: int) {
    Current(l, written) && Ordered(l, uses) && Complete(l, max, written, uses, now)
  }

  lemma {:induction false} KeyCount(l: List)
    requires Unique(l)
    ensures |Keys(l)| == |l|
  {
    if l != [] {
      KeyCount(l[1..]);
      assert Keys(l) == {l[0].key} + Keys(l[1..]);
      assert l[0].key !in Keys(l[1..]);
    }
  }

  /** The entry that falls off a full list has seen max other keys used. */
  lemma Evictable(l: List, uses: seq<string>)
    requires Unique(l) && l != []
    requires Ordered(l, uses)
    ensures |Since(uses, l[|l|-1].key)| >= |l| - 1
  {
    var front := l[..|l|-1];
    assert Keys(front) <= Since(uses, l[|l|-1].key);
    SubsetSize(Keys(front), Since(uses, l[|l|-1].key));
    KeyCount(front);
  }

  lemma {:induction false} FilterOrder(l: List, f: Item -> bool, uses: seq<string>)
    requires Ordered(l, uses)
    ensures Ordered(Filter(l, f), uses)
  {
    if l != [] {
      FilterOrder(l[1..], f, uses);
      FilterIn(l[1..], f);
      var rest := Filter(l[1..], f);
      forall j | 0 <= j < |rest| ensures l[0].key in Since(uses, rest[j].key) {
        assert rest[j] in l[1..];
        var k :| 0 <= k < |l[1..]| && l[1..][k] == rest[j];
        assert l[k+1] == rest[j];
      }
    }
  }

  /** A key used moves to the front of the order of use. */
  lemma OrderedFront(l: List, uses: seq<string>, x: Item)
    requires Ordered(l, uses)
    ensures Ordered([x] + Without(l, x.key), uses + [x.key])
  {
    var rest := Without(l, x.key);
    var l' := [x] + rest;
    FilterOrder(l, NotKey(x.key), uses);
    FilterIn(l, NotKey(x.key));
    forall i, j | 0 <= i < j < |l'| ensures l'[i].key in Since(uses + [x.key], l'[j].key) {
      SinceAppend(uses, x.key, l'[j].key);
      assert l'[j] == rest[j-1] && rest[j-1] in rest;
    }
  }

  lemma CurrentFront(l: List, written: map<string, Item>, x: Item)
    requires Unique(l) && Current(l, written)
    ensures Current([x] + Without(l, x.key), written[x.key := x])
    ensures Unique([x] + Without(l, x.key))
  {
    FilterIn(l, NotKey(x.key));
    FilterUnique(l, NotKey(x.key));
    var rest := Without(l, x.key);
    forall i | 0 <= i < |rest| ensures rest[i].key != x.key && rest[i].key in written
      && written[rest[i].key] == rest[i] {
      assert rest[i] in rest;
    }
  }

  lemma CompleteFront(l: List, max: nat, written: map<string, Item>, uses: seq<string>, now: int, x: Item)
    requires Complete(l, max, written, uses, now)
    ensures Complete([x] + Without(l, x.key), max, written[x.key := x], uses + [x.key], now)
  {
    WithoutKeys(l, x.key);
    KeysPush(x, Without(l, x.key));
    forall k | k in written && k != x.key && k !in Keys(l)
      ensures MayBeGone(k, max, written[x.key := x], uses + [x.key], now)
    {
      SinceAppend(uses, x.key, k);
      SubsetSize(Since(uses, k), Since(uses + [x.key], k));
      assert MayBeGone(k, max, written, uses, now);
    }
  }

  lemma KeysPush(x: Item, l: List)
    ensures Keys([x] + l) == {x.key} + Keys(l)
  {
    assert forall y :: y in [x] + l <==> y == x || y in l;
  }

  /** An entry has moved to, or appeared at, the front: x is what was last
      written under its key, and behind it is what was there without that key. */
  lemma AccountedFront(l: List, max: nat, written: map<string, Item>, uses: seq<string>, now: int, x: Item)
    requires Unique(l) && Accounted(l, max, written, uses, now)
    ensures Accounted([x] + Without(l, x.key), max, written[x.key := x], uses + [x.key], now)
    ensures Unique([x] + Without(l, x.key))
  {
    OrderedFront(l, uses, x);
    CurrentFront(l, written, x);
    CompleteFront(l, max, written, uses, now, x);
  }

  /** Dropping entries that have expired. */
  lemma AccountedDrop(l: List, max: nat, written: map<string, Item>, uses: seq<string>, now: int, f: Item -> bool)
    requires Unique(l) && Accounted(l, max, written, uses, now)
    requires forall x :: x in l && !f(x) ==> Expired(x, now)
    ensures Accounted(Filter(l, f), max, written, uses, now) && Unique(Filter(l, f))
  {
    FilterIn(l, f);
    FilterUnique(l, f);
    FilterOrder(l, f, uses);
    var m := Filter(l, f);
    forall i | 0 <= i < |m| ensures m[i].key in written && written[m[i].key] == m[i] {
      assert m[i] in l;
    }
    forall k | k in written && k in Keys(l) ensures k in Keys(m) || Expired(written[k], now) {
      var x :| x in l && x.key == k;
      if f(x) { assert x in m; }
    }
  }

  /** Time passing. */
  lemma AccountedLater(l: List, max: nat, written: map<string, Item>, uses: seq<string>, now: int, later: int)
    requires Accounted(l, max, written, uses, now) && now <= later
    ensures Accounted(l, max, written, uses, later)
  {
  }

  /** Eviction from a list grown one beyond max. */
  lemma AccountedTrim(l: List, max: nat, written: map<string, Item>, uses: seq<string>, now: int)
    requires Unique(l) && Accounted(l, max, written, uses, now) && |l| == max + 1
    ensures Accounted(l[..max], max, written, uses, now) && Unique(l[..max])
  {
    Evictable(l, uses);
    forall k | k in written && k in Keys(l) ensures k in Keys(l[..max]) || |Since(uses, k)| >= max {
      var x :| x in l && x.key == k;
      var i :| 0 <= i < |l| && l[i] == x;
      if i < max { assert l[..max][i] == x; }
    }
  }

  /** Writing an entry keeps the account. */
  lemma AccountedPut(l: List, max: nat, written: map<string, Item>, uses: seq<string>, now: int, x: Item)
    requires Unique(l) && Accounted(l, max, written, uses, now) && |l| <= max
    ensures Accounted(Put(l, max, x), max, written[x.key := x], uses + [x.key], now)
    ensures |Put(l, max, x)| <= max
  {
    AccountedFront(l, max, written, uses, now, x);
    WithoutKeys(l, x.key);
    if x.key in Keys(l) {
      ShorterWithout(l, x.key);
    } else if |l| == max {
      AccountedTrim([x] + l, max, written[x.key := x], uses + [x.key], now);
    }
  }

  lemma ShorterWithout(l: List, k: string)
    requires Unique(l) && k in Keys(l)
    ensures |Without(l, k)| == |l| - 1
  {
    var i :| 0 <= i < |l| && l[i].key == k;
    DropAt(l, i);
  }

  /** Deleting keys takes them out of the reckoning. */
  lemma AccountedDelete(l: List, max: nat, written: map<string, Item>, uses: seq<string>, now: int, gone: set<string>,
    f: Item -> bool)
    requires Unique(l) && Accounted(l, max, written, uses, now)
    requires forall x :: x in l ==> (f(x) <==> x.key !in gone)
    ensures Accounted(Filter(l, f), max, written - gone, uses, now) && Unique(Filter(l, f))
  {
    FilterIn(l, f);
    FilterUnique(l, f);
    FilterOrder(l, f, uses);
    var m := Filter(l, f);
    forall i | 0 <= i < |m| ensures m[i].key in written - gone && written[m[i].key] == m[i] {
      assert m[i] in l;
    }
    forall k | k in written - gone && k in Keys(l) ensures k in Keys(m) {
      var x :| x in l && x.key == k;
      assert x in m;
    }
  }

  // ----------------------------------------------------------- the store

  lemma ListedNext(keys: seq<string>, n: nat)
    requires n < |keys|
    ensures Listed(keys[..n+1]) == Listed(keys[..n]) + {keys[n]}
  {
    assert keys[..n+1] == keys[..n] + [keys[n]];
  }

  ghost function Prefixed(keys: set<string>, prefix: string): set<string> { set k | k in keys && prefix <= k }

  function Sparing(todo: set<string>, now: int): Item -> bool {
    (x: Item) => x.key in todo || !Expired(x, now)
  }

  function SparingPrefix(todo: set<string>, prefix: string): Item -> bool {
    (x: Item) => x.key in todo || !(prefix <= x.key)
  }

  lemma ContentsAppend(a: seq<Entry>, b: seq<Entry>)
    ensures Contents(a + b) == Contents(a) + Contents(b)
  {
  }

  /** The list and the index hold the same entries, each under its own key. */
  ghost predicate Bijection(ll: seq<Entry>, items: map<string, Entry>) {
    && (forall i, j :: 0 <= i < j < |ll| ==> ll[i].key != ll[j].key)
    && (forall e :: e in ll ==> e.key in items && items[e.key] == e)
    && (forall k :: k in items ==> items[k] in ll && items[k].key == k)
  }

  lemma ContentsUnique(ll: seq<Entry>, items: map<string, Entry>)
    requires Bijection(ll, items)
    ensures Unique(Contents(ll)) && Keys(Contents(ll)) == items.Keys
  {
    var l := Contents(ll);
    forall k | k in items.Keys ensures k in Keys(l) {
      var i :| 0 <= i < |ll| && ll[i] == items[k];
      assert l[i] in l;
    }
  }

  function Unlinked(ll: seq<Entry>, i: nat): seq<Entry>
    requires i < |ll|
  {
    ll[..i] + ll[i+1..]
  }

  lemma UnlinkedContents(ll: seq<Entry>, i: nat)
    requires i < |ll| && Unique(Contents(ll))
    ensures Contents(Unlinked(ll, i)) == Without(Contents(ll), ll[i].key)
  {
    var l := Contents(ll);
    DropAt(l, i);
    ContentsAppend(ll[..i], ll[i+1..]);
    assert Contents(ll[..i]) == l[..i] && Contents(ll[i+1..]) == l[i+1..];
  }

  lemma FrontContents(e: Entry, rest: seq<Entry>)
    ensures Contents([e] + rest) == [e.Content()] + Contents(rest)
    ensures forall x :: x in [e] + rest <==> x == e || x in rest
  {
    ContentsAppend([e], rest);
    assert Contents([e]) == [e.Content()];
  }

  lemma UnlinkedMembers(ll: seq<Entry>, i: nat)
    requires i < |ll|
    ensures forall e :: e in ll <==> e in Unlinked(ll, i) || e == ll[i]
  {
    assert ll == ll[..i] + [ll[i]] + ll[i+1..];
  }

  lemma UnlinkedBijection(ll: seq<Entry>, i: nat, items: map<string, Entry>)
    requires i < |ll| && Bijection(ll, items)
    ensures Bijection(Unlinked(ll, i), items - {ll[i].key})
    ensures Bijection([ll[i]] + Unlinked(ll, i), items)
    ensures forall e :: e in Unlinked(ll, i) ==> e.key != ll[i].key
  {
    var rest := Unlinked(ll, i);
    UnlinkedMembers(ll, i);
    assert forall j :: 0 <= j < |rest| ==> rest[j] == ll[if j < i then j else j + 1];
  }

  class Memory {
    const max: nat
    var ll: seq<Entry>
    var items: map<string, Entry>
    /** The last write under every key written and not deleted since. */
    ghost var written: map<string, Item>
    /** The keys written or found, in order. */
    ghost var uses: seq<string>
    /** The latest time anything was done at. */
    ghost var last: int

    ghost predicate Linked()
      reads this
    {
      Bijection(ll, items)
    }

    ghost function View(): List
      reads this, ll
    {
      Contents(ll)
    }

    ghost predicate Valid()
      reads this, ll
    {
      Linked() && |ll| <= max && Accounted(View(), max, written, uses, last)
    }

    constructor (maxEntries: int)
      ensures Valid() && View() == [] && written == map[] && uses == []
      ensures max == if maxEntries <= 0 then 10000 else maxEntries
    {
      max := if maxEntries <= 0 then 10000 else maxEntries;
      ll, items, written, uses, last := [], map[], map[], [], 0;
      new;
      assert View() == [];
    }

    method Remove(e: Entry)
      requires Linked() && e in ll
      modifies this`ll, this`items
      ensures Linked() && View() == Without(old(View()), e.key)
      ensures items == old(items) - {e.key} && |ll| == old(|ll|) - 1
      ensures forall x :: x in ll ==> x in old(ll)
    {
      var i :| 0 <= i < |ll| && ll[i] == e;
      Rest(i);
      ll := Unlinked(ll, i);
      items := items - {e.key};
    }

    /** The list without one of its entries. */
    lemma Rest(i: nat)
      requires Linked() && i < |ll|
      ensures var rest := Unlinked(ll, i);
        && Contents(rest) == Without(View(), ll[i].key) && Bijection(rest, items - {ll[i].key})
        && ll[i] !in rest && |rest| == |ll| - 1 && forall x :: x in rest ==> x in ll
    {
      ContentsUnique(ll, items);
      UnlinkedContents(ll, i);
      UnlinkedMembers(ll, i);
      UnlinkedBijection(ll, i, items);
    }

    method MoveToFront(e: Entry)
      requires Linked() && e in ll
      modifies this`ll
      ensures Linked() && View() == [e.Content()] + Without(old(View()), e.key)
      ensures |ll| == old(|ll|) && forall x :: x in ll <==> x in old(ll)
    {
      var i :| 0 <= i < |ll| && ll[i] == e;
      ContentsUnique(ll, items);
      UnlinkedContents(ll, i);
      UnlinkedMembers(ll, i);
      UnlinkedBijection(ll, i, items);
      FrontContents(e, Unlinked(ll, i));
      ll := [e] + Unlinked(ll, i);
    }

    /** What the list says of the key of an entry found through the index. */
    lemma Indexed(key: string, now: int)
      requires Linked() && key in items
      ensures Look(View(), key, now) == if Expired(items[key].Content(), now) then None else Some(items[key].value)
      ensures Current(View(), written) ==> key in written && written[key] == items[key].Content()
      ensures forall x :: x in View() && x.key == key ==> x == items[key].Content()
    {
      var i :| 0 <= i < |ll| && ll[i] == items[key];
      ContentsUnique(ll, items);
      assert View()[i] == items[key].Content();
      LookAt(View(), i, now);
    }

    lemma NotIndexed(key: string, now: int)
      requires Linked() && key !in items
      ensures key !in Keys(View()) && Look(View(), key, now) == None && Without(View(), key) == View()
    {
      ContentsUnique(ll, items);
      LookMissing(View(), key, now);
      WithoutKeys(View(), key);
    }

    /** The account after time has passed. */
    lemma ValidLater(now: int)
      requires Valid() && last <= now
      ensures Accounted(View(), max, written, uses, now) && Unique(View())
    {
      AccountedLater(View(), max, written, uses, last, now);
      ContentsUnique(ll, items);
    }

    /** A reader is given the value last written, unless that has expired; and
        is given nothing only if nothing is written, it has expired, or max
        other keys were used since. */
    method Get(key: string, now: int) returns (r: Option<string>)
      requires Valid() && last <= now
      modifies this
      ensures Valid() && last == now && written == old(written)
      ensures r == Look(old(View()), key, now)
      ensures r.Some? ==> key in written && r.value == written[key].value
      ensures r.Some? && written[key].expires.Some? ==> now < written[key].expires.value
      ensures r.None? && key in written && |Since(uses, key)| < max ==>
        written[key].expires.Some? && written[key].expires.value <= now
      ensures uses == if r.Some? then old(uses) + [key] else old(uses)
      ensures View() == After(old(View()), max, Call.Get(key, now), true)
    {
      ValidLater(now);
      last := now;
      if key !in items {
        NotIndexed(key, now);
        return None;
      }
      r := Inspect(items[key], now);
    }

    /** What a reader who finds an entry is given. */
    method Inspect(e: Entry, now: int) returns (r: Option<string>)
      requires Valid() && e in ll && last == now
      modifies this`ll, this`items, this`uses
      ensures Valid() && r == Look(old(View()), e.key, last)
      ensures e.key in written && r == if Expired(written[e.key], last) then None else Some(written[e.key].value)
      ensures uses == if r.Some? then old(uses) + [e.key] else old(uses)
      ensures View() == After(old(View()), max, Call.Get(e.key, last), true)
    {
      Listing(e);
      Indexed(e.key, last);
      if e.expires.Some? && now >= e.expires.value {
        Forget(e);
        return None;
      }
      Touch(e);
      return Some(e.value);
    }

    /** Dropping an entry that has expired. */
    method Forget(e: Entry)
      requires Valid() && e in ll && Expired(e.Content(), last)
      modifies this`ll, this`items
      ensures Valid() && View() == Without(old(View()), e.key)
    {
      Listing(e);
      AccountedDrop(View(), max, written, uses, last, NotKey(e.key));
      Remove(e);
    }

    /** An entry that was found becomes the most recent one. */
    method Touch(e: Entry)
      requires Valid() && e in ll
      modifies this`ll, this`uses
      ensures Valid() && View() == Filter(old(View()), IsKey(e.key)) + Without(old(View()), e.key)
      ensures uses == old(uses) + [e.key]
    {
      ghost var l := [e.Content()] + Without(View(), e.key);
      Touched(e);
      MoveToFront(e);
      uses := uses + [e.key];
      assert View() == l;
    }

    lemma Touched(e: Entry)
      requires Valid() && e in ll
      ensures Accounted([e.Content()] + Without(View(), e.key), max, written, uses + [e.key], last)
      ensures Filter(View(), IsKey(e.key)) == [e.Content()]
    {
      Listing(e);
      OnlyOne(View(), e.Content());
      AccountedFront(View(), max, written, uses, last, e.Content());
      assert written[e.key := e.Content()] == written;
    }

    lemma Listing(e: Entry)
      requires Linked() && e in ll
      ensures Unique(View()) && e.Content() in View()
      ensures Current(View(), written) ==> e.key in written && written[e.key] == e.Content()
      ensures forall x :: x in View() && x.key == e.key ==> x == e.Content()
    {
      var i :| 0 <= i < |ll| && ll[i] == e;
      ContentsUnique(ll, items);
      assert View()[i] == e.Content();
    }

    method Set(key: string, value: string, ttl: int, now: int)
      requires Valid() && last <= now
      modifies this, ll
      ensures Valid() && last == now && forall e :: e in ll && e !in old(ll) ==> fresh(e)
      ensures View() == After(old(View()), max, Call.Set(key, value, ttl, now), true)
      ensures written == old(written)[key := Item(key, value, if ttl > 0 then Some(now + ttl) else None)]
      ensures uses == old(uses) + [key]
    {
      ghost var x := Entered(key, value, ttl, now);
      ghost var l := Put(View(), max, x);
      ValidLater(now);
      AccountedPut(View(), max, written, uses, now, x);
      Write(key, value, if ttl > 0 then Some(now + ttl) else None);
      written, uses, last := written[key := x], uses + [key], now;
      assert View() == l;
    }

    method Write(key: string, value: string, expires: Option<int>)
      requires Linked() && |ll| <= max
      modifies this`ll, this`items, ll
      ensures Linked() && |ll| <= max && forall e :: e in ll && e !in old(ll) ==> fresh(e)
      ensures View() == Put(old(View()), max, Item(key, value, expires))
    {
      ContentsUnique(ll, items);
      if key in items {
        Rewrite(items[key], value, expires);
      } else {
        Insert(key, value, expires);
      }
    }

    /** Writing an entry in place and moving it to the front. */
    method Rewrite(e: Entry, value: string, expires: Option<int>)
      requires Linked() && e in ll
      modifies this`ll, e
      ensures Linked() && View() == [Item(e.key, value, expires)] + Without(old(View()), e.key)
      ensures |ll| == old(|ll|) && forall x :: x in ll <==> x in old(ll)
    {
      Assign(e, value, expires);
      MoveToFront(e);
    }

    method Assign(e: Entry, value: string, expires: Option<int>)
      requires Linked() && e in ll
      modifies e
      ensures e.Content() == Item(e.key, value, expires) && Without(View(), e.key) == Without(old(View()), e.key)
    {
      var i :| 0 <= i < |ll| && ll[i] == e;
      ghost var rest := Unlinked(ll, i);
      Rest(i);
      e.value, e.expires := value, expires;
      assert Contents(rest) == old(Contents(rest));
      Rest(i);
    }

    /** Putting a new key in front, then dropping entries off the back until the
        list fits. */
    method Insert(key: string, value: string, expires: Option<int>)
      requires Linked() && key !in items
      modifies this`ll, this`items
      ensures Linked() && View() == Trim([Item(key, value, expires)] + old(View()), max)
      ensures forall e :: e in ll && e !in old(ll) ==> fresh(e)
    {
      PushFront(key, value, expires);
      Shrink();
    }

    method Shrink()
      requires Linked()
      modifies this`ll, this`items
      ensures Linked() && View() == Trim(old(View()), max)
      ensures forall x :: x in ll ==> x in old(ll)
    {
      ghost var was := View();
      while |ll| > max
        invariant Linked() && |ll| <= |was| && View() == was[..|ll|]
        invariant |ll| >= max || |ll| == |was|
        invariant forall x :: x in ll ==> x in old(ll)
        decreases |ll|
      {
        var n := |ll| - 1;
        ContentsUnique(ll, items);
        DropAt(View(), n);
        Remove(ll[n]);
      }
    }

    method PushFront(key: string, value: string, expires: Option<int>)
      requires Linked() && key !in items
      modifies this`ll, this`items
      ensures Linked() && View() == [Item(key, value, expires)] + old(View())
      ensures forall e :: e in ll && e !in old(ll) ==> fresh(e)
    {
      var e := new Entry(key, value, expires);
      FrontContents(e, ll);
      assert Contents(ll) == old(Contents(ll));
      ll := [e] + ll;
      items := items[key := e];
    }

    /** Writing only where a reader would find nothing. */
    method Add(key: string, value: string, ttl: int, now: int) returns (ok: bool)
      requires Valid() && last <= now
      modifies this, ll
      ensures Valid() && last == now && forall e :: e in ll && e !in old(ll) ==> fresh(e)
      ensures ok <==> Look(old(View()), key, now) == None
      ensures !ok ==> written == old(written) && uses == old(uses)
      ensures View() == After(old(View()), max, Call.Add(key, value, ttl, now), true)
      ensures ok ==> written == old(written)[key := Item(key, value, if ttl > 0 then Some(now + ttl) else None)]
      ensures ok ==> uses == old(uses) + [key]
    {
      if key in items {
        Indexed(key, now);
        var e := items[key];
        if !(e.expires.Some? && now >= e.expires.value) {
          AccountedLater(View(), max, written, uses, last, now);
          last := now;
          return false;
        }
      } else {
        NotIndexed(key, now);
      }
      Set(key, value, ttl, now);
      return true;
    }

    method Delete(keys: seq<string>)
      requires Valid()
      modifies this
      ensures Valid() && last == old(last) && uses == old(uses)
      ensures View() == Filter(old(View()), NoneOf(Listed(keys)))
      ensures written == old(written) - Listed(keys)
    {
      ContentsUnique(ll, items);
      AccountedDelete(View(), max, written, uses, last, Listed(keys), NoneOf(Listed(keys)));
      FilterIn(View(), NoneOf(Listed(keys)));
      DeleteEach(keys);
      written := written - Listed(keys);
    }

    method DeleteEach(keys: seq<string>)
      requires Linked()
      modifies this`ll, this`items
      ensures Linked() && View() == Filter(old(View()), NoneOf(Listed(keys)))
    {
      ghost var was := View();
      FilterAll(was, NoneOf({}));
      assert Listed(keys[..0]) == {};
      for n := 0 to |keys|
        invariant Linked() && View() == Filter(was, NoneOf(Listed(keys[..n])))
      {
        DeleteOne(keys[n]);
        ListedNext(keys, n);
        FilterTwice(was, NoneOf(Listed(keys[..n])), NotKey(keys[n]), NoneOf(Listed(keys[..n+1])));
      }
      assert keys[..|keys|] == keys;
    }

    method DeleteOne(key: string)
      requires Linked()
      modifies this`ll, this`items
      ensures Linked() && View() == Without(old(View()), key)
      ensures items == old(items) - {key}
    {
      if key in items {
        Remove(items[key]);
      } else {
        NotIndexed(key, last);
      }
    }

    /** Dropping every expired entry: the account stands, so readers are
        promised exactly what they were. */
    method Sweep(now: int)
      requires Valid() && last <= now
      modifies this
      ensures Valid() && last == now && written == old(written) && uses == old(uses)
      ensures View() == Live(old(View()), now)
    {
      AccountedLater(View(), max, written, uses, last, now);
      ContentsUnique(ll, items);
      FilterIn(View(), IsLive(now));
      AccountedDrop(View(), max, written, uses, now, IsLive(now));
      SweepEach(now);
      last := now;
    }

    method SweepEach(now: int)
      requires Linked()
      modifies this`ll, this`items
      ensures Linked() && View() == Live(old(View()), now)
    {
      ghost var was := View();
      ContentsUnique(ll, items);
      var todo := items.Keys;
      FilterAll(was, Sparing(todo, now));
      while todo != {}
        invariant Linked() && todo <= items.Keys && View() == Filter(was, Sparing(todo, now))
        decreases todo
      {
        todo := SweepNext(was, todo, now);
      }
      FilterSame(was, Sparing({}, now), IsLive(now));
    }

    method SweepNext(ghost was: List, todo: set<string>, now: int) returns (left: set<string>)
      requires Linked() && Unique(was) && todo != {} && todo <= items.Keys && View() == Filter(was, Sparing(todo, now))
      modifies this`ll, this`items
      ensures Linked() && left < todo && left <= items.Keys && View() == Filter(was, Sparing(left, now))
    {
      var k :| k in todo;
      SweepStep(was, todo, k, now);
      SweepOne(k, now);
      left := todo - {k};
      assert k !in left;
    }

    method SweepOne(k: string, now: int)
      requires Linked() && k in items
      modifies this`ll, this`items
      ensures Linked() && old(items).Keys - {k} <= items.Keys
      ensures View() == if Expired(old(items[k].Content()), now) then Without(old(View()), k) else old(View())
    {
      if items[k].expires.Some? && now >= items[k].expires.value {
        Remove(items[k]);
      }
    }

    lemma SweepStep(was: List, todo: set<string>, k: string, now: int)
      requires Linked() && Unique(was) && k in todo && k in items && View() == Filter(was, Sparing(todo, now))
      ensures Expired(items[k].Content(), now) ==> Without(View(), k) == Filter(was, Sparing(todo - {k}, now))
      ensures !Expired(items[k].Content(), now) ==> View() == Filter(was, Sparing(todo - {k}, now))
    {
      Indexed(k, now);
      FilterIn(was, Sparing(todo, now));
      forall x | x in was && x.key == k ensures x == items[k].Content() {
        assert Sparing(todo, now)(x);
      }
      if Expired(items[k].Content(), now) {
        FilterTwice(was, Sparing(todo, now), NotKey(k), Sparing(todo - {k}, now));
      } else {
        FilterSame(was, Sparing(todo, now), Sparing(todo - {k}, now));
      }
    }

    lemma PrefixStep(was: List, todo: set<string>, k: string, prefix: string)
      requires k in todo
      ensures var before := Filter(was, SparingPrefix(todo, prefix));
        var after := Filter(was, SparingPrefix(todo - {k}, prefix));
        if prefix <= k then Without(before, k) == after else before == after
    {
      if prefix <= k {
        FilterTwice(was, SparingPrefix(todo, prefix), NotKey(k), SparingPrefix(todo - {k}, prefix));
      } else {
        FilterSame(was, SparingPrefix(todo, prefix), SparingPrefix(todo - {k}, prefix));
      }
    }

    method DeletePrefix(prefix: string)
      requires Valid()
      modifies this
      ensures Valid() && last == old(last) && uses == old(uses)
      ensures View() == Filter(old(View()), NoPrefix(prefix))
      ensures written == old(written) - Prefixed(old(written).Keys, prefix)
    {
      ghost var gone := Prefixed(written.Keys, prefix);
      ghost var left := Filter(View(), NoPrefix(prefix));
      WithoutPrefix(prefix);
      PrefixEach(prefix);
      written := written - gone;
      assert View() == left;
    }

    lemma WithoutPrefix(prefix: string)
      requires Valid()
      ensures Accounted(Filter(View(), NoPrefix(prefix)), max, written - Prefixed(written.Keys, prefix), uses, last)
      ensures |Filter(View(), NoPrefix(prefix))| <= max
    {
      ContentsUnique(ll, items);
      FilterIn(View(), NoPrefix(prefix));
      AccountedDelete(View(), max, written, uses, last, Prefixed(written.Keys, prefix), NoPrefix(prefix));
    }

    method PrefixEach(prefix: string)
      requires Linked()
      modifies this`ll, this`items
      ensures Linked() && View() == Filter(old(View()), NoPrefix(prefix))
    {
      ghost var was := View();
      ContentsUnique(ll, items);
      var todo := items.Keys;
      FilterAll(was, SparingPrefix(todo, prefix));
      while todo != {}
        invariant Linked() && todo <= items.Keys && View() == Filter(was, SparingPrefix(todo, prefix))
        decreases |todo|
      {
        var k :| k in todo;
        PrefixStep(was, todo, k, prefix);
        if prefix <= k {
          Remove(items[k]);
        }
        todo := todo - {k};
      }
      FilterSame(was, SparingPrefix({}, prefix), NoPrefix(prefix));
    }
  }
}
