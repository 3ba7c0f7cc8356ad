/** The segment-trie router. The trie is a heap of nodes; a ghost map places
    every node at the shape it stands for, which turns the tree invariant into
    facts about one node and its children. */
module Router {
  import opened Common
  import opened Text
  import opened Pattern

  // ------------------------------------------------------- growable slices

  /** A Go slice: a length over a backing array that other slices may share. */
  datatype Slice = Slice(arr: array<string>, len: nat)

  ghost predicate Fits(s: Slice) { s.len <= s.arr.Length }

  ghost function Elems(s: Slice): seq<string>
    requires Fits(s)
    reads s.arr
  {
    s.arr[..s.len]
  }

  ghost predicate Kept(s: Slice, before: seq<string>)
    reads s.arr
  {
    Fits(s) && Elems(s) == before
  }

  ghost predicate Reported(s: Slice, before: seq<string>, captured: seq<string>)
    reads s.arr
  {
    Fits(s) && Elems(s) == before + captured
  }

  /** Go's append: writes into spare capacity when there is some, so slices
      sharing the array see the write; otherwise moves to a fresh array. */
  method Append(s: Slice, x: string) returns (r: Slice)
    requires Fits(s)
    modifies s.arr
    ensures Fits(r) && (r.arr == s.arr || fresh(r.arr))
    ensures Elems(r) == old(Elems(s)) + [x]
    ensures Elems(s) == old(Elems(s))
  {
    if s.len < s.arr.Length {
      s.arr[s.len] := x;
      r := Slice(s.arr, s.len + 1);
    } else {
      var grown := new string[2 * s.len + 1](_ => "");
      forall k | 0 <= k < s.len {
        grown[k] := s.arr[k];
      }
      grown[s.len] := x;
      assert grown[..s.len] == s.arr[..s.len];
      r := Slice(grown, s.len + 1);
    }
  }

  // ------------------------------------------------------------------ nodes

  class Route {
    const method_: string
    const path: string
    var paramNames: seq<string>

    constructor (m: string, p: string)
      ensures method_ == m && path == p
    {
      method_, path, paramNames := m, p, [];
    }
  }

  /** The fan-out above which static children are indexed by a map. */
  const MAX_LINEAR_CHILDREN := 8

  /** The edges out of a node. */
  datatype Fan = Fan(labels: seq<string>, kids: seq<Node>, param: Node?, wildcard: Node?)

  ghost predicate HasChild(f: Fan, tok: Token) {
    match tok
    case Static(l) => l in f.labels
    case Param => f.param != null
    case Wild => f.wildcard != null
  }

  ghost predicate IsChild(f: Fan, tok: Token, n: Node) {
    match tok
    case Static(l) => |f.labels| == |f.kids| && exists i :: 0 <= i < |f.labels| && f.labels[i] == l && f.kids[i] == n
    case Param => f.param == n
    case Wild => f.wildcard == n
  }

  /** The edges of a node after it gained a child for tok. */
  ghost function Gain(f: Fan, tok: Token, n: Node): Fan {
    match tok
    case Static(l) => f.(labels := f.labels + [l], kids := f.kids + [n])
    case Param => f.(param := n)
    case Wild => f.(wildcard := n)
  }

  class Node {
    var labels: seq<string>
    var kids: seq<Node>
    var index: Option<map<string, Node>>
    var param: Node?
    var wildcard: Node?
    var route: Route?

    ghost predicate Bare()
      reads this
    {
      labels == [] && kids == [] && index == None && param == null && wildcard == null && route == null
    }

    constructor ()
      ensures Bare()
    {
      labels, kids, index := [], [], None;
      param, wildcard, route := null, null, null;
    }

    ghost function Children(): Fan
      reads this
    {
      Fan(labels, kids, param, wildcard)
    }

    /** Labels are distinct, and the index, present on wide nodes only, agrees
        with the label list. */
    ghost predicate StaticsOk()
      reads this
    {
      && |labels| == |kids|
      && (forall i, j :: 0 <= i < j < |labels| ==> labels[i] != labels[j])
      && (index.Some? <==> |labels| > MAX_LINEAR_CHILDREN)
      && (index.Some? ==>
            && (forall l :: l in index.value <==> l in labels)
            && forall i :: 0 <= i < |labels| ==> index.value[labels[i]] == kids[i])
    }

    /** Linear scan on narrow nodes, map lookup on wide ones: the same answer. */
    method StaticChild(seg: string) returns (child: Node?)
      requires StaticsOk()
      ensures child == null <==> seg !in labels
      ensures child != null ==> exists i :: 0 <= i < |labels| && labels[i] == seg && kids[i] == child
    {
      if index.Some? {
        return if seg in index.value then index.value[seg] else null;
      }
      var i := 0;
      while i < |labels|
        invariant 0 <= i <= |labels|
        invariant seg !in labels[..i]
      {
        var l := labels[i];
        if |l| == |seg| && (|l| == 0 || l[0] == seg[0]) && l == seg {
          return kids[i];
        }
        i := i + 1;
      }
      return null;
    }

    method AddStatic(seg: string) returns (child: Node)
      requires StaticsOk()
      modifies this
      ensures StaticsOk()
      ensures param == old(param) && wildcard == old(wildcard) && route == old(route)
      ensures seg in old(labels) ==> labels == old(labels) && kids == old(kids) && index == old(index)
      ensures seg in old(labels) ==> exists i :: 0 <= i < |labels| && labels[i] == seg && kids[i] == child
      ensures seg !in old(labels) ==> labels == old(labels) + [seg] && kids == old(kids) + [child]
      ensures seg !in old(labels) ==> fresh(child) && child.Bare()
    {
      var existing := StaticChild(seg);
      if existing != null {
        return existing;
      }
      child := new Node();
      labels := labels + [seg];
      kids := kids + [child];
      if |labels| > MAX_LINEAR_CHILDREN {
        if index == None {
          var built: map<string, Node> := map[];
          var i := 0;
          while i < |labels|
            invariant 0 <= i <= |labels|
            invariant forall l :: l in built <==> l in labels[..i]
            invariant forall k :: 0 <= k < i ==> built[labels[k]] == kids[k]
          {
            built := built[labels[i] := kids[i]];
            i := i + 1;
          }
          index := Some(built);
        }
        index := Some(index.value[seg := child]);
      }
    }

    /** The switch in insert: the child for one pattern segment, made if new. */
    method AddChild(seg: string) returns (c: Node)
      requires StaticsOk()
      modifies this
      ensures StaticsOk() && route == old(route)
      ensures HasChild(old(Children()), TokenOf(seg)) ==>
        Children() == old(Children()) && IsChild(Children(), TokenOf(seg), c)
      ensures !HasChild(old(Children()), TokenOf(seg)) ==>
        fresh(c) && c.Bare() && Children() == Gain(old(Children()), TokenOf(seg), c)
    {
      if seg != "" && seg[0] == ':' {
        if param == null {
          param := new Node();
        }
        c := param;
      } else if seg != "" && seg[0] == '*' {
        if wildcard == null {
          wildcard := new Node();
        }
        c := wildcard;
      } else {
        c := AddStatic(seg);
      }
    }

    /** The static child to descend into; without one no static route matches. */
    method StaticAt(seg: string, ghost segs: seq<string>, ghost rt: Router, ghost p: Place,
      ghost routes: map<Place, Route>)
      returns (child: Node?)
      requires rt.Stands(p, this, routes) && segs != [] && segs[0] == seg
      ensures child != null ==> rt.Stands(Under(p, Static(seg)), child, routes)
      ensures child == null ==> NoneVia(routes, p, Static(seg), segs)
    {
      rt.Children(p, segs, routes);
      child := StaticChild(seg);
    }

    /** Matches rem, the path after a '/', against the children: static before
        parameter before wildcard, coming back when a branch fails. A failed
        branch may have written past the end of values; what is reported is
        right nevertheless. */
    method Match(rem: string, values: Slice, ghost rt: Router, ghost p: Place, ghost routes: map<Place, Route>)
      returns (r: Route?, v: Slice, ghost best: Shape)
      requires rt.Stands(p, this, routes) && Fits(values)
      modifies values.arr
      ensures Kept(values, old(Elems(values)))
      ensures Outcome(routes, p, Split(rem, '/'), r, best)
      ensures r != null ==> Reported(v, old(Elems(values)), Captures(best, |p.1|, Split(rem, '/')))
      ensures r != null ==> v.arr == values.arr || fresh(v.arr)
      decreases 3 * |rem| + 3
    {
      var seg, next, more := CutSegment(rem);
      r, v, best := TryStatic(seg, next, more, values, Split(rem, '/'), rt, p, routes);
      if r != null {
        return;
      }
      r, v, best := TryParam(seg, next, more, values, Split(rem, '/'), rt, p, routes);
      if r != null {
        return;
      }
      r, v, best := TryWildcard(rem, values, rt, p, routes);
    }

    /** Match's first choice: the static child with this very label. */
    method TryStatic(seg: string, next: string, more: bool, values: Slice, ghost segs: seq<string>,
                     ghost rt: Router, ghost p: Place, ghost routes: map<Place, Route>)
      returns (r: Route?, v: Slice, ghost best: Shape)
      requires rt.Stands(p, this, routes) && Fits(values)
      requires segs != [] && segs[0] == seg && segs[1..] == Onward(next, more)
      modifies values.arr
      ensures Kept(values, old(Elems(values)))
      ensures r != null ==> Outcome(routes, p, segs, r, best)
      ensures r == null ==> NoneVia(routes, p, Static(seg), segs)
      ensures r != null ==> Reported(v, old(Elems(values)), Captures(best, |p.1|, segs))
      ensures r != null ==> v.arr == values.arr || fresh(v.arr)
      decreases if more then 3 * |next| + 5 else 1
    {
      var child := StaticAt(seg, segs, rt, p, routes);
      r, v, best := null, values, [];
      if child != null {
        r, v, best := child.Descend(next, more, values, rt, Under(p, Static(seg)), routes);
        if r != null {
          ViaBest(routes, p, Static(seg), segs, best);
        } else {
          ViaNone(routes, p, Static(seg), segs);
        }
      }
    }

    /** Match's second choice: a non-empty segment bound to the parameter. */
    method TryParam(seg: string, next: string, more: bool, values: Slice, ghost segs: seq<string>,
                    ghost rt: Router, ghost p: Place, ghost routes: map<Place, Route>)
      returns (r: Route?, v: Slice, ghost best: Shape)
      requires rt.Stands(p, this, routes) && Fits(values)
      requires segs != [] && segs[0] == seg && segs[1..] == Onward(next, more)
      requires NoneVia(routes, p, Static(seg), segs)
      modifies values.arr
      ensures Kept(values, old(Elems(values)))
      ensures r != null ==> Outcome(routes, p, segs, r, best)
      ensures r == null && seg != "" ==> NoneVia(routes, p, Param, segs)
      ensures r != null ==> Reported(v, old(Elems(values)), Captures(best, |p.1|, segs))
      ensures r != null ==> v.arr == values.arr || fresh(v.arr)
      decreases if more then 3 * |next| + 5 else 1
    {
      rt.OtherChildren(p, this, segs, routes);
      r, v, best := null, values, [];
      if param != null && seg != "" {
        var grown := Append(values, seg);
        r, v, best := param.Descend(next, more, grown, rt, Under(p, Param), routes);
        if r != null {
          ViaBest(routes, p, Param, segs, best);
          Regroup(old(Elems(values)), seg, Captures(best, |p.1| + 1, Onward(next, more)));
        } else {
          ViaNone(routes, p, Param, segs);
        }
      }
    }

    /** Match's last choice: a wildcard takes all that remains. */
    method TryWildcard(rem: string, values: Slice, ghost rt: Router, ghost p: Place, ghost routes: map<Place, Route>)
      returns (r: Route?, v: Slice, ghost best: Shape)
      requires rt.Stands(p, this, routes) && Fits(values)
      requires NoneVia(routes, p, Static(Split(rem, '/')[0]), Split(rem, '/'))
      requires Split(rem, '/')[0] != "" ==> NoneVia(routes, p, Param, Split(rem, '/'))
      modifies values.arr
      ensures Kept(values, old(Elems(values)))
      ensures Outcome(routes, p, Split(rem, '/'), r, best)
      ensures r != null ==> Reported(v, old(Elems(values)), Captures(best, |p.1|, Split(rem, '/')))
      ensures r != null ==> v.arr == values.arr || fresh(v.arr)
    {
      rt.OtherChildren(p, this, Split(rem, '/'), routes);
      r, v, best := null, values, [];
      if wildcard != null && wildcard.route != null {
        JoinSplit(rem, '/');
        WildBest(routes, p, Split(rem, '/'));
        v := Append(values, rem);
        r, best := wildcard.route, p.1 + [Wild];
      } else {
        NoneAtAll(routes, p, Split(rem, '/'));
      }
    }

    method Descend(next: string, more: bool, values: Slice, ghost rt: Router, ghost p: Place,
      ghost routes: map<Place, Route>)
      returns (r: Route?, v: Slice, ghost best: Shape)
      requires rt.Stands(p, this, routes) && Fits(values)
      modifies values.arr
      ensures Kept(values, old(Elems(values)))
      ensures Outcome(routes, p, Onward(next, more), r, best)
      ensures r != null ==> Reported(v, old(Elems(values)), Captures(best, |p.1|, Onward(next, more)))
      ensures r != null ==> v.arr == values.arr || fresh(v.arr)
      decreases if more then 3 * |next| + 4 else 0
    {
      if !more {
        EndOnly(routes, p);
        return route, values, p.1;
      }
      r, v, best := Match(next, values, rt, p, routes);
    }

    /** Entry point on a method's root. */
    method Lookup(path: string, values: Slice, ghost rt: Router, ghost m: string, ghost routes: map<Place, Route>)
      returns (r: Route?, v: Slice, ghost best: Shape)
      requires rt.Stands((m, []), this, routes) && Fits(values)
      modifies values.arr
      ensures Kept(values, old(Elems(values)))
      ensures Answer(routes, m, path, r, best)
      ensures r != null ==> Reported(v, old(Elems(values)), Captured(best, path))
      ensures r != null ==> v.arr == values.arr || fresh(v.arr)
    {
      if path == "" || path == "/" {
        rt.RootChildren(m, this, routes);
        if route != null {
          return route, values, [];
        }
        if wildcard != null && wildcard.route != null {
          v := Append(values, "");
          return wildcard.route, v, [Wild];
        }
        return null, values, [];
      }
      if path[0] != '/' {
        return null, values, [];
      }
      r, v, best := Match(path[1..], values, rt, (m, []), routes);
      FromRoot(routes, m, path, r, best);
    }
  }

  // ------------------------------------------------- what a match must be

  ghost function Under(p: Place, tok: Token): (q: Place)
    ensures q.1 != [] && Above(q) == p && q.1[|q.1|-1] == tok
  {
    (p.0, p.1 + [tok])
  }

  ghost function Above(q: Place): Place
    requires q.1 != []
  {
    (q.0, q.1[..|q.1|-1])
  }

  ghost function Onward(next: string, more: bool): seq<string> {
    if more then Split(next, '/') else []
  }

  /** No registered route below p matches the segments. */
  ghost predicate NoneFrom(routes: map<Place, Route>, p: Place, segs: seq<string>) {
    forall s :: (p.0, s) in routes && p.1 <= s ==> !Matches(s, |p.1|, segs)
  }

  /** best is registered below p, matches, and precedes every other match. */
  ghost predicate BestFrom(routes: map<Place, Route>, p: Place, segs: seq<string>, best: Shape) {
    && (p.0, best) in routes && p.1 <= best
    && Matches(best, |p.1|, segs)
    && forall s :: (p.0, s) in routes && p.1 <= s && s != best && Matches(s, |p.1|, segs)
         ==> Precedes(best, s, |p.1|)
  }

  /** What a search below p reports: the best match, or that there is none. */
  ghost predicate Outcome(routes: map<Place, Route>, p: Place, segs: seq<string>, r: Route?, best: Shape) {
    if r == null then NoneFrom(routes, p, segs)
    else BestFrom(routes, p, segs, best) && routes[(p.0, best)] == r
  }

  /** What the router answers for a path: the registered route that serves it
      and precedes all others that do, or nothing when none serves it. */
  ghost predicate Answer(routes: map<Place, Route>, m: string, path: string, r: Route?, best: Shape) {
    if r == null then forall s :: (m, s) in routes ==> !Serves(s, path)
    else
      && (m, best) in routes && routes[(m, best)] == r
      && Serves(best, path)
      && forall s :: (m, s) in routes && s != best && Serves(s, path) ==> Precedes(best, s, 0)
  }

  lemma FromRoot(routes: map<Place, Route>, m: string, path: string, r: Route?, best: Shape)
    requires !IsRoot(path) && path[0] == '/'
    requires Outcome(routes, (m, []), Split(path[1..], '/'), r, best)
    ensures Answer(routes, m, path, r, best)
  {
  }

  /** No registered route whose next token is tok matches. */
  ghost predicate NoneVia(routes: map<Place, Route>, p: Place, tok: Token, segs: seq<string>) {
    forall s :: (p.0, s) in routes && p.1 <= s && |p.1| < |s| && s[|p.1|] == tok ==> !Matches(s, |p.1|, segs)
  }

  lemma ViaNone(routes: map<Place, Route>, p: Place, tok: Token, segs: seq<string>)
    requires tok != Wild && segs != []
    requires NoneFrom(routes, Under(p, tok), segs[1..])
    ensures NoneVia(routes, p, tok, segs)
  {
    forall s | (p.0, s) in routes && p.1 <= s && |p.1| < |s| && s[|p.1|] == tok ensures !Matches(s, |p.1|, segs) {
      assert p.1 + [tok] <= s;
    }
  }

  lemma ViaBest(routes: map<Place, Route>, p: Place, tok: Token, segs: seq<string>, best: Shape)
    requires tok != Wild && segs != [] && Accepts(tok, segs[0])
    requires BestFrom(routes, Under(p, tok), segs[1..], best)
    requires tok == Param ==> NoneVia(routes, p, Static(segs[0]), segs)
    ensures BestFrom(routes, p, segs, best)
    ensures Captures(best, |p.1|, segs)
         == (if tok == Param then [segs[0]] else []) + Captures(best, |p.1| + 1, segs[1..])
  {
    var i := |p.1|;
    assert best[i] == tok;
    forall s | (p.0, s) in routes && p.1 <= s && s != best && Matches(s, i, segs) ensures Precedes(best, s, i) {
      if s[i] == tok { assert p.1 + [tok] <= s; }
    }
  }

  lemma WildBest(routes: map<Place, Route>, p: Place, segs: seq<string>)
    requires segs != [] && Under(p, Wild) in routes
    requires NoneVia(routes, p, Static(segs[0]), segs)
    requires segs[0] != "" ==> NoneVia(routes, p, Param, segs)
    ensures BestFrom(routes, p, segs, p.1 + [Wild])
  {
    NextToken(p, segs);
  }

  /** The ways a shape below p can start to match. */
  lemma NextToken(p: Place, segs: seq<string>)
    requires segs != []
    ensures forall s :: p.1 <= s && Matches(s, |p.1|, segs) ==>
      (|p.1| < |s| &&
       match s[|p.1|]
       case Static(l) => l == segs[0]
       case Param => segs[0] != ""
       case Wild => s == p.1 + [Wild])
  {
  }

  lemma NoneAtAll(routes: map<Place, Route>, p: Place, segs: seq<string>)
    requires segs != [] && NoneVia(routes, p, Static(segs[0]), segs)
    requires segs[0] != "" ==> NoneVia(routes, p, Param, segs)
    requires NoneVia(routes, p, Wild, segs)
    ensures NoneFrom(routes, p, segs)
  {
    NextToken(p, segs);
  }

  /** With no segment left only the place itself matches. */
  lemma EndOnly(routes: map<Place, Route>, p: Place)
    ensures p in routes ==> BestFrom(routes, p, [], p.1)
    ensures p !in routes ==> NoneFrom(routes, p, [])
  {
    forall s | (p.0, s) in routes && p.1 <= s && Matches(s, |p.1|, []) ensures s == p.1 {}
  }

  lemma Regroup(before: seq<string>, x: string, after: seq<string>)
    ensures before + [x] + after == before + ([x] + after)
  {
  }

  /** Cuts rem at its first slash: the segment before it, what follows it, and
      whether there was one. */
  method CutSegment(rem: string) returns (seg: string, next: string, more: bool)
    ensures Split(rem, '/')[0] == seg && Split(rem, '/')[1..] == Onward(next, more)
    ensures more ==> |next| < |rem|
    ensures !more ==> next == ""
  {
    var i := 0;
    while i < |rem|
      invariant 0 <= i <= |rem|
      invariant '/' !in rem[..i]
    {
      if rem[i] == '/' {
        SplitAt(rem, i, '/');
        return rem[..i], rem[i+1..], true;
      }
      i := i + 1;
    }
    assert rem[..i] == rem;
    SplitWhole(rem, '/');
    return rem, "", false;
  }

  // ----------------------------------------------------------------- router

  /** Where a node stands: the method tree it is in and the shape it spells. */
  type Place = (string, Shape)

  /** Places are closed upwards, up to a method root, and no node stands at two
      places. */
  ghost predicate Rooted(trees: map<string, Node>, at: map<Place, Node>) {
    && (forall m :: m in trees ==> (m, []) in at && at[(m, [])] == trees[m])
    && (forall p {:trigger Above(p)} :: p in at && p.1 != [] ==> Above(p) in at)
    && (forall p :: p in at && p.1 == [] ==> p.0 in trees)
    && (forall p, q :: p in at && q in at && at[p] == at[q] ==> p == q)
  }

  /** The edges out of p lead exactly to the places one token further. */
  ghost predicate Spread(at: map<Place, Node>, p: Place, f: Fan) {
    && |f.labels| == |f.kids|
    && (f.param == null <==> Under(p, Param) !in at)
    && (f.param != null ==> at[Under(p, Param)] == f.param)
    && (f.wildcard == null <==> Under(p, Wild) !in at)
    && (f.wildcard != null ==> at[Under(p, Wild)] == f.wildcard)
    && (forall l {:trigger Static(l)} :: l in f.labels <==> Under(p, Static(l)) in at)
    && (forall i :: 0 <= i < |f.labels| ==> at[Under(p, Static(f.labels[i]))] == f.kids[i])
  }

  lemma SpreadElsewhere(at: map<Place, Node>, p: Place, f: Fan, q: Place, n: Node)
    requires Spread(at, p, f) && q !in at && (q.1 == [] || Above(q) != p)
    ensures Spread(at[q := n], p, f)
  {
  }

  lemma SpreadBare(at: map<Place, Node>, q: Place, n: Node)
    requires forall tok :: Under(q, tok) !in at
    ensures Spread(at[q := n], q, Fan([], [], null, null))
  {
  }

  lemma SpreadGain(at: map<Place, Node>, p: Place, f: Fan, tok: Token, n: Node)
    requires Spread(at, p, f) && Under(p, tok) !in at
    ensures Spread(at[Under(p, tok) := n], p, Gain(f, tok, n))
  {
  }

  lemma NothingBelow(trees: map<string, Node>, at: map<Place, Node>, q: Place)
    requires Rooted(trees, at)
    ensures forall tok :: Under(q, tok) in at ==> q in at
  {
  }

  lemma RootedGrow(trees: map<string, Node>, at: map<Place, Node>, q: Place, n: Node)
    requires Rooted(trees, at) && q !in at && n !in at.Values && q.1 != [] && Above(q) in at
    ensures Rooted(trees, at[q := n])
  {
  }

  class Router {
    var trees: map<string, Node>
    var maxParams: nat
    ghost var at: map<Place, Node>
    ghost var known: set<Route>

    /** The router's abstract value: the registered route for each method and
        shape. */
    ghost function Routes(): map<Place, Route>
      reads this, at.Values
    {
      map p | p in at && at[p].route != null :: at[p].route
    }

    ghost predicate Linked(p: Place)
      requires p in at
      reads this, at.Values
    {
      at[p].StaticsOk() && Spread(at, p, at[p].Children())
    }

    ghost predicate RouteOk(p: Place)
      requires p in at
      reads this, at.Values, known
    {
      var r := at[p].route;
      r != null ==>
        && r in known
        && ValidPattern(r.path) && p == (r.method_, ShapeOf(r.path))
        && r.paramNames == Names(Segments(r.path))
        && |r.paramNames| <= maxParams
    }

    ghost predicate Valid()
      reads this, at.Values, known
    {
      Rooted(trees, at) && AllLinked() && AllRoutesOk()
    }

    ghost predicate AllLinked()
      reads this, at.Values
    {
      forall p {:trigger Linked(p)} :: p in at ==> Linked(p)
    }

    ghost predicate AllRoutesOk()
      reads this, at.Values, known
    {
      forall p {:trigger RouteOk(p)} :: p in at ==> RouteOk(p)
    }

    constructor ()
      ensures Valid() && fresh(at.Values) && Routes() == map[]
    {
      trees, maxParams, at, known := map[], 0, map[], {};
    }

    /** n stands at p in a router whose registered routes are these. */
    ghost predicate Stands(p: Place, n: Node, routes: map<Place, Route>)
      reads this, at.Values, known
    {
      Valid() && p in at && at[p] == n && routes == Routes()
    }

    lemma Children(p: Place, segs: seq<string>, routes: map<Place, Route>)
      requires Valid() && p in at && routes == Routes() && segs != []
      ensures at[p].StaticsOk()
      ensures segs[0] !in at[p].labels ==> NoneVia(routes, p, Static(segs[0]), segs)
      ensures forall i :: 0 <= i < |at[p].labels| && at[p].labels[i] == segs[0] ==>
        Stands(Under(p, Static(segs[0])), at[p].kids[i], routes)
    {
      assert Linked(p);
      if segs[0] !in at[p].labels { AbsentNone(p, Static(segs[0]), segs); }
    }

    lemma OtherChildren(p: Place, n: Node, segs: seq<string>, routes: map<Place, Route>)
      requires Stands(p, n, routes) && segs != []
      ensures n.param == null ==> NoneVia(routes, p, Param, segs)
      ensures n.param != null ==> Stands(Under(p, Param), n.param, routes)
      ensures n.wildcard == null || n.wildcard.route == null ==> NoneVia(routes, p, Wild, segs)
      ensures n.wildcard != null && n.wildcard.route != null ==>
        Under(p, Wild) in routes && routes[Under(p, Wild)] == n.wildcard.route
    {
      assert Linked(p);
      if n.param == null { AbsentNone(p, Param, segs); }
      if n.wildcard == null || n.wildcard.route == null { WildNone(p, segs); }
    }

    lemma RootChildren(m: string, n: Node, routes: map<Place, Route>)
      requires Stands((m, []), n, routes)
      ensures n.route == null <==> (m, []) !in routes
      ensures n.route != null ==> routes[(m, [])] == n.route
      ensures n.wildcard == null || n.wildcard.route == null <==> (m, [Wild]) !in routes
      ensures n.wildcard != null && n.wildcard.route != null ==> routes[(m, [Wild])] == n.wildcard.route
    {
      assert Linked((m, [])) && [] + [Wild] == [Wild];
    }

    /** Every prefix of a placed shape is placed. */
    lemma {:induction false} PrefixPlaced(m: string, s: Shape, k: nat)
      requires Valid() && (m, s) in at && k <= |s|
      ensures (m, s[..k]) in at
    {
      assert Linked((m, s));
      if k < |s| {
        assert Above((m, s)) == (m, s[..|s|-1]);
        PrefixPlaced(m, s[..|s|-1], k);
        assert s[..|s|-1][..k] == s[..k];
      } else {
        assert s[..k] == s;
      }
    }

    lemma AbsentNone(p: Place, tok: Token, segs: seq<string>)
      requires Valid() && Under(p, tok) !in at
      ensures NoneVia(Routes(), p, tok, segs)
    {
      forall s | (p.0, s) in at && p.1 <= s && |p.1| < |s| ensures Under(p, s[|p.1|]) in at {
        PrefixPlaced(p.0, s, |p.1| + 1);
        assert s[..|p.1|+1] == p.1 + [s[|p.1|]];
      }
    }

    lemma WildNone(p: Place, segs: seq<string>)
      requires Valid() && p in at
      requires at[p].wildcard == null || at[p].wildcard.route == null
      ensures NoneVia(Routes(), p, Wild, segs)
    {
      assert Linked(p);
      assert Under(p, Wild) !in Routes();
      forall s: Shape | p.1 <= s && |p.1| < |s| && s[|p.1|] == Wild && Matches(s, |p.1|, segs)
        ensures (p.0, s) == Under(p, Wild)
      {
        assert s == p.1 + [Wild];
      }
    }

    // ------------------------------------------------------------ insertion

    /** The tree grew: everything already placed stays, nothing was registered. */
    twostate predicate Grown()
      reads this, at.Values, known
    {
      && old(at.Keys) <= at.Keys
      && (forall p :: p in old(at) ==> at[p] == old(at[p]))
      && fresh(at.Values - old(at.Values))
      && known == old(known) && maxParams == old(maxParams)
      && Routes() == old(Routes())
    }

    /** The nodes placed before still stand where they stood, with their
        routes; new places have none. */
    twostate predicate RoutesKept()
      reads this, at.Values, known
    {
      && (forall p :: p in old(at) ==> p in at && at[p] == old(at[p]) && at[p].route == old(at[p].route))
      && (forall p :: p in at && p !in old(at) ==> at[p].route == null)
    }

    twostate lemma SameRoutes()
      requires RoutesKept()
      ensures Routes() == old(Routes())
    {
      assert Routes().Keys == old(Routes()).Keys;
      assert forall p :: p in Routes() ==> Routes()[p] == old(Routes())[p];
    }

    twostate lemma RoutesStillOk()
      requires RoutesKept() && old(AllRoutesOk()) && known == old(known) && maxParams == old(maxParams)
      requires forall x :: x in known ==> unchanged(x)
      ensures AllRoutesOk()
    {
      forall p | p in at ensures RouteOk(p) {
        if p in old(at) { assert old(RouteOk(p)); }
      }
    }

    /** Attaching a bare node at q leaves the edges of all other nodes right. */
    twostate lemma StillLinked(q: Place, new c: Node)
      requires old(AllLinked()) && q !in old(at) && at == old(at)[q := c]
      requires c.Bare() && forall tok :: Under(q, tok) !in old(at)
      requires forall x :: x in old(at) ==> if q.1 != [] && x == Above(q) then Linked(x) else unchanged(old(at[x]))
      ensures AllLinked()
    {
      SpreadBare(old(at), q, c);
      forall x | x in at ensures Linked(x) {
        if x in old(at) && (q.1 == [] || x != Above(q)) {
          assert old(Linked(x));
          SpreadElsewhere(old(at), x, at[x].Children(), q, c);
        }
      }
    }

    method Root(m: string) returns (n: Node)
      requires Valid()
      modifies this
      ensures Valid() && Grown()
      ensures (m, []) in at && at[(m, [])] == n
    {
      if m in trees {
        return trees[m];
      }
      NothingBelow(trees, at, (m, []));
      n := new Node();
      trees := trees[m := n];
      at := at[(m, []) := n];
      StillLinked((m, []), n);
      RoutesStillOk();
      SameRoutes();
    }

    /** p was given a new child. */
    twostate lemma Adopted(p: Place, new tok: Token, new c: Node)
      requires old(Valid()) && p in old(at) && Under(p, tok) !in old(at)
      requires fresh(c) && c.Bare()
      requires at == old(at)[Under(p, tok) := c] && trees == old(trees)
      requires known == old(known) && maxParams == old(maxParams)
      requires forall x :: x in known ==> unchanged(x)
      requires forall x :: x in old(at) && x != p ==> unchanged(old(at[x]))
      requires at[p].StaticsOk() && at[p].route == old(at[p].route)
      requires at[p].Children() == Gain(old(at[p].Children()), tok, c)
      ensures Valid() && Grown()
    {
      var q := Under(p, tok);
      assert old(Linked(p));
      RootedGrow(trees, old(at), q, c);
      SpreadGain(old(at), p, old(at[p].Children()), tok, c);
      NothingBelow(trees, old(at), q);
      StillLinked(q, c);
      RoutesStillOk();
      SameRoutes();
    }

    method Child(n: Node, seg: string, ghost p: Place) returns (c: Node)
      requires Valid() && p in at && at[p] == n
      modifies this, n
      ensures Valid() && Grown()
      ensures Under(p, TokenOf(seg)) in at && at[Under(p, TokenOf(seg))] == c
    {
      ghost var tok := TokenOf(seg);
      assert Linked(p);
      c := n.AddChild(seg);
      if !HasChild(old(n.Children()), tok) {
        at := at[Under(p, tok) := c];
        Adopted(p, tok, c);
      } else {
        Unmoved(p);
      }
    }

    twostate lemma Unmoved(p: Place)
      requires old(Valid()) && p in old(at) && at == old(at) && trees == old(trees)
      requires known == old(known) && maxParams == old(maxParams)
      requires forall x :: x in known ==> unchanged(x)
      requires forall x :: x in at && x != p ==> unchanged(at[x])
      requires at[p].StaticsOk() && at[p].route == old(at[p].route) && at[p].Children() == old(at[p].Children())
      ensures Valid() && Grown()
    {
      LinksKept();
      RoutesStillOk();
      SameRoutes();
    }

    /** Edges unchanged, all nodes still linked. */
    twostate lemma LinksKept()
      requires old(AllLinked()) && at == old(at)
      requires forall x :: x in at ==>
        unchanged(at[x]) || (at[x].StaticsOk() && at[x].Children() == old(at[x].Children()))
      ensures AllLinked()
    {
      forall x | x in at ensures Linked(x) {
        assert old(Linked(x));
      }
    }

    /** Follows a valid pattern from its method's root, making nodes as needed. */
    method Walk(m: string, path: string) returns (n: Node)
      requires Valid() && path != ""
      modifies this, at.Values
      ensures Valid() && Grown()
      ensures (m, ShapeOf(path)) in at && at[(m, ShapeOf(path))] == n
    {
      n := Root(m);
      if path != "/" {
        n := WalkSegments(m, n, Split(path[1..], '/'));
      } else {
        assert Tokens([]) == [];
      }
    }

    method WalkSegments(m: string, root: Node, segs: seq<string>) returns (n: Node)
      requires Valid() && (m, []) in at && at[(m, [])] == root
      modifies this, at.Values
      ensures Valid() && Grown()
      ensures (m, Tokens(segs)) in at && at[(m, Tokens(segs))] == n
    {
      n := root;
      ghost var p: Place := (m, []);
      var i := 0;
      while i < |segs|
        invariant 0 <= i <= |segs|
        invariant Valid() && Grown()
        invariant p == (m, Tokens(segs)[..i]) && p in at && at[p] == n
      {
        n := Child(n, segs[i], p);
        TokensStep(m, segs, i);
        p := Under(p, TokenOf(segs[i]));
        i := i + 1;
      }
      assert Tokens(segs)[..i] == Tokens(segs);
    }

    /** Notes a route's parameter names; this disturbs nothing, not even when
        the route is already registered. */
    method Note(r: Route, names: seq<string>)
      requires Valid() && ValidPattern(r.path) && names == Names(Segments(r.path))
      modifies this, r
      ensures Valid() && Routes() == old(Routes()) && at == old(at) && RouteNoted(r)
    {
      r.paramNames := names;
      if |names| > maxParams {
        maxParams := |names|;
      }
      known := known + {r};
      LinksKept();
      forall x | x in at ensures RouteOk(x) {
        assert old(RouteOk(x));
      }
      SameRoutes();
    }

    ghost predicate RouteNoted(r: Route)
      reads this, r
    {
      && r in known && ValidPattern(r.path)
      && r.paramNames == Names(Segments(r.path)) && |r.paramNames| <= maxParams
    }

    /** Puts a noted route at its place. */
    method Put(n: Node, r: Route)
      requires Valid() && RouteNoted(r) && Key(r) in at && at[Key(r)] == n && n.route == null
      modifies n
      ensures Valid() && Routes() == old(Routes())[Key(r) := r]
    {
      assert Linked(Key(r));
      n.route := r;
      LinksKept();
      forall x | x in at ensures RouteOk(x) {
        assert old(RouteOk(x));
      }
      OneMore(Key(r));
    }

    twostate lemma OneMore(key: Place)
      requires at == old(at) && key in at && at[key].route != null
      requires forall x :: x in at && x != key ==> at[x].route == old(at[x].route)
      ensures Routes() == old(Routes())[key := at[key].route]
    {
      assert Routes().Keys == old(Routes())[key := at[key].route].Keys;
      assert forall p :: p in Routes() ==> Routes()[p] == old(Routes())[key := at[key].route][p];
    }

    /** Registers r, or reports the route already holding its method and shape. */
    method Insert(r: Route) returns (res: Result<Route?, PatternError>)
      requires Valid()
      modifies this, at.Values, r
      ensures Valid() && fresh(at.Values - old(at.Values))
      ensures res.Err? <==> !ValidPattern(r.path)
      ensures res.Err? ==> Routes() == old(Routes())
      ensures res.Ok? && Key(r) in old(Routes()) ==> res.value == old(Routes())[Key(r)] && Routes() == old(Routes())
      ensures res.Ok? && Key(r) !in old(Routes()) ==> res.value == null && Routes() == old(Routes())[Key(r) := r]
      ensures res.Ok? ==> RouteNoted(r)
    {
      var names := ParsePattern(r.path);
      if names.Err? {
        return Err(names.error);
      }
      Note(r, names.value);
      var n := Walk(r.method_, r.path);
      if n.route != null {
        return Ok(n.route);
      }
      Put(n, r);
      return Ok(null);
    }

    // --------------------------------------------------------------- lookup

    /** The best registered route for a request, with what its pattern
        captured appended to values: as many values as it has names. */
    method Find(m: string, path: string, values: Slice) returns (r: Route?, v: Slice, ghost best: Shape)
      requires Valid() && Fits(values)
      modifies values.arr
      ensures Kept(values, old(Elems(values)))
      ensures Answer(Routes(), m, path, r, best)
      ensures r != null ==> Reported(v, old(Elems(values)), Captured(best, path))
      ensures r != null ==> v.len == values.len + |r.paramNames|
    {
      if m !in trees {
        NoTree(m);
        return null, values, [];
      }
      r, v, best := trees[m].Lookup(path, values, this, m, Routes());
      if r != null {
        assert RouteOk((m, best));
        CapturedCount(r.path, path);
      }
    }

    lemma NoTree(m: string)
      requires Valid()
      ensures forall s :: (m, s) in at ==> m in trees
    {
      forall s ensures (m, s) in at ==> m in trees {
        if (m, s) in at {
          PrefixPlaced(m, s, 0);
          assert s[..0] == [];
        }
      }
    }

    method ServesFor(m: string, path: string) returns (b: bool)
      requires Valid() && m in trees
      ensures b <==> m in Served(Routes(), path)
    {
      var buf := new string[maxParams](_ => "");
      var r, _, best := trees[m].Lookup(path, Slice(buf, 0), this, m, Routes());
      return r != null;
    }

    /** The methods some registered route serves this path for. */
    method ServedMethods(path: string) returns (methods: set<string>)
      requires Valid()
      ensures methods == Served(Routes(), path)
    {
      methods := {};
      var rest := trees.Keys;
      ghost var served := Served(Routes(), path);
      forall m | m in served ensures m in trees {
        NoTree(m);
      }
      while rest != {}
        invariant rest <= trees.Keys
        invariant methods == served - rest
        decreases rest
      {
        var m :| m in rest;
        rest := rest - {m};
        var found := ServesFor(m, path);
        if found {
          methods := methods + {m};
        }
      }
    }

    /** Those methods with the implied HEAD and OPTIONS; none when no route
        serves the path. */
    method Allowed(path: string) returns (methods: set<string>)
      requires Valid()
      ensures methods == {} <==> forall p :: p in Routes() ==> !Serves(p.1, path)
      ensures methods != {} ==> forall m :: m in methods <==>
        m == "OPTIONS" || ServedFor(Routes(), m, path) || (m == "HEAD" && ServedFor(Routes(), "GET", path))
    {
      methods := ServedMethods(path);
      ServedIs(Routes(), path);
      if methods == {} {
        return;
      }
      if "GET" in methods {
        methods := methods + {"HEAD"};
      }
      methods := methods + {"OPTIONS"};
    }
  }

  lemma TokensStep(m: string, segs: seq<string>, i: nat)
    requires i < |segs|
    ensures Under((m, Tokens(segs)[..i]), TokenOf(segs[i])) == (m, Tokens(segs)[..i+1])
  {
    assert Tokens(segs)[..i+1] == Tokens(segs)[..i] + [TokenOf(segs[i])];
  }

  ghost function Key(r: Route): Place
    requires r.path != ""
  {
    (r.method_, ShapeOf(r.path))
  }

  ghost function Served(routes: map<Place, Route>, path: string): set<string> {
    set p | p in routes && Serves(p.1, path) :: p.0
  }

  lemma ServedIs(routes: map<Place, Route>, path: string)
    ensures forall m :: m in Served(routes, path) <==> ServedFor(routes, m, path)
    ensures Served(routes, path) == {} <==> forall p :: p in routes ==> !Serves(p.1, path)
  {
    forall p | p in routes && Serves(p.1, path) ensures p.0 in Served(routes, path) {}
  }

  /** A route of this method serves the path. */
  ghost predicate ServedFor(routes: map<Place, Route>, m: string, path: string) {
    exists p :: p in routes && p.0 == m && Serves(p.1, path)
  }
}
