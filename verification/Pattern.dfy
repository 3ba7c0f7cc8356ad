/** Route patterns: their shape, which request paths they serve, what they
    capture, the precedence between them, and filling them to build a URL. */
module Pattern {
  import opened Common
  import opened Text

  datatype Token = Static(text: string) | Param | Wild

  /** A pattern with its parameter names forgotten: two routes with the same
      method and shape conflict. "/" has the empty shape. */
  type Shape = seq<Token>

  datatype PatternError =
    | NotRooted
    | EmptySegment
    | UnnamedParam
    | WildcardNotLast(segment: string)
    | BadParam(segment: string)
    | RepeatedParam(name: string)
    | MixedSegment(segment: string)

  datatype BuildError = OddPairs | MissingParam(name: string)

  // ---------------------------------------------------------------- syntax

  predicate IsParam(seg: string) { seg != "" && seg[0] == ':' }

  predicate IsWild(seg: string) { seg != "" && seg[0] == '*' }

  predicate HasMark(s: string) { ':' in s || '*' in s }

  function TokenOf(seg: string): Token {
    if IsParam(seg) then Param else if IsWild(seg) then Wild else Static(seg)
  }

  function Tokens(segs: seq<string>): Shape {
    seq(|segs|, i requires 0 <= i < |segs| => TokenOf(segs[i]))
  }

  /** The segments of a pattern; "/" has none. */
  function Segments(pattern: string): seq<string>
    requires pattern != ""
  {
    if pattern == "/" then [] else Split(pattern[1..], '/')
  }

  function ShapeOf(pattern: string): Shape
    requires pattern != ""
  {
    Tokens(Segments(pattern))
  }

  /** The name a parameter or wildcard segment declares; a bare "*" is named "*". */
  function NameOf(seg: string): string
    requires seg != ""
  {
    if seg[1..] == "" then "*" else seg[1..]
  }

  function Names(segs: seq<string>): seq<string> {
    if segs == [] then []
    else (if TokenOf(segs[0]).Static? then [] else [NameOf(segs[0])]) + Names(segs[1..])
  }

  ghost predicate Distinct(names: seq<string>) {
    forall i, j :: 0 <= i < j < |names| ==> names[i] != names[j]
  }

  ghost predicate SegmentValid(seg: string, last: bool) {
    if seg == "" then last
    else if IsParam(seg) then seg[1..] != "" && !HasMark(seg[1..])
    else if IsWild(seg) then last && !HasMark(seg[1..])
    else !HasMark(seg)
  }

  /** What the router documents as an acceptable pattern: rooted, no empty
      segment but a trailing one, parameters spanning whole segments, a
      wildcard only at the end, no name twice. */
  ghost predicate ValidPattern(pattern: string) {
    && pattern != ""
    && pattern[0] == '/'
    && var segs := Segments(pattern);
    && (forall i :: 0 <= i < |segs| ==> SegmentValid(segs[i], i == |segs| - 1))
    && Distinct(Names(segs))
  }

  lemma {:induction false} NamesAppend(a: seq<string>, seg: string)
    ensures Names(a + [seg]) == Names(a) + (if TokenOf(seg).Static? then [] else [NameOf(seg)])
  {
    if a == [] {
      assert Names([seg][1..]) == [];
    } else {
      assert (a + [seg])[1..] == a[1..] + [seg];
      NamesAppend(a[1..], seg);
    }
  }

  /** A segment ":x" or "*x" declares x, and a bare wildcard "*". */
  lemma NamesAre(a: seq<string>, seg: string)
    ensures Names([]) == []
    ensures Names(a + [seg]) ==
      if seg == "" || (seg[0] != ':' && seg[0] != '*') then Names(a)
      else if |seg| > 1 then Names(a) + [seg[1..]] else Names(a) + ["*"]
  {
    NamesAppend(a, seg);
  }

  /** The names met so far stay a prefix of all names. */
  lemma {:induction false} NamesPrefix(segs: seq<string>, i: nat)
    requires i <= |segs|
    ensures |Names(segs[..i])| <= |Names(segs)|
    ensures Names(segs)[..|Names(segs[..i])|] == Names(segs[..i])
    decreases |segs| - i
  {
    if i == |segs| {
      assert segs[..i] == segs;
    } else {
      assert segs[..i+1] == segs[..i] + [segs[i]];
      NamesAppend(segs[..i], segs[i]);
      NamesPrefix(segs, i + 1);
    }
  }

  /** Accepts exactly the valid patterns, and returns the names in order. */
  method ParsePattern(pattern: string) returns (r: Result<seq<string>, PatternError>)
    ensures r.Ok? <==> ValidPattern(pattern)
    ensures r.Ok? ==> r.value == Names(Segments(pattern))
  {
    if pattern == "" || pattern[0] != '/' {
      return Err(NotRooted);
    }
    if pattern == "/" {
      return Ok([]);
    }
    var segs := Split(pattern[1..], '/');
    var names: seq<string> := [];
    var seen: set<string> := {};
    var i := 0;
    while i < |segs|
      invariant 0 <= i <= |segs|
      invariant forall k :: 0 <= k < i ==> SegmentValid(segs[k], k == |segs| - 1)
      invariant names == Names(segs[..i])
      invariant Distinct(names)
      invariant forall n :: n in seen <==> n in names
    {
      var seg := segs[i];
      assert segs[..i+1] == segs[..i] + [seg];
      NamesAppend(segs[..i], seg);
      if seg == "" {
        if i != |segs| - 1 {
          return Err(EmptySegment);
        }
      } else if seg[0] == ':' || seg[0] == '*' {
        var name := seg[1..];
        if seg[0] == ':' && name == "" {
          return Err(UnnamedParam);
        }
        if seg[0] == '*' && i != |segs| - 1 {
          return Err(WildcardNotLast(seg));
        }
        if HasMark(name) {
          return Err(BadParam(seg));
        }
        if name == "" {
          name := "*";
        }
        if name in seen {
          NamesPrefix(segs, i + 1);
          ghost var all := Names(segs);
          assert all[|names|] == name && all[..|names|] == names;
          ghost var k :| 0 <= k < |names| && names[k] == name;
          assert all[k] == all[|names|];
          return Err(RepeatedParam(name));
        }
        seen := seen + {name};
        names := names + [name];
      } else if HasMark(seg) {
        return Err(MixedSegment(seg));
      }
      i := i + 1;
    }
    assert segs[..i] == segs;
    return Ok(names);
  }

  // --------------------------------------------------------------- meaning

  predicate Accepts(tok: Token, seg: string) {
    match tok
    case Static(text) => seg == text
    case Param => seg != ""
    case Wild => true
  }

  /** The tokens from i on serve the remaining path segments. */
  predicate Matches(shape: Shape, i: nat, segs: seq<string>)
    requires i <= |shape|
    decreases |shape| - i
  {
    if i == |shape| then segs == []
    else if segs == [] then false
    else if shape[i] == Wild then i + 1 == |shape|
    else Accepts(shape[i], segs[0]) && Matches(shape, i + 1, segs[1..])
  }

  /** What those tokens capture, in pattern order. */
  function Captures(shape: Shape, i: nat, segs: seq<string>): seq<string>
    requires i <= |shape| && Matches(shape, i, segs)
    decreases |shape| - i
  {
    if i == |shape| then []
    else match shape[i]
      case Wild => [Join(segs, '/')]
      case Param => [segs[0]] + Captures(shape, i + 1, segs[1..])
      case Static(_) => Captures(shape, i + 1, segs[1..])
  }

  predicate IsRoot(path: string) { path == "" || path == "/" }

  /** The request paths a pattern of this shape serves. The root path has no
      segments to match: only "/" and a lone wildcard serve it. */
  predicate Serves(shape: Shape, path: string) {
    if IsRoot(path) then shape == [] || shape == [Wild]
    else path[0] == '/' && Matches(shape, 0, Split(path[1..], '/'))
  }

  function Captured(shape: Shape, path: string): seq<string>
    requires Serves(shape, path)
  {
    if IsRoot(path) then (if shape == [] then [] else [""])
    else Captures(shape, 0, Split(path[1..], '/'))
  }

  // ------------------------------------------------------------ precedence

  function Rank(tok: Token): nat {
    match tok case Static(_) => 0 case Param => 1 case Wild => 2
  }

  /** Static before parameter before wildcard, compared left to right; a
      pattern that ends comes before one that goes on. */
  predicate Precedes(a: Shape, b: Shape, i: nat)
    requires i <= |a| && i <= |b|
    decreases |a| - i
  {
    if i == |a| then i < |b|
    else if i == |b| then false
    else if Rank(a[i]) != Rank(b[i]) then Rank(a[i]) < Rank(b[i])
    else Precedes(a, b, i + 1)
  }

  /** Of two patterns serving the same segments exactly one takes precedence,
      so "the best match" is a single shape. */
  lemma {:induction false} MatchesOrdered(a: Shape, b: Shape, i: nat, segs: seq<string>)
    requires i <= |a| && i <= |b| && a[..i] == b[..i]
    requires Matches(a, i, segs) && Matches(b, i, segs)
    ensures a == b || Precedes(a, b, i) != Precedes(b, a, i)
    ensures a == b ==> !Precedes(a, b, i)
    decreases |a| - i
  {
    if i < |a| && i < |b| && Rank(a[i]) == Rank(b[i]) {
      assert a[i] == b[i];
      if a[i] == Wild {
        assert a == a[..i] + [Wild] == b;
        assert Precedes(a, b, i) == Precedes(a, b, i + 1);
      } else {
        assert a[..i+1] == a[..i] + [a[i]] == b[..i+1];
        MatchesOrdered(a, b, i + 1, segs[1..]);
      }
    } else if i == |a| && i == |b| {
      assert a == a[..i] && b == b[..i];
    }
  }

  lemma ServersOrdered(a: Shape, b: Shape, path: string)
    requires Serves(a, path) && Serves(b, path)
    ensures a == b || Precedes(a, b, 0) != Precedes(b, a, 0)
    ensures a == b ==> !Precedes(a, b, 0)
  {
    if IsRoot(path) {
      if a == b == [Wild] { assert !Precedes(a, b, 1); }
    } else {
      MatchesOrdered(a, b, 0, Split(path[1..], '/'));
    }
  }

  /** Which of two patterns takes precedence is settled where they first differ:
      literal text comes before a parameter or wildcard, and a parameter before a
      wildcard. */
  lemma PrecedenceIs(a: Shape, b: Shape, path: string) returns (k: nat)
    requires Serves(a, path) && Serves(b, path) && a != b
    ensures k <= |a| && k <= |b| && a[..k] == b[..k]
    ensures if k < |a| && k < |b| then
        a[k] != b[k] && (Precedes(a, b, 0) <==> a[k].Static? || (a[k].Param? && b[k].Wild?))
      else IsRoot(path) && (Precedes(a, b, 0) <==> a == [])
  {
    if IsRoot(path) {
      k := 0;
    } else {
      k := FirstDifference(a, b, 0, Split(path[1..], '/'));
    }
  }

  lemma {:induction false} FirstDifference(a: Shape, b: Shape, i: nat, segs: seq<string>) returns (k: nat)
    requires i <= |a| && i <= |b| && a[..i] == b[..i] && a != b
    requires Matches(a, i, segs) && Matches(b, i, segs)
    ensures k < |a| && k < |b| && a[..k] == b[..k] && a[k] != b[k]
    ensures Precedes(a, b, i) <==> a[k].Static? || (a[k].Param? && b[k].Wild?)
    decreases |a| - i
  {
    AlikeOrAhead(a, b, i, segs);
    if a[i] != b[i] {
      k := i;
    } else {
      assert a[..i+1] == a[..i] + [a[i]] == b[..i+1];
      k := FirstDifference(a, b, i + 1, segs[1..]);
    }
  }

  lemma AlikeOrAhead(a: Shape, b: Shape, i: nat, segs: seq<string>)
    requires i <= |a| && i <= |b| && a[..i] == b[..i] && Matches(a, i, segs) && Matches(b, i, segs)
    ensures a == b || (i < |a| && i < |b| && (a[i] == b[i] ==> !a[i].Wild?))
  {
    if i == |a| || i == |b| {
      assert a == a[..i] && b == b[..i];
    } else if a[i] == b[i] == Wild {
      assert a == a[..i] + [Wild] == b;
    }
  }

  /** A pattern captures one value per declared name. */
  lemma {:induction false} CaptureCount(pattern: seq<string>, i: nat, segs: seq<string>)
    requires i <= |pattern| && Matches(Tokens(pattern), i, segs)
    ensures |Captures(Tokens(pattern), i, segs)| == |Names(pattern[i..])|
    decreases |pattern| - i
  {
    if i < |pattern| {
      assert pattern[i..][0] == pattern[i] && pattern[i..][1..] == pattern[i+1..];
      if TokenOf(pattern[i]) == Wild {
        assert pattern[i+1..] == [];
      } else {
        CaptureCount(pattern, i + 1, segs[1..]);
      }
    }
  }

  lemma CapturedCount(pattern: string, path: string)
    requires pattern != "" && Serves(ShapeOf(pattern), path)
    ensures |Captured(ShapeOf(pattern), path)| == |Names(Segments(pattern))|
  {
    var segs := Segments(pattern);
    assert segs[0..] == segs;
    if IsRoot(path) {
      if segs != [] {
        assert Tokens(segs)[0] == Wild;
        assert Names(segs[1..]) == [];
      }
    } else {
      CaptureCount(segs, 0, Split(path[1..], '/'));
    }
  }

  // ---------------------------------------------------------- URL building

  /** Names are at even places, each before its value; this is the last of k. */
  ghost predicate LastNamed(pairs: seq<string>, i: int, k: string) {
    && 0 <= i < |pairs| - 1 && i % 2 == 0 && pairs[i] == k
    && forall j :: i < j < |pairs| && j % 2 == 0 ==> pairs[j] != k
  }

  /** The last value given for each name. */
  function PairMap(pairs: seq<string>): map<string, string>
    requires |pairs| % 2 == 0
  {
    if pairs == [] then map[]
    else PairMap(pairs[..|pairs|-2])[pairs[|pairs|-2] := pairs[|pairs|-1]]
  }

  ghost predicate HasAll(segs: seq<string>, values: map<string, string>) {
    forall n :: n in Names(segs) ==> n in values
  }

  /** The values the pattern asks for, in pattern order. */
  ghost function Wanted(segs: seq<string>, values: map<string, string>): seq<string>
    requires HasAll(segs, values)
  {
    var names := Names(segs);
    seq(|names|, i requires 0 <= i < |names| => values[names[i]])
  }

  /** A value that fits a single segment. */
  predicate Plain(v: string) { v != "" && '/' !in v }

  /** Every ":param" of the pattern is given a non-empty, slash-free value. */
  ghost predicate ParamsPlain(segs: seq<string>, values: map<string, string>) {
    forall i :: 0 <= i < |segs| && IsParam(segs[i]) && NameOf(segs[i]) in values ==> Plain(values[NameOf(segs[i])])
  }

  function Fill(seg: string, values: map<string, string>): string {
    if TokenOf(seg).Static? || NameOf(seg) !in values then seg else values[NameOf(seg)]
  }

  lemma {:induction false} NameListed(segs: seq<string>, i: nat)
    requires i < |segs| && !TokenOf(segs[i]).Static?
    ensures NameOf(segs[i]) in Names(segs)
  {
    if i > 0 { NameListed(segs[1..], i - 1); }
  }

  lemma {:induction false} NameFrom(segs: seq<string>, n: string) returns (i: nat)
    requires n in Names(segs)
    ensures i < |segs| && !TokenOf(segs[i]).Static? && NameOf(segs[i]) == n
  {
    if !TokenOf(segs[0]).Static? && NameOf(segs[0]) == n {
      i := 0;
    } else {
      var j := NameFrom(segs[1..], n);
      i := j + 1;
    }
  }

  lemma WantedTail(segs: seq<string>, i: nat, values: map<string, string>)
    requires i < |segs| && HasAll(segs[i..], values)
    ensures HasAll(segs[i+1..], values)
    ensures TokenOf(segs[i]).Static? ==> Wanted(segs[i..], values) == Wanted(segs[i+1..], values)
    ensures !TokenOf(segs[i]).Static? ==> NameOf(segs[i]) in values
    ensures !TokenOf(segs[i]).Static? ==>
      Wanted(segs[i..], values) == [values[NameOf(segs[i])]] + Wanted(segs[i+1..], values)
  {
    var tail := segs[i..];
    assert tail[0] == segs[i] && tail[1..] == segs[i+1..];
    if !TokenOf(tail[0]).Static? { NameListed(tail, 0); }
  }

  lemma JoinPeel(out: seq<string>, i: nat)
    requires i + 1 < |out| && '/' !in out[i]
    ensures Split(Join(out[i..], '/'), '/') == [out[i]] + Split(Join(out[i+1..], '/'), '/')
  {
    var rest := out[i..];
    assert rest[0] == out[i] && rest[1..] == out[i+1..];
    var line := Join(rest, '/');
    assert line[..|out[i]|] == out[i] && line[|out[i]|+1..] == Join(rest[1..], '/');
    SplitAt(line, |out[i]|, '/');
  }

  /** Filling from segment i on gives text this pattern matches, with the same
      values, when the parameters are plain. */
  lemma {:induction false} FillMatches(segs: seq<string>, out: seq<string>, i: nat, values: map<string, string>)
    requires i < |segs| == |out| && HasAll(segs[i..], values)
    requires forall k :: 0 <= k < |segs| ==> SegmentValid(segs[k], k == |segs| - 1)
    requires Separate(segs, '/')
    requires forall k :: 0 <= k < |segs| ==> out[k] == Fill(segs[k], values)
    requires ParamsPlain(segs, values)
    ensures Matches(Tokens(segs), i, Split(Join(out[i..], '/'), '/'))
    ensures Captures(Tokens(segs), i, Split(Join(out[i..], '/'), '/')) == Wanted(segs[i..], values)
    decreases |segs| - i
  {
    WantedTail(segs, i, values);
    var parts := Split(Join(out[i..], '/'), '/');
    if i == |segs| - 1 {
      assert out[i..] == [out[i]] && Wanted(segs[i+1..], values) == [];
      if TokenOf(segs[i]) == Wild {
        JoinSplit(out[i], '/');
      } else {
        SplitWhole(out[i], '/');
        assert parts[1..] == [] && Matches(Tokens(segs), i + 1, []);
      }
    } else {
      JoinPeel(out, i);
      assert parts[1..] == Split(Join(out[i+1..], '/'), '/');
      FillMatches(segs, out, i + 1, values);
    }
  }

  /** A parameter only ever captures a plain value. */
  lemma {:induction false} CapturesPlain(segs: seq<string>, i: nat, parts: seq<string>, values: map<string, string>)
    requires i <= |segs| && HasAll(segs[i..], values) && Separate(parts, '/')
    requires Matches(Tokens(segs), i, parts)
    requires Captures(Tokens(segs), i, parts) == Wanted(segs[i..], values)
    ensures ParamsPlain(segs[i..], values)
    decreases |segs| - i
  {
    if i < |segs| {
      var tail := segs[i..];
      assert tail[0] == segs[i] && tail[1..] == segs[i+1..];
      if TokenOf(segs[i]) != Wild {
        var w, w' := Wanted(tail, values), Wanted(segs[i+1..], values);
        if IsParam(segs[i]) {
          NameListed(tail, 0);
          assert w == [values[NameOf(segs[i])]] + w';
          assert w[0] == parts[0] && w[1..] == w';
        } else {
          assert w == w';
        }
        CapturesPlain(segs, i + 1, parts[1..], values);
        forall k | 0 <= k < |tail| && IsParam(tail[k]) && NameOf(tail[k]) in values
          ensures Plain(values[NameOf(tail[k])])
        {
          if k > 0 { assert tail[k] == segs[i+1..][k-1]; }
        }
      } else {
        assert |tail| == 1;
      }
    }
  }

  lemma FilledServes(pattern: string, out: seq<string>, values: map<string, string>)
    requires ValidPattern(pattern) && pattern != "/"
    requires HasAll(Segments(pattern), values) && |out| == |Segments(pattern)|
    requires forall k :: 0 <= k < |out| ==> out[k] == Fill(Segments(pattern)[k], values)
    ensures var url := "/" + Join(out, '/');
      (Serves(ShapeOf(pattern), url) && Captured(ShapeOf(pattern), url) == Wanted(Segments(pattern), values))
      <==> ParamsPlain(Segments(pattern), values)
  {
    var segs := Segments(pattern);
    var url := "/" + Join(out, '/');
    assert segs[0..] == segs && out[0..] == out && url[1..] == Join(out, '/');
    JoinSplit(pattern[1..], '/');
    JoinSplit(url[1..], '/');
    if ParamsPlain(segs, values) {
      FillMatches(segs, out, 0, values);
      if IsRoot(url) { RootFill(segs, out, values); }
    }
    if Serves(ShapeOf(pattern), url) && Captured(ShapeOf(pattern), url) == Wanted(segs, values) {
      if IsRoot(url) {
        assert Tokens(segs)[0] == Wild;
      } else {
        CapturesPlain(segs, 0, Split(url[1..], '/'), values);
      }
    }
  }

  /** Only a lone wildcard can be filled into the root path. */
  lemma RootFill(segs: seq<string>, out: seq<string>, values: map<string, string>)
    requires |segs| == |out| > 0 && Join(out, '/') == "" && segs != [""]
    requires forall k :: 0 <= k < |segs| ==> out[k] == Fill(segs[k], values)
    requires Matches(Tokens(segs), 0, Split("", '/'))
    ensures Tokens(segs) == [Wild] && Captures([Wild], 0, Split("", '/')) == [""]
  {
    assert |out| == 1;
    assert Tokens(segs)[0] == TokenOf(segs[0]);
  }

  /** The parameter table buildURL reads its values from. */
  lemma {:induction false} PairMapIs(pairs: seq<string>, k: string)
    requires |pairs| % 2 == 0
    ensures forall i {:trigger LastNamed(pairs, i, k)} :: LastNamed(pairs, i, k) ==>
      k in PairMap(pairs) && PairMap(pairs)[k] == pairs[i+1]
    ensures k in PairMap(pairs) ==> exists i :: LastNamed(pairs, i, k)
  {
    if pairs != [] {
      var n := |pairs| - 2;
      var rest := pairs[..n];
      PairMapIs(rest, k);
      if pairs[n] == k {
        assert LastNamed(pairs, n, k);
      } else if i :| LastNamed(rest, i, k) {
        assert LastNamed(pairs, i, k);
      }
      forall i | LastNamed(pairs, i, k) && i < n ensures LastNamed(rest, i, k) {
        assert pairs[n] != k;
      }
    }
  }

  method CollectPairs(pairs: seq<string>) returns (values: map<string, string>)
    requires |pairs| % 2 == 0
    ensures values == PairMap(pairs)
  {
    values := map[];
    var i := 0;
    while i < |pairs|
      invariant 0 <= i <= |pairs| && i % 2 == 0
      invariant values == PairMap(pairs[..i])
    {
      assert pairs[..i+2][..i] == pairs[..i];
      values := values[pairs[i] := pairs[i+1]];
      i := i + 2;
    }
    assert pairs[..i] == pairs;
  }

  /** Overwrites the parameter segments with their values. */
  method FillSegments(original: seq<string>, values: map<string, string>)
    returns (r: Result<seq<string>, BuildError>)
    ensures r.Ok? <==> HasAll(original, values)
    ensures r.Ok? ==> |r.value| == |original| && forall k :: 0 <= k < |original| ==>
      r.value[k] == Fill(original[k], values)
    ensures r.Err? ==> r.error.MissingParam? && r.error.name in Names(original) && r.error.name !in values
  {
    var segs := original;
    var i := 0;
    while i < |segs|
      invariant 0 <= i <= |segs| == |original|
      invariant forall k :: i <= k < |segs| ==> segs[k] == original[k]
      invariant forall k :: 0 <= k < i ==> segs[k] == Fill(original[k], values)
      invariant forall k :: 0 <= k < i && !TokenOf(original[k]).Static? ==> NameOf(original[k]) in values
    {
      var seg := segs[i];
      if seg != "" && (seg[0] == ':' || seg[0] == '*') {
        var name := seg[1..];
        if name == "" {
          name := "*";
        }
        if name !in values {
          NameListed(original, i);
          return Err(MissingParam(name));
        }
        segs := segs[i := values[name]];
      }
      i := i + 1;
    }
    forall n | n in Names(original) ensures n in values {
      var k := NameFrom(original, n);
    }
    return Ok(segs);
  }

  /** route.buildURL, up to percent-encoding: the router matches on the decoded
      path, in which the escaping of a value has disappeared again. The built
      path is served by the pattern, capturing the given values, if and only
      if every ":param" was given a non-empty value without a slash. */
  method BuildURL(pattern: string, pairs: seq<string>) returns (r: Result<string, BuildError>)
    requires ValidPattern(pattern)
    ensures |pairs| % 2 != 0 ==> r == Err(OddPairs)
    ensures |pairs| % 2 == 0 ==> (r.Ok? <==> HasAll(Segments(pattern), PairMap(pairs)))
    ensures |pairs| % 2 == 0 && r.Err? ==>
      r.error.MissingParam? && r.error.name in Names(Segments(pattern)) && r.error.name !in PairMap(pairs)
    ensures r.Ok? ==>
      ((Serves(ShapeOf(pattern), r.value)
        && Captured(ShapeOf(pattern), r.value) == Wanted(Segments(pattern), PairMap(pairs)))
       <==> ParamsPlain(Segments(pattern), PairMap(pairs)))
  {
    if |pairs| % 2 != 0 {
      return Err(OddPairs);
    }
    var values := CollectPairs(pairs);
    if pattern == "/" {
      return Ok("/");
    }
    var filled := FillSegments(Split(pattern[1..], '/'), values);
    if filled.Err? {
      return Err(filled.error);
    }
    FilledServes(pattern, filled.value, values);
    return Ok("/" + Join(filled.value, '/'));
  }
}
