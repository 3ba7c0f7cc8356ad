/** Reports by position: what is said where, in which order, and how what is said
    of parts makes what is said of the whole. */
module Positions {
  import opened Common
  import opened Validate

  /** The indices that lead to a part, outermost first. */
  type Position = seq<nat>

  /** a comes before b in the order of parts, and neither is inside the other. */
  ghost predicate Earlier(a: Position, b: Position) {
    exists k :: 0 <= k < |a| && k < |b| && a[..k] == b[..k] && a[k] < b[k]
  }

  ghost predicate Sorted(cs: seq<Position>) { forall i, j :: 0 <= i < j < |cs| ==> Earlier(cs[i], cs[j]) }

  ghost predicate Listed(cs: seq<Position>, errors: seq<FieldError>, c: Position, e: FieldError) {
    exists i :: 0 <= i < |cs| && i < |errors| && cs[i] == c && errors[i] == e
  }

  /** What is said where. */
  type Saying = (Position, FieldError) -> bool

  /** The errors are what is said, in order of position, each once. */
  ghost predicate Full(says: Saying, errors: seq<FieldError>, cs: seq<Position>) {
    && |cs| == |errors| && Sorted(cs)
    && (forall k :: 0 <= k < |cs| ==> says(cs[k], errors[k]))
    && (forall c, e :: says(c, e) ==> Listed(cs, errors, c, e))
  }

  // ------------------------------------------------------ putting together

  lemma FullSame(says: Saying, other: Saying, errors: seq<FieldError>, cs: seq<Position>)
    requires Full(says, errors, cs) && forall c, e :: says(c, e) <==> other(c, e)
    ensures Full(other, errors, cs)
  {
  }

  function Prefixed(i: nat, cs: seq<Position>): seq<Position> { seq(|cs|, k requires 0 <= k < |cs| => [i] + cs[k]) }

  lemma EarlierInside(i: nat, a: Position, b: Position)
    requires Earlier(a, b)
    ensures Earlier([i] + a, [i] + b)
  {
    var k :| 0 <= k < |a| && k < |b| && a[..k] == b[..k] && a[k] < b[k];
    var a', b' := [i] + a, [i] + b;
    assert a'[..k+1] == [i] + a[..k] && b'[..k+1] == [i] + b[..k] && a'[k+1] < b'[k+1];
  }

  lemma EarlierItem(a: Position, b: Position)
    requires a != [] && b != [] && a[0] < b[0]
    ensures Earlier(a, b)
  {
    assert a[..0] == b[..0];
  }

  function Under(i: nat, says: Saying): Saying {
    (c: Position, e: FieldError) => c != [] && c[0] == i && says(c[1..], e)
  }

  function Either(one: Saying, two: Saying): Saying { (c: Position, e: FieldError) => one(c, e) || two(c, e) }

  lemma FullUnder(i: nat, says: Saying, errors: seq<FieldError>, cs: seq<Position>)
    requires Full(says, errors, cs)
    ensures Full(Under(i, says), errors, Prefixed(i, cs))
  {
    var all := Prefixed(i, cs);
    forall k, m | 0 <= k < m < |all| ensures Earlier(all[k], all[m]) { EarlierInside(i, cs[k], cs[m]); }
    forall k | 0 <= k < |all| ensures Under(i, says)(all[k], errors[k]) {
      assert all[k][1..] == cs[k];
    }
    forall c, e | Under(i, says)(c, e) ensures Listed(all, errors, c, e) {
      assert Listed(cs, errors, c[1..], e);
      var k :| 0 <= k < |cs| && cs[k] == c[1..] && errors[k] == e;
      assert all[k] == [i] + c[1..] == c;
    }
  }

  lemma FullEither(one: Saying, two: Saying, es: seq<FieldError>, cs: seq<Position>, es': seq<FieldError>,
    cs': seq<Position>)
    requires Full(one, es, cs) && Full(two, es', cs')
    requires forall k, m :: 0 <= k < |cs| && 0 <= m < |cs'| ==> Earlier(cs[k], cs'[m])
    ensures Full(Either(one, two), es + es', cs + cs')
  {
    var all, errors := cs + cs', es + es';
    forall c, e | Either(one, two)(c, e) ensures Listed(all, errors, c, e) {
      if one(c, e) {
        var k :| 0 <= k < |cs| && k < |es| && cs[k] == c && es[k] == e;
        assert all[k] == c && errors[k] == e;
      } else {
        var k :| 0 <= k < |cs'| && k < |es'| && cs'[k] == c && es'[k] == e;
        assert all[|cs|+k] == c && errors[|cs|+k] == e;
      }
    }
  }

  /** Positions with a smaller first index come first. */
  lemma FullNext(i: nat, one: Saying, two: Saying, es: seq<FieldError>, cs: seq<Position>, es': seq<FieldError>,
    cs': seq<Position>)
    requires Full(one, es, cs) && Full(two, es', cs')
    requires forall c, e :: two(c, e) ==> c != [] && c[0] > i
    ensures Full(Either(Under(i, one), two), es + es', Prefixed(i, cs) + cs')
  {
    FullUnder(i, one, es, cs);
    forall k, m | 0 <= k < |cs| && 0 <= m < |cs'| ensures Earlier(Prefixed(i, cs)[k], cs'[m]) {
      assert two(cs'[m], es'[m]);
      EarlierItem(Prefixed(i, cs)[k], cs'[m]);
    }
    FullEither(Under(i, one), two, es, Prefixed(i, cs), es', cs');
  }

  function Nothing(): Saying { (c: Position, e: FieldError) => false }

  lemma FullNothing(says: Saying)
    requires forall c, e :: !says(c, e)
    ensures Full(says, [], [])
  {
  }
}
