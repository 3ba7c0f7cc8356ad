/** Option, Result and reversal, and the handful of `strings` functions the framework's
    parsers rely on. Strings are sequences of bytes or characters; every
    delimiter used here is ASCII, so the distinction does not matter. */
module Common {
  datatype Option<+T> = None | Some(value: T)

  datatype Result<+T, +E> = Ok(value: T) | Err(error: E)

  lemma TakeNext<T>(s: seq<T>, i: nat)
    requires i < |s|
    ensures s[..i+1] == s[..i] + [s[i]]
  {
  }

  function Reversed<T>(s: seq<T>): seq<T> {
    if s == [] then [] else Reversed(s[1..]) + [s[0]]
  }

  lemma {:induction false} SubsetSize<T>(a: set<T>, b: set<T>)
    requires a <= b
    ensures |a| <= |b|
  {
    if a != {} {
      var x :| x in a;
      SubsetSize(a - {x}, b - {x});
    }
  }
}

module Text {

  /** strings.Split with a one-character separator: never empty. */
  function Split(s: string, sep: char): (parts: seq<string>)
    ensures |parts| >= 1
  {
    if s == "" then [""]
    else
      var rest := Split(s[1..], sep);
      if s[0] == sep then [""] + rest
      else [[s[0]] + rest[0]] + rest[1..]
  }

  /** strings.Join with a one-character separator. */
  function Join(parts: seq<string>, sep: char): string
  {
    if parts == [] then ""
    else if |parts| == 1 then parts[0]
    else parts[0] + [sep] + Join(parts[1..], sep)
  }

  /** No piece contains the separator. */
  ghost predicate Separate(parts: seq<string>, sep: char) {
    forall i :: 0 <= i < |parts| ==> sep !in parts[i]
  }

  /** Cutting at the first separator peels one piece off. */
  lemma {:induction false} SplitAt(s: string, i: nat, sep: char)
    requires i < |s| && s[i] == sep && sep !in s[..i]
    ensures Split(s, sep) == [s[..i]] + Split(s[i+1..], sep)
  {
    if i > 0 {
      assert s[1..][..i-1] == s[..i][1..];
      SplitAt(s[1..], i - 1, sep);
      assert s[1..][i..] == s[i+1..];
      assert [s[0]] + s[1..i] == s[..i];
    }
  }

  lemma {:induction false} SplitWhole(s: string, sep: char)
    requires sep !in s
    ensures Split(s, sep) == [s]
  {
    if s != "" {
      SplitWhole(s[1..], sep);
      assert [s[0]] + s[1..] == s;
    }
  }

  /** Joining undoes splitting, and the pieces are separator free. */
  lemma {:induction false} JoinSplit(s: string, sep: char)
    ensures Join(Split(s, sep), sep) == s
    ensures Separate(Split(s, sep), sep)
  {
    if s != "" {
      JoinSplit(s[1..], sep);
      var rest := Split(s[1..], sep);
      if s[0] != sep && |rest| > 1 {
        assert ([[s[0]] + rest[0]] + rest[1..])[1..] == rest[1..];
      }
    }
  }

  /** Splitting undoes joining of separator-free pieces. */
  lemma {:induction false} SplitJoin(parts: seq<string>, sep: char)
    requires parts != [] && Separate(parts, sep)
    ensures Split(Join(parts, sep), sep) == parts
  {
    if |parts| == 1 {
      SplitWhole(parts[0], sep);
    } else {
      SplitJoin(parts[1..], sep);
      var s := Join(parts, sep);
      assert s[..|parts[0]|] == parts[0] && s[|parts[0]|+1..] == Join(parts[1..], sep);
      SplitAt(s, |parts[0]|, sep);
    }
  }

  // ------------------------------------------------------ decimal numbers

  /** strconv.Itoa / FormatUint in base ten. */
  function Decimal(n: nat): (s: string)
    ensures |s| > 0
  {
    (if n < 10 then "" else Decimal(n / 10)) + [Digit(n % 10)]
  }

  function Digit(d: nat): char
    requires d < 10
  {
    '0' + d as char
  }

  function Worth(c: char): nat { if '0' <= c <= '9' then c as int - '0' as int else 0 }

  /** What a string of digits means; nothing is made of other characters. */
  function Number(s: string): nat {
    if s == "" then 0 else 10 * Number(s[..|s|-1]) + Worth(s[|s|-1])
  }

  predicate Digits(s: string) { forall i :: 0 <= i < |s| ==> '0' <= s[i] <= '9' }

  lemma NumberSnoc(front: string, d: nat)
    requires d < 10 && Digits(front)
    ensures Digits(front + [Digit(d)]) && Number(front + [Digit(d)]) == 10 * Number(front) + d
  {
    var s := front + [Digit(d)];
    assert s[..|s|-1] == front && s[|s|-1] == Digit(d);
  }

  lemma {:induction false} NumberDecimal(n: nat)
    ensures Digits(Decimal(n)) && Number(Decimal(n)) == n
  {
    var q, d := n / 10, n % 10;
    assert n == 10 * q + d;
    var front := if n < 10 then "" else Decimal(q);
    if n >= 10 { NumberDecimal(q); }
    assert Number(front) == q;
    NumberSnoc(front, d);
    assert Decimal(n) == front + [Digit(d)];
  }
}
