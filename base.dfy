/** Helpers shared by every renderer: an optional value, the decimal text of
    integers (as Rust's `Display` writes `usize` and `i128`), and counting one
    character in a text. */
module Base {

  datatype Option<+T> = None | Some(value: T)

  predicate IsDigit(c: char) {
    '0' <= c <= '9'
  }

  /** The character of one decimal digit. */
  function Digit(d: nat): (c: char)
    requires d < 10
    ensures IsDigit(c) && (c as int) - ('0' as int) == d
  {
    (('0' as int) + d) as char
  }

  function DigitValue(c: char): (d: nat)
    requires IsDigit(c)
    ensures d < 10
  {
    (c as int) - ('0' as int)
  }

  predicate AllDigits(s: string) {
    forall i :: 0 <= i < |s| ==> IsDigit(s[i])
  }

  /** Decimal text of a natural number, most significant digit first, with no
      leading zero. */
  function NatToDecimal(n: nat): (r: string)
    ensures |r| >= 1 && AllDigits(r)
    ensures r[0] == '0' ==> n == 0
    decreases n
  {
    if n < 10 then [Digit(n)] else NatToDecimal(n / 10) + [Digit(n % 10)]
  }

  /** Decimal text of an integer: a minus sign before the digits of its
      magnitude when it is negative. */
  function IntToDecimal(i: int): (r: string)
    ensures |r| >= 1
    ensures (r[0] == '-') <==> (i < 0)
    ensures AllDigits(if i < 0 then r[1..] else r)
  {
    if i < 0 then "-" + NatToDecimal(-i) else NatToDecimal(i)
  }

  /** The value a string of decimal digits denotes (the inverse of NatToDecimal). */
  function DecimalValue(s: string): nat
    requires AllDigits(s)
  {
    if s == [] then 0 else DecimalValue(s[..|s| - 1]) * 10 + DigitValue(s[|s| - 1])
  }

  /** The value of an optionally signed decimal text (the inverse of IntToDecimal). */
  function SignedDecimalValue(s: string): int
    requires |s| >= 1
    requires AllDigits(if s[0] == '-' then s[1..] else s)
  {
    if s[0] == '-' then -(DecimalValue(s[1..]) as int) else DecimalValue(s)
  }

  lemma {:induction false} NatDecimalRoundTrip(n: nat)
    ensures DecimalValue(NatToDecimal(n)) == n
    decreases n
  {
    var r := NatToDecimal(n);
    if n >= 10 {
      NatDecimalRoundTrip(n / 10);
      assert r[..|r| - 1] == NatToDecimal(n / 10);
      assert r[|r| - 1] == Digit(n % 10);
    }
  }

  lemma IntDecimalRoundTrip(i: int)
    ensures SignedDecimalValue(IntToDecimal(i)) == i
  {
    if i < 0 {
      assert IntToDecimal(i)[1..] == NatToDecimal(-i);
      NatDecimalRoundTrip(-i);
    } else {
      NatDecimalRoundTrip(i);
    }
  }

  /** Two integers with the same decimal text are equal. */
  lemma IntToDecimalInjective(i: int, j: int)
    requires IntToDecimal(i) == IntToDecimal(j)
    ensures i == j
  {
    IntDecimalRoundTrip(i);
    IntDecimalRoundTrip(j);
  }

  /** Number of occurrences of the character c in s. */
  function Count(c: char, s: string): nat {
    if s == [] then 0 else Count(c, s[..|s| - 1]) + (if s[|s| - 1] == c then 1 else 0)
  }

  /** A text holds c zero times exactly when c does not occur in it. */
  lemma {:induction false} CountZero(c: char, s: string)
    ensures (Count(c, s) == 0) <==> (c !in s)
    decreases |s|
  {
    if s != [] {
      var init := s[..|s| - 1];
      CountZero(c, init);
      assert s == init + [s[|s| - 1]];
    }
  }

  lemma {:induction false} CountConcat(c: char, a: string, b: string)
    ensures Count(c, a + b) == Count(c, a) + Count(c, b)
    decreases |b|
  {
    if b != [] {
      assert (a + b)[..|a + b| - 1] == a + b[..|b| - 1];
      CountConcat(c, a, b[..|b| - 1]);
    } else {
      assert a + b == a;
    }
  }

  /** A digit text and a signed decimal text hold no character other than
      '-' and the digits. */
  lemma DecimalHasOnly(i: int, c: char)
    requires c != '-' && !IsDigit(c)
    ensures c !in IntToDecimal(i)
  {
  }

  /** Concatenation regroups freely; stated once so that proofs about long
      texts need not rediscover it element by element. */
  lemma AppendAssoc(a: string, b: string, c: string)
    ensures (a + b) + c == a + (b + c)
  {
  }

  /** The texts f(x) of all elements of xs, concatenated in order. */
  function ConcatMap<T>(f: T -> string, xs: seq<T>): string {
    if xs == [] then "" else ConcatMap(f, xs[..|xs| - 1]) + f(xs[|xs| - 1])
  }

  lemma ConcatMapSingle<T>(f: T -> string, x: T)
    ensures ConcatMap(f, [x]) == f(x)
  {
    assert [x][..0] == [];
  }

  lemma {:induction false} ConcatMapAppend<T>(f: T -> string, a: seq<T>, b: seq<T>)
    ensures ConcatMap(f, a + b) == ConcatMap(f, a) + ConcatMap(f, b)
    decreases |b|
  {
    if b == [] {
      assert a + b == a;
    } else {
      var b' := b[..|b| - 1];
      assert (a + b)[..|a + b| - 1] == a + b';
      ConcatMapAppend(f, a, b');
    }
  }

  /** When every piece holds c exactly once, the whole holds it once per element. */
  lemma {:induction false} ConcatMapCount<T>(f: T -> string, xs: seq<T>, c: char)
    requires forall i :: 0 <= i < |xs| ==> Count(c, f(xs[i])) == 1
    ensures Count(c, ConcatMap(f, xs)) == |xs|
    decreases |xs|
  {
    if xs != [] {
      var init := xs[..|xs| - 1];
      assert ConcatMap(f, xs) == ConcatMap(f, init) + f(xs[|xs| - 1]);
      assert forall i :: 0 <= i < |init| ==> init[i] == xs[i];
      ConcatMapCount(f, init, c);
      CountConcat(c, ConcatMap(f, init), f(xs[|xs| - 1]));
    }
  }

  /** The pieces f(x) joined by sep: a separator between two neighbours,
      none before the first and none after the last. */
  function JoinMap<T>(f: T -> string, sep: string, xs: seq<T>): string {
    if |xs| == 0 then ""
    else if |xs| == 1 then f(xs[0])
    else JoinMap(f, sep, xs[..|xs| - 1]) + sep + f(xs[|xs| - 1])
  }

  /** Appending one element adds one separator (unless it is the first) and its piece. */
  lemma JoinMapSnoc<T>(f: T -> string, sep: string, xs: seq<T>, x: T)
    ensures JoinMap(f, sep, xs + [x]) == if xs == [] then f(x) else JoinMap(f, sep, xs) + sep + f(x)
  {
    assert (xs + [x])[..|xs|] == xs;
  }

  /** Joining a concatenation joins the two joins with one separator. */
  lemma {:induction false} JoinMapAppend<T>(f: T -> string, sep: string, a: seq<T>, b: seq<T>)
    requires a != [] && b != []
    ensures JoinMap(f, sep, a + b) == JoinMap(f, sep, a) + sep + JoinMap(f, sep, b)
    decreases |b|
  {
    var last := b[|b| - 1];
    var b' := b[..|b| - 1];
    assert a + b == (a + b') + [last];
    JoinMapSnoc(f, sep, a + b', last);
    if b' == [] {
      assert a + b' == a;
      assert b == [last];
    } else {
      JoinMapAppend(f, sep, a, b');
      assert b == b' + [last];
      JoinMapSnoc(f, sep, b', last);
    }
  }

  /** When pieces avoid c and the separator holds it once, a join of n
      pieces holds n - 1 of it. */
  lemma {:induction false} JoinMapCount<T>(f: T -> string, sep: string, xs: seq<T>, c: char)
    requires forall i :: 0 <= i < |xs| ==> Count(c, f(xs[i])) == 0
    requires Count(c, sep) == 1
    ensures Count(c, JoinMap(f, sep, xs)) == if xs == [] then 0 else |xs| - 1
    decreases |xs|
  {
    if |xs| > 1 {
      var init := xs[..|xs| - 1];
      assert forall i :: 0 <= i < |init| ==> init[i] == xs[i];
      JoinMapCount(f, sep, init, c);
      CountConcat(c, JoinMap(f, sep, init) + sep, f(xs[|xs| - 1]));
      CountConcat(c, JoinMap(f, sep, init), sep);
    }
  }

  /** A non-empty join ends with the piece of the last element. */
  lemma JoinMapEndsWithLast<T>(f: T -> string, sep: string, xs: seq<T>)
    requires xs != []
    ensures var j := JoinMap(f, sep, xs); var p := f(xs[|xs| - 1]); |p| <= |j| && j[|j| - |p|..] == p
  {
  }
}
