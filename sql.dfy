/**
 * The PostgreSQL behaviour the queries rely on: the cast of a text parameter
 * to an `integer` column, `ORDER BY name ASC` (byte-wise "C" collation),
 * `DISTINCT`, and `generate_series(lo, hi)` over integers.
 */
module Sql {
  import opened Wrappers
  import opened Seqs
  import Js

  const Int4Min: int := -0x8000_0000
  const Int4Max: int := 0x7fff_ffff

  // ---------------------------------------------------------------------
  // Casting a text parameter to int4
  // ---------------------------------------------------------------------

  /** The characters C's `isspace` accepts, which int4 input skips around the number. */
  predicate IsSpace(c: char) {
    c == ' ' || c == '\t' || c == '\n' || c == '\r' || c == '\U{0B}' || c == '\U{0C}'
  }

  predicate IsDigit(c: char) {
    '0' <= c <= '9'
  }

  predicate AllDigits(s: string) {
    forall i | 0 <= i < |s| :: IsDigit(s[i])
  }

  function TrimLeft(s: string): (r: string)
    ensures |r| <= |s| && r == s[|s| - |r|..]
    ensures r == [] || !IsSpace(r[0])
  {
    if s != [] && IsSpace(s[0]) then TrimLeft(s[1..]) else s
  }

  function TrimRight(s: string): (r: string)
    ensures |r| <= |s| && r == s[..|r|]
    ensures r == [] || !IsSpace(r[|r| - 1])
  {
    if s != [] && IsSpace(s[|s| - 1]) then TrimRight(s[..|s| - 1]) else s
  }

  /** The value of a string of decimal digits, most significant first. */
  function DigitsValue(s: string): nat
    requires AllDigits(s)
  {
    if s == [] then 0 else DigitsValue(s[..|s| - 1]) * 10 + (s[|s| - 1] as int - '0' as int)
  }

  /** The integer a signed digit string denotes, before any range check. */
  function SignedValue(t: string): Option<int> {
    if |t| > 0 && (t[0] == '-' || t[0] == '+') then
      var digits := t[1..];
      if digits != [] && AllDigits(digits) then
        var magnitude: int := DigitsValue(digits);
        Some(if t[0] == '-' then -magnitude else magnitude)
      else None
    else if t != [] && AllDigits(t) then Some(DigitsValue(t))
    else None
  }

  /**
   * `$1::integer` for a text parameter: surrounding white space is ignored,
   * an optional sign precedes one or more decimal digits, and the value must
   * fit in 32 bits. `None` is the error the server raises instead.
   */
  function CastInt4(s: string): (r: Option<int>)
    ensures r.Some? ==> Int4Min <= r.value <= Int4Max
  {
    match SignedValue(TrimRight(TrimLeft(s)))
    case Some(v) => if Int4Min <= v <= Int4Max then Some(v) else None
    case None => None
  }

  lemma {:induction false} NatTextValue(n: nat)
    ensures AllDigits(Js.NatText(n)) && DigitsValue(Js.NatText(n)) == n
    decreases n
  {
    var s := Js.NatText(n);
    if n >= 10 {
      NatTextValue(n / 10);
      assert s[..|s| - 1] == Js.NatText(n / 10);
    }
  }

  lemma {:induction false} SignedValueOfIntText(n: int)
    ensures SignedValue(Js.IntText(n)) == Some(n)
  {
    var s := Js.IntText(n);
    if n < 0 {
      NatTextValue(-n);
      assert s[1..] == Js.NatText(-n);
    } else {
      NatTextValue(n);
      assert s[0] != '-' && s[0] != '+';
    }
  }

  /**
   * The text a browser sends for an integer id, `String(n)`, casts back to
   * that id on the server whenever it fits in an int4 column.
   */
  lemma {:induction false} CastIntTextRoundTrip(n: int)
    requires Int4Min <= n <= Int4Max
    ensures CastInt4(Js.IntText(n)) == Some(n)
  {
    var s := Js.IntText(n);
    IntTextUntrimmed(n);
    assert TrimRight(TrimLeft(s)) == s;
    SignedValueOfIntText(n);
  }

  lemma IntTextUntrimmed(n: int)
    ensures TrimLeft(Js.IntText(n)) == Js.IntText(n)
    ensures TrimRight(Js.IntText(n)) == Js.IntText(n)
  {
    var s := Js.IntText(n);
    var digits := Js.NatText(if n < 0 then -n else n);
    assert s[|s| - 1] == digits[|digits| - 1];
    assert !IsSpace(s[0]) && !IsSpace(s[|s| - 1]);
  }

  // ---------------------------------------------------------------------
  // ORDER BY text ASC
  // ---------------------------------------------------------------------

  /** Byte-wise (code point) ordering of text, as under the "C" collation. */
  predicate TextLe(a: string, b: string) {
    if a == [] then true
    else if b == [] then false
    else if a[0] != b[0] then a[0] < b[0]
    else TextLe(a[1..], b[1..])
  }

  lemma {:induction false} TextLeTotal(a: string, b: string)
    ensures TextLe(a, b) || TextLe(b, a)
  {
    if a != [] && b != [] && a[0] == b[0] {
      TextLeTotal(a[1..], b[1..]);
    }
  }

  lemma {:induction false} TextLeTransitive(a: string, b: string, c: string)
    requires TextLe(a, b) && TextLe(b, c)
    ensures TextLe(a, c)
  {
    if a != [] && b != [] && c != [] && a[0] == b[0] && b[0] == c[0] {
      TextLeTransitive(a[1..], b[1..], c[1..]);
    }
  }

  /** Every pair of neighbours is in ascending order of `key`. */
  predicate SortedBy<T>(xs: seq<T>, key: T -> string) {
    forall i | 0 < i < |xs| :: TextLe(key(xs[i - 1]), key(xs[i]))
  }

  function InsertBy<T>(x: T, xs: seq<T>, key: T -> string): (r: seq<T>)
    requires SortedBy(xs, key)
    ensures SortedBy(r, key)
    ensures multiset(r) == multiset(xs) + multiset{x}
    ensures |r| == |xs| + 1
    ensures r != [] && (r[0] == x || (xs != [] && r[0] == xs[0]))
  {
    if xs == [] || TextLe(key(x), key(xs[0])) then
      [x] + xs
    else
      TextLeTotal(key(x), key(xs[0]));
      var rest := InsertBy(x, xs[1..], key);
      assert xs == [xs[0]] + xs[1..];
      [xs[0]] + rest
  }

  /** `ORDER BY key ASC` over a table's rows. */
  function SortBy<T>(xs: seq<T>, key: T -> string): (r: seq<T>)
    ensures SortedBy(r, key)
    ensures multiset(r) == multiset(xs)
    ensures |r| == |xs|
  {
    if xs == [] then []
    else
      assert xs == [xs[0]] + xs[1..];
      InsertBy(xs[0], SortBy(xs[1..], key), key)
  }

  // ---------------------------------------------------------------------
  // WHERE, DISTINCT and generate_series
  // ---------------------------------------------------------------------

  /** `WHERE p(row)`: the rows that satisfy `p`, in table order. */
  function Where<T(!new)>(xs: seq<T>, p: T -> bool): (r: seq<T>)
    ensures |r| <= |xs|
    ensures forall i | 0 <= i < |r| :: p(r[i])
    ensures forall x {:trigger multiset(r)[x]} :: multiset(r)[x] == if p(x) then multiset(xs)[x] else 0
  {
    if xs == [] then []
    else
      assert xs == [xs[0]] + xs[1..];
      (if p(xs[0]) then [xs[0]] else []) + Where(xs[1..], p)
  }

  // ---------------------------------------------------------------------
  // DISTINCT and generate_series
  // ---------------------------------------------------------------------

  /** `DISTINCT` over a column: each value once, in order of first appearance. */
  function Distinct<T(==)>(xs: seq<T>): (r: seq<T>)
    ensures NoDuplicates(r)
    ensures forall i | 0 <= i < |r| :: r[i] in xs
    ensures forall i | 0 <= i < |xs| :: xs[i] in r
  {
    if xs == [] then []
    else
      var rest := Distinct(xs[..|xs| - 1]);
      assert xs == xs[..|xs| - 1] + [xs[|xs| - 1]];
      if xs[|xs| - 1] in rest then rest else rest + [xs[|xs| - 1]]
  }

  /** `generate_series(lo, hi)`: every integer from lo to hi, ascending; nothing when lo > hi. */
  function Series(lo: int, hi: int): (r: seq<int>)
    ensures forall y :: y in r <==> lo <= y <= hi
    ensures |r| == if lo <= hi then hi - lo + 1 else 0
    decreases hi - lo
  {
    if lo > hi then [] else [lo] + Series(lo + 1, hi)
  }

  predicate StrictlyDescending(xs: seq<int>) {
    forall i | 0 < i < |xs| :: xs[i - 1] > xs[i]
  }

  function InsertDescending(x: int, xs: seq<int>): (r: seq<int>)
    requires StrictlyDescending(xs)
    ensures StrictlyDescending(r)
    ensures forall y :: y in r <==> y == x || y in xs
    ensures r != [] && (r[0] == x || (xs != [] && r[0] == xs[0]))
  {
    if xs == [] || x > xs[0] then [x] + xs
    else if x == xs[0] then xs
    else
      assert xs == [xs[0]] + xs[1..];
      [xs[0]] + InsertDescending(x, xs[1..])
  }

  /** `SELECT DISTINCT y ... ORDER BY y DESC` over a column of integers. */
  function DistinctDescending(xs: seq<int>): (r: seq<int>)
    ensures StrictlyDescending(r)
    ensures forall y :: y in r <==> y in xs
  {
    if xs == [] then []
    else
      assert xs == [xs[0]] + xs[1..];
      InsertDescending(xs[0], DistinctDescending(xs[1..]))
  }

  /** A strictly descending list never repeats a value. */
  lemma {:induction false} StrictlyDescendingDistinct(xs: seq<int>)
    requires StrictlyDescending(xs)
    ensures NoDuplicates(xs)
  {
    forall i, j | 0 <= i < j < |xs|
      ensures xs[i] > xs[j]
    {
      var k := i + 1;
      while k < j
        invariant i < k <= j
        invariant xs[i] > xs[k]
      {
        assert xs[k] > xs[k + 1];
        k := k + 1;
      }
    }
  }

  lemma {:induction false} DescendingHeadIsMax(xs: seq<int>)
    requires StrictlyDescending(xs) && xs != []
    ensures forall i | 0 < i < |xs| :: xs[i] < xs[0]
  {
    forall i | 0 < i < |xs|
      ensures xs[i] < xs[0]
    {
      var k := 1;
      while k < i
        invariant 1 <= k <= i
        invariant xs[k] < xs[0]
      {
        assert xs[k] > xs[k + 1];
        k := k + 1;
      }
    }
  }

  /** A strictly descending list is determined by the values it holds. */
  lemma {:induction false} DescendingDeterminedByValues(a: seq<int>, b: seq<int>)
    requires StrictlyDescending(a) && StrictlyDescending(b)
    requires forall y :: y in a <==> y in b
    ensures a == b
  {
    assert |a| == 0 <==> |b| == 0 by {
      if a != [] { assert a[0] in a; }
      if b != [] { assert b[0] in b; }
    }
    if a != [] {
      DescendingHeadIsMax(a);
      DescendingHeadIsMax(b);
      assert a[0] in b && b[0] in a;
      assert a[0] == b[0];
      forall y
        ensures y in a[1..] <==> y in b[1..]
      {
        assert y in a[1..] <==> y in a && y != a[0];
        assert y in b[1..] <==> y in b && y != b[0];
      }
      DescendingDeterminedByValues(a[1..], b[1..]);
      assert a == [a[0]] + a[1..] && b == [b[0]] + b[1..];
    }
  }
}
