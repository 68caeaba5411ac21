/**
 * The few JavaScript value rules the handlers depend on: what `Number(...)`
 * can produce and how it compares, string truthiness and `||` defaults,
 * the truncating `%` operator, `String(n)` of an integer, and ASCII
 * upper-casing.
 */
module Js {
  import opened Wrappers

  /** A JavaScript number: NaN, an infinity, or a finite value. */
  datatype JsNumber = NaN | PosInfinity | NegInfinity | Finite(value: real)

  function FromInt(i: int): JsNumber {
    Finite(i as real)
  }

  /** `n < bound`; every comparison with NaN is false. */
  predicate LessThan(n: JsNumber, bound: real) {
    match n
    case NaN => false
    case PosInfinity => false
    case NegInfinity => true
    case Finite(v) => v < bound
  }

  /** `n > bound`; every comparison with NaN is false. */
  predicate GreaterThan(n: JsNumber, bound: real) {
    match n
    case NaN => false
    case PosInfinity => true
    case NegInfinity => false
    case Finite(v) => v > bound
  }

  /** A string-or-missing value is truthy when present and non-empty. */
  predicate Truthy(s: Option<string>) {
    s.Some? && s.value != ""
  }

  /** `s || fallback` for a string-or-missing `s`. */
  function OrElse(s: Option<string>, fallback: string): (r: string)
    ensures Truthy(s) ==> r == s.value
    ensures !Truthy(s) ==> r == fallback
  {
    if Truthy(s) then s.value else fallback
  }

  /**
   * JavaScript's `a % b` on integers: the remainder of division truncated
   * toward zero, so it takes the sign of `a` (Dafny's `%` never goes negative).
   */
  function Rem(a: int, b: int): (r: int)
    requires b != 0
    ensures a >= 0 ==> r == a % b
    ensures a < 0 ==> r == -((-a) % b)
  {
    if a >= 0 then a % b else -((-a) % b)
  }

  lemma RemBounds(a: int, b: int)
    requires b > 0
    ensures -b < Rem(a, b) < b
    ensures a >= 0 ==> 0 <= Rem(a, b)
    ensures a < 0 ==> Rem(a, b) <= 0
    ensures a < 0 && (-a) % b != 0 ==> Rem(a, b) < 0
    ensures (a - Rem(a, b)) % b == 0
  {
    if a >= 0 {
      assert a - Rem(a, b) == b * (a / b);
      MultipleMod(b, a / b);
    } else {
      var q := (-a) / b;
      assert -a == b * q + (-a) % b;
      assert a - Rem(a, b) == b * -q;
      MultipleMod(b, -q);
    }
  }

  /** A multiple of `b` leaves no remainder. */
  lemma MultipleMod(b: int, q: int)
    requires b > 0
    ensures (b * q) % b == 0
  {
    var x := b * q;
    var e := q - x / b;
    assert b * e == x % b;
    ProductBounds(b, e);
  }

  lemma ProductBounds(b: int, e: int)
    requires b > 0
    ensures e >= 1 ==> b * e >= b
    ensures e <= -1 ==> b * e <= -b
  {
    if e >= 1 {
      assert b * e == b * (e - 1) + b;
    } else if e <= -1 {
      assert b * e == b * (e + 1) - b;
    }
  }

  /** `t` occurs in `s` starting at index `i`. */
  predicate OccursAt(s: string, t: string, i: int) {
    0 <= i <= |s| - |t| && s[i..i + |t|] == t
  }

  /** `s.includes(t)`: `t` occurs in `s` as a contiguous run of characters. */
  function Includes(s: string, t: string): (r: bool)
    ensures r <==> exists i :: OccursAt(s, t, i)
  {
    IncludesFrom(s, t, 0)
  }

  /** The search behind `Includes`, from index `from` on. */
  function IncludesFrom(s: string, t: string, from: nat): (r: bool)
    ensures r <==> exists i :: from <= i && OccursAt(s, t, i)
    decreases |s| - from
  {
    if from > |s| - |t| then false
    else if OccursAt(s, t, from) then true
    else IncludesFrom(s, t, from + 1)
  }

  function DigitChar(d: nat): (c: char)
    requires d < 10
    ensures '0' <= c <= '9'
  {
    ['0', '1', '2', '3', '4', '5', '6', '7', '8', '9'][d]
  }

  /** `String(n)` of a non-negative integer: its decimal digits, no leading zero. */
  function NatText(n: nat): (s: string)
    ensures |s| > 0
    ensures forall i | 0 <= i < |s| :: '0' <= s[i] <= '9'
    ensures n >= 10 ==> s[0] != '0'
    decreases n
  {
    if n < 10 then [DigitChar(n)] else NatText(n / 10) + [DigitChar(n % 10)]
  }

  /** `String(n)` of an integer: a minus sign for negatives, then the digits. */
  function IntText(n: int): (s: string)
    ensures |s| > 0
    ensures n < 0 <==> s[0] == '-'
  {
    if n < 0 then "-" + NatText(-n) else NatText(n)
  }

  /** `toUpperCase` of one character, for ASCII letters only. */
  function UpperAscii(c: char): (u: char)
    ensures 'a' <= c <= 'z' ==> u as int == c as int - 32
    ensures !('a' <= c <= 'z') ==> u == c
    ensures 'a' <= c <= 'z' ==> 'A' <= u <= 'Z'
  {
    if 'a' <= c <= 'z' then (c as int - 32) as char else c
  }
}
