/** Small shared vocabulary: optional values, results with an error, and the
    decimal-digit arithmetic that the location strings and object ids use. */
module Prelude {

  datatype Option<+T> = None | Some(value: T) {
    function GetOr(default: T): (r: T)
      ensures Some? ==> r == value
      ensures None? ==> r == default
    {
      match this
      case Some(v) => v
      case None => default
    }
  }

  datatype Result<+T, +E> = Ok(value: T) | Err(error: E)

  /** A string is "truthy" in JavaScript exactly when it is not empty; an absent
      value (undefined) is falsy too. `x || d` therefore picks `d` for both. */
  function OrDefault(s: Option<string>, default: string): (r: string)
    ensures (s.Some? && s.value != "") ==> r == s.value
    ensures (s.None? || s == Some("")) ==> r == default
  {
    if s.Some? && s.value != "" then s.value else default
  }

  /** A default parameter value (`userId: string = '1'`) replaces only an absent
      argument; an empty string is passed through unchanged. */
  function ParamOrDefault(s: Option<string>, default: string): (r: string)
    ensures s.Some? ==> r == s.value
    ensures s.None? ==> r == default
  {
    if s.Some? then s.value else default
  }

  predicate IsDigit(c: char) {
    '0' <= c <= '9'
  }

  predicate AllDigits(s: string) {
    forall i :: 0 <= i < |s| ==> IsDigit(s[i])
  }

  function DigitValue(c: char): (d: nat)
    requires IsDigit(c)
    ensures d < 10
  {
    c as int - '0' as int
  }

  function DigitChar(d: nat): (c: char)
    requires d < 10
    ensures IsDigit(c) && DigitValue(c) == d
  {
    ('0' as int + d) as char
  }

  function Pow10(n: nat): (p: nat)
    ensures p >= 1
  {
    if n == 0 then 1 else 10 * Pow10(n - 1)
  }

  /** The value of a string of decimal digits, most significant digit first. */
  function DigitsValue(s: string): nat
    requires AllDigits(s)
  {
    if s == [] then 0 else DigitsValue(s[..|s| - 1]) * 10 + DigitValue(s[|s| - 1])
  }

  /** The shortest decimal spelling of `n` ("0" for zero), as JavaScript prints
      a non-negative integer. */
  function NatToDigits(n: nat): (s: string)
    ensures |s| >= 1 && AllDigits(s)
    ensures DigitsValue(s) == n
  {
    if n < 10 then [DigitChar(n)]
    else
      var prefix := NatToDigits(n / 10);
      var s := prefix + [DigitChar(n % 10)];
      assert s[..|s| - 1] == prefix;
      s
  }

  /** `n` written with exactly `width` digits, padded with leading zeros. */
  function PadDigits(n: nat, width: nat): (s: string)
    requires n < Pow10(width)
    ensures |s| == width && AllDigits(s)
    ensures DigitsValue(s) == n
  {
    if width == 0 then []
    else
      var prefix := PadDigits(n / 10, width - 1);
      var s := prefix + [DigitChar(n % 10)];
      assert s[..|s| - 1] == prefix;
      s
  }

  lemma AllDigitsAppend(a: string, b: string)
    requires AllDigits(a) && AllDigits(b)
    ensures AllDigits(a + b)
  {
    forall i | 0 <= i < |a + b| ensures IsDigit((a + b)[i]) {
      if i < |a| { assert (a + b)[i] == a[i]; } else { assert (a + b)[i] == b[i - |a|]; }
    }
  }

  lemma {:induction false} DigitsValueAppend(a: string, b: string)
    requires AllDigits(a) && AllDigits(b)
    ensures AllDigits(a + b)
    ensures DigitsValue(a + b) == DigitsValue(a) * Pow10(|b|) + DigitsValue(b)
    decreases |b|
  {
    AllDigitsAppend(a, b);
    if b == [] {
      assert a + b == a;
    } else {
      var b' := b[..|b| - 1];
      var c := b[|b| - 1];
      assert (a + b)[..|a + b| - 1] == a + b';
      assert (a + b)[|a + b| - 1] == c;
      DigitsValueAppend(a, b');
      assert DigitsValue(a + b) == DigitsValue(a + b') * 10 + DigitValue(c);
      assert DigitsValue(b) == DigitsValue(b') * 10 + DigitValue(c);
      assert Pow10(|b|) == Pow10(|b'|) * 10;
      ShiftDigit(DigitsValue(a), Pow10(|b'|), DigitsValue(b'), DigitValue(c));
    }
  }

  lemma ShiftDigit(x: int, p: int, y: int, d: int)
    ensures (x * p + y) * 10 + d == x * (p * 10) + (y * 10 + d)
  {
  }

  /** The values `f` gives to the elements it accepts, in order: the
      `xs.map(f).filter(x => x !== null)` idiom. */
  function KeepSome<T, U>(xs: seq<T>, f: T -> Option<U>): seq<U> {
    if xs == [] then [] else Kept(f(xs[0])) + KeepSome(xs[1..], f)
  }

  function Kept<U>(o: Option<U>): seq<U> {
    if o.Some? then [o.value] else []
  }

  lemma {:induction false} KeepSomeSound<T, U>(xs: seq<T>, f: T -> Option<U>, u: U)
    requires u in KeepSome(xs, f)
    ensures exists v :: v in xs && f(v) == Some(u)
  {
    assert xs != [];
    if f(xs[0]) == Some(u) {
      assert xs[0] in xs;
    } else {
      KeepSomeSound(xs[1..], f, u);
      var v :| v in xs[1..] && f(v) == Some(u);
      assert v in xs;
    }
  }

  lemma {:induction false} KeepSomeComplete<T, U>(xs: seq<T>, f: T -> Option<U>, v: T)
    requires v in xs && f(v).Some?
    ensures f(v).value in KeepSome(xs, f)
  {
    if xs[0] != v {
      assert v in xs[1..];
      KeepSomeComplete(xs[1..], f, v);
    }
  }

  lemma {:induction false} KeepSomeLength<T, U>(xs: seq<T>, f: T -> Option<U>)
    ensures |KeepSome(xs, f)| <= |xs|
  {
    if xs != [] {
      KeepSomeLength(xs[1..], f);
    }
  }

  /** How often `y` occurs in a list that starts with `x`. */
  lemma CountCons<T>(x: T, xs: seq<T>, y: T)
    ensures multiset([x] + xs)[y] == (if x == y then 1 else 0) + multiset(xs)[y]
  {
    assert multiset([x] + xs) == multiset{x} + multiset(xs);
  }

  lemma Assoc<U>(x: seq<U>, y: seq<U>, z: seq<U>)
    ensures x + (y + z) == x + y + z
  {
  }

  lemma {:induction false} KeepSomeAppend<T, U>(a: seq<T>, b: seq<T>, f: T -> Option<U>)
    ensures KeepSome(a + b, f) == KeepSome(a, f) + KeepSome(b, f)
  {
    if a == [] {
      assert a + b == b;
    } else {
      assert (a + b)[0] == a[0] && (a + b)[1..] == a[1..] + b;
      var h := Kept(f(a[0]));
      calc {
        KeepSome(a + b, f);
        h + KeepSome(a[1..] + b, f);
        { KeepSomeAppend(a[1..], b, f); }
        h + (KeepSome(a[1..], f) + KeepSome(b, f));
        { Assoc(h, KeepSome(a[1..], f), KeepSome(b, f)); }
        h + KeepSome(a[1..], f) + KeepSome(b, f);
      }
    }
  }

  /** `xs.filter(p)`. */
  function Filter<T>(xs: seq<T>, p: T -> bool): seq<T> {
    if xs == [] then [] else (if p(xs[0]) then [xs[0]] else []) + Filter(xs[1..], p)
  }

  lemma {:induction false} FilterMembers<T>(xs: seq<T>, p: T -> bool)
    ensures |Filter(xs, p)| <= |xs|
    ensures forall x :: x in Filter(xs, p) <==> x in xs && p(x)
  {
    if xs != [] {
      FilterMembers(xs[1..], p);
      assert xs == [xs[0]] + xs[1..];
    }
  }

  /** A weaker test keeps at least as many elements. */
  lemma {:induction false} FilterWeaker<T>(xs: seq<T>, p: T -> bool, q: T -> bool)
    requires forall x :: p(x) ==> q(x)
    ensures |Filter(xs, p)| <= |Filter(xs, q)|
  {
    if xs != [] {
      FilterWeaker(xs[1..], p, q);
    }
  }

  /** Two tests that never both hold split what their disjunction keeps. */
  lemma {:induction false} FilterDisjoint<T>(xs: seq<T>, p: T -> bool, q: T -> bool, r: T -> bool)
    requires forall x :: r(x) == (p(x) || q(x))
    requires forall x :: !(p(x) && q(x))
    ensures |Filter(xs, r)| == |Filter(xs, p)| + |Filter(xs, q)|
  {
    if xs != [] {
      FilterDisjoint(xs[1..], p, q, r);
    }
  }

  /** A test that holds everywhere keeps everything. */
  lemma {:induction false} FilterAll<T>(xs: seq<T>, p: T -> bool)
    requires forall x :: p(x)
    ensures Filter(xs, p) == xs
  {
    if xs != [] {
      FilterAll(xs[1..], p);
    }
  }
}
