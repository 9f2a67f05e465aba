/** Decimal digits: the value of a digit string, the rendering of a number
    (Rust's `Display` for integers) and Rust's `from_str` for integer types. */
module Decimal {
  import opened Wrappers

  predicate IsDigit(c: char) {
    '0' <= c <= '9'
  }

  function DigitValue(c: char): (d: nat)
    requires IsDigit(c)
    ensures d < 10
  {
    c as int - '0' as int
  }

  function DigitChar(d: nat): (c: char)
    requires d < 10
    ensures IsDigit(c) && DigitValue(c) == d
  {
    ('0' as int + d) as char
  }

  predicate AllDigits(s: string) {
    forall i | 0 <= i < |s| :: IsDigit(s[i])
  }

  function Pow10(k: nat): (r: nat)
    ensures r >= 1
  {
    if k == 0 then 1 else 10 * Pow10(k - 1)
  }

  lemma {:induction false} Pow10Mono(j: nat, k: nat)
    requires j <= k
    ensures Pow10(j) <= Pow10(k)
  {
    if j < k {
      Pow10Mono(j, k - 1);
    }
  }

  /** The number a digit string denotes (leading zeros allowed). */
  function Value(s: string): nat
    requires AllDigits(s)
  {
    if s == [] then 0 else 10 * Value(s[..|s| - 1]) + DigitValue(s[|s| - 1])
  }

  /** Rust's decimal rendering of an unsigned integer: no sign, no leading zeros. */
  function Show(n: nat): (r: string)
    ensures |r| >= 1 && AllDigits(r)
  {
    if n < 10 then [DigitChar(n)] else Show(n / 10) + [DigitChar(n % 10)]
  }

  /** Rendering a number and reading it back gives the number. */
  lemma {:induction false} ValueOfShow(n: nat)
    ensures Value(Show(n)) == n
  {
    if n >= 10 {
      var s := Show(n);
      assert s[..|s| - 1] == Show(n / 10);
      ValueOfShow(n / 10);
    }
  }

  /** A number below 10^k renders in at most k digits. */
  lemma {:induction false} ShowLength(n: nat, k: nat)
    requires k >= 1 && n < Pow10(k)
    ensures |Show(n)| <= k
  {
    if n >= 10 {
      ShowLength(n / 10, k - 1);
    }
  }

  /** A leading zero never appears in a rendering of more than one digit. */
  lemma {:induction false} ShowNoLeadingZero(n: nat)
    ensures |Show(n)| > 1 ==> Show(n)[0] != '0'
  {
    if n >= 10 {
      ShowNoLeadingZero(n / 10);
      if n / 10 < 10 {
        assert DigitValue(Show(n)[0]) == n / 10;
      }
    }
  }

  lemma {:induction false} ValueBound(s: string)
    requires AllDigits(s)
    ensures Value(s) < Pow10(|s|)
  {
    if s != [] {
      ValueBound(s[..|s| - 1]);
    }
  }

  /** Reading from the front: the first digit weighs 10^(|s|-1). */
  lemma {:induction false} ValueCons(s: string)
    requires AllDigits(s) && s != []
    ensures Value(s) == DigitValue(s[0]) * Pow10(|s| - 1) + Value(s[1..])
  {
    if |s| > 1 {
      var init := s[..|s| - 1];
      ValueCons(init);
      assert init[1..] == s[1..][..|s[1..]| - 1];
      assert init[0] == s[0];
      var d, p := DigitValue(s[0]), Pow10(|s| - 2);
      var last := DigitValue(s[|s| - 1]);
      assert s[1..][|s[1..]| - 1] == s[|s| - 1];
      assert Value(s[1..]) == 10 * Value(init[1..]) + last;
      assert Pow10(|s| - 1) == 10 * p;
      Distribute(d, p, Value(init[1..]), last);
    }
  }

  lemma Distribute(d: nat, p: nat, v: nat, last: nat)
    ensures 10 * (d * p + v) + last == d * (10 * p) + (10 * v + last)
  {
  }

  lemma ProductOfNats(a: nat, b: nat)
    ensures a * b >= 0
  {
  }

  /** Dropping leading digits never increases the value. */
  lemma {:induction false} ValueSuffixLe(s: string, k: nat)
    requires AllDigits(s) && k <= |s|
    ensures Value(s[k..]) <= Value(s)
  {
    if k > 0 {
      ValueCons(s);
      ProductOfNats(DigitValue(s[0]), Pow10(|s| - 1));
      assert s[1..][k - 1..] == s[k..];
      ValueSuffixLe(s[1..], k - 1);
    }
  }

  /** Rust's `from_str` for an unsigned integer type whose largest value is
      `max`: an optional `+`, then one or more digits, and the value in range. */
  function ParseNat(s: string, max: nat): (r: Option<nat>)
    ensures r.Some? ==> r.value <= max
    ensures r.Some? ==> exists k: nat | k <= 1 :: k <= |s| && AllDigits(s[k..]) && s[k..] != [] && r.value == Value(s[k..])
  {
    var d := if s != [] && s[0] == '+' then s[1..] else s;
    if d != [] && AllDigits(d) && Value(d) <= max then
      assert d == s[|s| - |d|..];
      Some(Value(d))
    else None
  }

  /** Rust's `from_str` for a signed integer type with range `min..=max`:
      an optional `+` or `-`, then one or more digits, and the value in range. */
  function ParseInt(s: string, min: int, max: int): (r: Option<int>)
    requires min <= 0 <= max
    ensures r.Some? ==> min <= r.value <= max
  {
    if s != [] && s[0] == '-' then
      var d := s[1..];
      if d != [] && AllDigits(d) && min <= 0 - Value(d) then Some(0 - Value(d)) else None
    else
      var d := if s != [] && s[0] == '+' then s[1..] else s;
      if d != [] && AllDigits(d) && Value(d) <= max then Some(Value(d)) else None
  }

  /** Rust's decimal rendering of a signed integer. */
  function ShowInt(i: int): (r: string)
    ensures r != [] && (i < 0 <==> r[0] == '-')
  {
    if i < 0 then "-" + Show(-i) else Show(i)
  }

  /** Parsing the rendering of an unsigned number in range gives it back. */
  lemma ParseNatOfShow(n: nat, max: nat)
    requires n <= max
    ensures ParseNat(Show(n), max) == Some(n)
  {
    ValueOfShow(n);
  }

  /** Parsing the rendering of a signed number in range gives it back. */
  lemma ParseIntOfShowInt(i: int, min: int, max: int)
    requires min <= 0 <= max && min <= i <= max
    ensures ParseInt(ShowInt(i), min, max) == Some(i)
  {
    if i < 0 {
      ParseNegative(-i, min, max);
    } else {
      ParseNonNegative(i, min, max);
    }
  }

  lemma ParseNegative(n: nat, min: int, max: int)
    requires min <= 0 <= max && 0 < n && min <= 0 - n
    ensures ParseInt("-" + Show(n), min, max) == Some(0 - n)
  {
    var s := "-" + Show(n);
    ValueOfShow(n);
    assert s[0] == '-';
    assert s[1..] == Show(n);
  }

  lemma ParseNonNegative(n: nat, min: int, max: int)
    requires min <= 0 <= max && n <= max
    ensures ParseInt(Show(n), min, max) == Some(n)
  {
    var s := Show(n);
    ValueOfShow(n);
    assert s[0] != '-' && s[0] != '+' by {
      assert IsDigit(s[0]);
    }
  }
}
