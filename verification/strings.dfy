/** The string helpers the core relies on: ASCII case folding (`strings.ToLower`)
    and decimal rendering of integers (`fmt.Sprintf("%d")`). */
module Strings {
  import opened Wrappers

  predicate IsUpper(c: char) {
    'A' <= c <= 'Z'
  }

  predicate IsDigit(c: char) {
    '0' <= c <= '9'
  }

  predicate HasUpper(s: string) {
    exists i :: 0 <= i < |s| && IsUpper(s[i])
  }

  /** Lower-cases one ASCII letter; every other character is left alone. */
  function LowerChar(c: char): (r: char)
    ensures !IsUpper(r)
    ensures !IsUpper(c) ==> r == c
    ensures IsUpper(c) ==> 'a' <= r <= 'z' && r as int - c as int == 'a' as int - 'A' as int
  {
    if IsUpper(c) then (c as int - 'A' as int + 'a' as int) as char else c
  }

  /** `strings.ToLower`, restricted to ASCII: the result has the same length,
      no upper-case letter, and differs from `s` only where `s` has one. */
  function ToLower(s: string): (r: string)
    ensures |r| == |s|
    ensures forall i :: 0 <= i < |s| ==> r[i] == LowerChar(s[i])
    ensures !HasUpper(r)
  {
    if s == [] then [] else [LowerChar(s[0])] + ToLower(s[1..])
  }

  /** Lower-casing an already lower-cased string changes nothing. */
  lemma ToLowerIdempotent(s: string)
    ensures ToLower(ToLower(s)) == ToLower(s)
  {
  }

  /** A string that still holds an upper-case letter is never the result of `ToLower`. */
  lemma ToLowerNeverYieldsUpper(s: string, key: string)
    requires HasUpper(key)
    ensures ToLower(s) != key
  {
  }

  function DigitChar(d: nat): (c: char)
    requires d < 10
    ensures IsDigit(c)
    ensures c as int - '0' as int == d
  {
    "0123456789"[d]
  }

  function DigitValue(c: char): (d: nat)
    requires IsDigit(c)
    ensures d < 10
  {
    c as int - '0' as int
  }

  predicate AllDigits(s: string) {
    forall i :: 0 <= i < |s| ==> IsDigit(s[i])
  }

  /** The shortest decimal spelling of `n`. */
  function NatToString(n: nat): (s: string)
    ensures |s| > 0 && AllDigits(s)
    decreases n
  {
    if n < 10 then [DigitChar(n)] else NatToString(n / 10) + [DigitChar(n % 10)]
  }

  /** The value of a string of decimal digits (0 for the empty string). */
  function DigitsValue(s: string): nat
    requires AllDigits(s)
  {
    if s == [] then 0 else DigitsValue(s[..|s| - 1]) * 10 + DigitValue(s[|s| - 1])
  }

  lemma {:induction false} NatToStringRoundTrip(n: nat)
    ensures DigitsValue(NatToString(n)) == n
    decreases n
  {
    var s := NatToString(n);
    if n >= 10 {
      NatToStringRoundTrip(n / 10);
      assert s[..|s| - 1] == NatToString(n / 10);
    }
  }

  /** The shape `%d` writes: an optional `-`, then at least one digit, with
      no leading zero; zero is the single digit `0`, never `-0`. */
  predicate Canonical(s: string) {
    var d := if |s| > 0 && s[0] == '-' then s[1..] else s;
    |d| > 0 && AllDigits(d) && (d[0] == '0' ==> |s| == 1)
  }

  /** The decimal spelling of a natural number starts with `0` only for zero. */
  lemma {:induction false} NatToStringNoLeadingZero(n: nat)
    ensures NatToString(n)[0] == '0' ==> n == 0
    decreases n
  {
    if n >= 10 {
      NatToStringNoLeadingZero(n / 10);
      assert NatToString(n)[0] == NatToString(n / 10)[0];
    }
  }

  /** A digit string with a non-zero leading digit has a positive value. */
  lemma {:induction false} LeadingDigitPositive(d: string)
    requires |d| > 0 && AllDigits(d) && d[0] != '0'
    ensures DigitsValue(d) >= 1
    decreases |d|
  {
    if |d| > 1 {
      LeadingDigitPositive(d[..|d| - 1]);
    }
  }

  /** A digit string without leading zeros is the spelling of its own value. */
  lemma {:induction false} DigitsCanonical(d: string)
    requires |d| > 0 && AllDigits(d) && (d[0] == '0' ==> |d| == 1)
    ensures NatToString(DigitsValue(d)) == d
    decreases |d|
  {
    var m := DigitsValue(d);
    var last := d[|d| - 1];
    if |d| == 1 {
      assert d[..0] == [] && DigitsValue(d[..0]) == 0;
      assert m == DigitValue(last);
      assert DigitChar(m) == last;
    } else {
      var front := d[..|d| - 1];
      LeadingDigitPositive(front);
      DigitsCanonical(front);
      assert m == DigitsValue(front) * 10 + DigitValue(last);
      assert m / 10 == DigitsValue(front) && m % 10 == DigitValue(last);
      assert DigitChar(m % 10) == last;
      assert d == front + [last];
    }
  }

  /** `fmt.Sprintf("%d", n)`: an optional minus sign, then the digits of |n|;
      `ParseInt` reads it back. */
  function IntToString(n: int): (s: string)
    ensures |s| > 0
    ensures forall i :: 0 <= i < |s| ==> IsDigit(s[i]) || (i == 0 && s[i] == '-')
    ensures (s[0] == '-') <==> n < 0
    ensures ParseInt(s) == Some(n)
    ensures Canonical(s)
  {
    if n < 0 then NegativeSpelling(-n); "-" + NatToString(-n)
    else NonNegativeSpelling(n); NatToString(n)
  }

  lemma NegativeSpelling(m: nat)
    requires m > 0
    ensures var s := "-" + NatToString(m);
      && (forall i :: 0 <= i < |s| ==> IsDigit(s[i]) || (i == 0 && s[i] == '-'))
      && ParseInt(s) == Some(-(m as int)) && Canonical(s)
  {
    var d := NatToString(m);
    var s := "-" + d;
    NatToStringRoundTrip(m);
    NatToStringNoLeadingZero(m);
    assert s[1..] == d;
  }

  lemma NonNegativeSpelling(n: nat)
    ensures var s := NatToString(n);
      && s[0] != '-' && ParseInt(s) == Some(n) && Canonical(s)
  {
    var d := NatToString(n);
    NatToStringRoundTrip(n);
    NatToStringNoLeadingZero(n);
    assert IsDigit(d[0]);
  }

  /** Reads back what `IntToString` writes; `None` for anything else. */
  function ParseInt(s: string): (r: Option<int>)
    ensures r.Some? ==> |s| > 0
  {
    if |s| > 0 && s[0] == '-' && |s| > 1 && AllDigits(s[1..]) then Some(-(DigitsValue(s[1..]) as int))
    else if |s| > 0 && AllDigits(s) then Some(DigitsValue(s))
    else None
  }

  /** `IntToString` is the only canonical spelling of its value: any string of
      the shape `%d` writes that reads back as `n` is `IntToString(n)`. */
  lemma {:induction false} IntToStringUnique(s: string, n: int)
    requires Canonical(s) && ParseInt(s) == Some(n)
    ensures s == IntToString(n)
  {
    if |s| > 0 && s[0] == '-' {
      NegativeUnique(s[1..]);
      assert s == "-" + s[1..];
    } else {
      NonNegativeUnique(s);
    }
  }

  /** A minus sign before digits without a leading zero is `IntToString` of the negated value. */
  lemma {:induction false} NegativeUnique(d: string)
    requires |d| > 0 && AllDigits(d) && d[0] != '0'
    ensures IntToString(-(DigitsValue(d) as int)) == "-" + d
  {
    LeadingDigitPositive(d);
    DigitsCanonical(d);
    NegativeRendering(d, DigitsValue(d));
  }

  /** A negative number is rendered as `-` and the digits of its magnitude. */
  lemma {:induction false} NegativeRendering(d: string, m: nat)
    requires m > 0 && NatToString(m) == d
    ensures IntToString(-(m as int)) == "-" + d
  {
  }

  /** Digits without a leading zero are `IntToString` of their value. */
  lemma {:induction false} NonNegativeUnique(d: string)
    requires |d| > 0 && AllDigits(d) && (d[0] == '0' ==> |d| == 1)
    ensures IntToString(DigitsValue(d)) == d
  {
    DigitsCanonical(d);
  }
}
