/** Python's `str` of an `int`: an optional minus sign followed by the decimal
    digits, without leading zeros. It builds the string that `ClipUser` hashes
    into its id and the integers of a rendered dict. */
module Decimal {
  import opened Wrappers

  predicate IsDigit(c: char) {
    '0' <= c <= '9'
  }

  predicate AllDigits(s: string) {
    forall i :: 0 <= i < |s| ==> IsDigit(s[i])
  }

  function DigitChar(d: nat): (c: char)
    requires d < 10
    ensures IsDigit(c)
  {
    ('0' as int + d) as char
  }

  function DigitValue(c: char): (d: nat)
    requires IsDigit(c)
    ensures d < 10 && DigitChar(d) == c
  {
    c as int - '0' as int
  }

  /** The digits of `n`, most significant first. */
  function Digits(n: nat): (s: string)
    ensures |s| > 0 && AllDigits(s)
    ensures |s| > 1 ==> s[0] != '0'
    decreases n
  {
    if n < 10 then [DigitChar(n)] else Digits(n / 10) + [DigitChar(n % 10)]
  }

  /** `str(n)` for a Python `int`. */
  function DecimalString(n: int): (s: string)
    ensures |s| > 0
    ensures s[0] == '-' <==> n < 0
  {
    if n < 0 then "-" + Digits(-n) else Digits(n)
  }

  /** The number a string of decimal digits denotes. */
  function DigitsValue(s: string): nat
    requires AllDigits(s)
  {
    if s == [] then 0 else DigitsValue(s[..|s| - 1]) * 10 + DigitValue(s[|s| - 1])
  }

  /** The length of the longest prefix of `t` made of digits. */
  function SpanDigits(t: string): (k: nat)
    ensures k <= |t| && AllDigits(t[..k])
    ensures k < |t| ==> !IsDigit(t[k])
  {
    if t == [] || !IsDigit(t[0]) then 0 else 1 + SpanDigits(t[1..])
  }

  /** Reads the longest run of digits from the front of `t`, if there is one,
      and returns its value with the rest of `t`. */
  function ParseDigitsPrefix(t: string): (r: Option<(nat, string)>)
    ensures r.Some? ==> |r.value.1| < |t|
  {
    var k := SpanDigits(t);
    if k == 0 then None else Some((DigitsValue(t[..k]), t[k..]))
  }

  /** Reads an integer literal as `DecimalString` writes it from the front of `t`
      and returns its value with the rest of `t`. */
  function ParseIntPrefix(t: string): (r: Option<(int, string)>)
    ensures r.Some? ==> |r.value.1| < |t|
  {
    if |t| > 0 && t[0] == '-' then
      match ParseDigitsPrefix(t[1..])
      case None => None
      case Some((m, rest)) => Some((-(m as int), rest))
    else
      match ParseDigitsPrefix(t)
      case None => None
      case Some((m, rest)) => Some((m as int, rest))
  }

  lemma {:induction false} DigitsValueOfDigits(n: nat)
    ensures DigitsValue(Digits(n)) == n
    decreases n
  {
    if n >= 10 {
      var s := Digits(n);
      assert s[..|s| - 1] == Digits(n / 10);
      DigitsValueOfDigits(n / 10);
    }
  }

  lemma {:induction false} SpanOfDigits(s: string, rest: string)
    requires AllDigits(s)
    requires rest == [] || !IsDigit(rest[0])
    ensures SpanDigits(s + rest) == |s|
  {
    if s != [] {
      assert (s + rest)[1..] == s[1..] + rest;
      SpanOfDigits(s[1..], rest);
    }
  }

  lemma ParseDigitsOfDigits(m: nat, rest: string)
    requires rest == [] || !IsDigit(rest[0])
    ensures ParseDigitsPrefix(Digits(m) + rest) == Some((m, rest))
  {
    var ds := Digits(m);
    SpanOfDigits(ds, rest);
    assert (ds + rest)[..|ds|] == ds && (ds + rest)[|ds|..] == rest;
    DigitsValueOfDigits(m);
  }

  lemma ParseNegative(m: nat, rest: string)
    requires rest == [] || !IsDigit(rest[0])
    ensures ParseIntPrefix(['-'] + (Digits(m) + rest)) == Some((-(m as int), rest))
  {
    var u := Digits(m) + rest;
    var t := ['-'] + u;
    assert t[0] == '-' && t[1..] == u;
    ParseDigitsOfDigits(m, rest);
  }

  lemma ParseNonNegative(m: nat, rest: string)
    requires rest == [] || !IsDigit(rest[0])
    ensures ParseIntPrefix(Digits(m) + rest) == Some((m as int, rest))
  {
    var ds := Digits(m);
    assert IsDigit(ds[0]);
    assert (ds + rest)[0] == ds[0];
    ParseDigitsOfDigits(m, rest);
  }

  /** Reading back what `DecimalString` wrote gives the number and the text
      that followed it, so `str` of an `int` loses nothing. */
  lemma DecimalRoundTrip(n: int, rest: string)
    requires rest == [] || !IsDigit(rest[0])
    ensures ParseIntPrefix(DecimalString(n) + rest) == Some((n, rest))
  {
    if n < 0 {
      MinusThen(n, rest);
      ParseNegative(-n, rest);
    } else {
      ParseNonNegative(n, rest);
    }
  }

  lemma MinusThen(n: int, rest: string)
    requires n < 0
    ensures DecimalString(n) + rest == ['-'] + (Digits(-n) + rest)
  {
  }

  /** `str` is injective on integers. */
  lemma DecimalStringInjective(m: int, n: int)
    requires DecimalString(m) == DecimalString(n)
    ensures m == n
  {
    DecimalRoundTrip(m, []);
    DecimalRoundTrip(n, []);
    assert DecimalString(m) + [] == DecimalString(m);
    assert DecimalString(n) + [] == DecimalString(n);
  }
}
