/** Decimal rendering of integers, as Go's `%d` verb prints them. */
module Decimal {
  import opened Wrappers

  function DigitChar(d: nat): char
    requires d < 10
  {
    ('0' as int + d) as char
  }

  predicate IsDigit(c: char) {
    '0' <= c <= '9'
  }

  function Digits(n: nat): (s: string)
    ensures s != ""
    ensures forall c :: c in s ==> IsDigit(c)
  {
    if n < 10 then [DigitChar(n)] else Digits(n / 10) + [DigitChar(n % 10)]
  }

  function Format(n: int): (s: string)
    ensures s != ""
    ensures forall c :: c in s ==> IsDigit(c) || c == '-'
  {
    if n < 0 then "-" + Digits(-n) else Digits(n)
  }

  // ----- what the digits are -----

  function Pow10(k: nat): (p: nat)
    ensures p > 0
  {
    if k == 0 then 1 else 10 * Pow10(k - 1)
  }

  lemma AtLeastOnce(e: nat, d: nat)
    requires e >= 1
    ensures e * d >= d
  {
  }

  lemma DivisionIsUnique(n: nat, d: nat, q: nat, r: nat)
    requires r < d && n == d * q + r
    ensures n / d == q
  {
    var e := n / d - q;
    assert e * d == r - n % d;
    if e >= 1 {
      AtLeastOnce(e, d);
    }
  }

  lemma DivideTwice(n: nat, m: nat)
    requires m > 0
    ensures n / 10 / m == n / (10 * m)
  {
    var q := n / 10 / m;
    DivisionIsUnique(n, 10 * m, q, 10 * (n / 10 % m) + n % 10);
  }

  /** `s` is `n` in decimal: no leading zero, enough digits, and at each place that power's digit. */
  predicate IsDecimal(s: string, n: nat) {
    && s != ""
    && (s[0] == '0' <==> n == 0)
    && (n == 0 ==> |s| == 1)
    && n < Pow10(|s|)
    && forall i :: 0 <= i < |s| ==> s[i] == "0123456789"[n / Pow10(|s| - 1 - i) % 10]
  }

  lemma {:induction false} DigitsExactly(n: nat)
    ensures IsDecimal(Digits(n), n)
  {
    DigitChars(n % 10);
    if n >= 10 {
      var s, init := Digits(n), Digits(n / 10);
      DigitsExactly(n / 10);
      forall i | 0 <= i < |s| ensures s[i] == "0123456789"[n / Pow10(|s| - 1 - i) % 10] {
        if i < |init| {
          DivideTwice(n, Pow10(|init| - 1 - i));
        }
      }
    } else {
      assert Pow10(1) == 10 * Pow10(0);
    }
  }

  lemma DigitChars(d: nat)
    requires d < 10
    ensures DigitChar(d) == "0123456789"[d]
  {
  }

  /** A minus sign for negative integers alone, then the magnitude in decimal. */
  lemma FormatExactly(n: int)
    ensures n >= 0 ==> IsDecimal(Format(n), n)
    ensures n < 0 ==> Format(n)[0] == '-' && IsDecimal(Format(n)[1..], -n)
  {
    if n < 0 {
      assert Format(n)[1..] == Digits(-n);
      DigitsExactly(-n);
    } else {
      DigitsExactly(n);
    }
  }

  // ----- reading them back -----

  function ParseDigits(s: string): Option<nat> {
    if s == "" then None
    else
      var c := s[|s| - 1];
      if !IsDigit(c) then None
      else
        var d := c as int - '0' as int;
        if |s| == 1 then Some(d)
        else
          match ParseDigits(s[..|s| - 1])
          case None => None
          case Some(n) => Some(10 * n + d)
  }

  function Parse(s: string): Option<int> {
    var negative := s != "" && s[0] == '-';
    var magnitude := ParseDigits(if negative then s[1..] else s);
    if magnitude.None? then None
    else if negative then Some(-(magnitude.value as int))
    else Some(magnitude.value)
  }

  lemma {:induction false} ParseDigitsOfDigits(n: nat)
    ensures ParseDigits(Digits(n)) == Some(n)
  {
    if n >= 10 {
      ParseDigitsOfDigits(n / 10);
      assert Digits(n)[..|Digits(n)| - 1] == Digits(n / 10);
    }
  }

  /** Printing and reading back an integer gives the integer. */
  lemma ParseOfFormat(n: int)
    ensures Parse(Format(n)) == Some(n)
  {
    if n < 0 {
      ParseDigitsOfDigits(-n);
      assert Format(n)[1..] == Digits(-n);
    } else {
      ParseDigitsOfDigits(n);
      assert Format(n)[0] in Digits(n);
    }
  }
}
