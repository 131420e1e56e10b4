/** `i64::to_string` and `str::parse::<i64>`. */
module Decimal {
  import opened Text

  const MIN: int := -0x8000_0000_0000_0000
  const MAX: int := 0x7FFF_FFFF_FFFF_FFFF

  predicate IsI64(n: int) {
    MIN <= n <= MAX
  }

  predicate IsDigit(c: char) {
    '0' <= c <= '9'
  }

  predicate AllDigits(s: string) {
    forall k | 0 <= k < |s| :: IsDigit(s[k])
  }

  function Digit(d: nat): (c: char)
    requires d < 10
    ensures IsDigit(c)
  {
    (d + '0' as int) as char
  }

  function Digits(n: nat): (s: string)
    ensures |s| > 0 && AllDigits(s)
  {
    if n < 10 then [Digit(n)] else Digits(n / 10) + [Digit(n % 10)]
  }

  function ToString(n: int): (s: string)
    ensures |s| > 0 && forall k | 0 <= k < |s| :: IsDigit(s[k]) || s[k] == '-'
  {
    if n < 0 then "-" + Digits(-n) else Digits(n)
  }

  function Number(s: string): nat
    requires AllDigits(s)
  {
    if s == [] then 0 else Number(s[..|s| - 1]) * 10 + (s[|s| - 1] as int - '0' as int)
  }

  /** One optional sign, then at least one digit, and nothing outside the 64-bit range. */
  function Parse(s: string): (r: Option<int>)
    ensures r.Some? ==> IsI64(r.value)
  {
    var digits := if s != [] && (s[0] == '+' || s[0] == '-') then s[1..] else s;
    if digits == [] || !AllDigits(digits) then None
    else
      var n: int := if s[0] == '-' then -(Number(digits) as int) else Number(digits);
      if IsI64(n) then Some(n) else None
  }

  lemma {:induction false} NumberOfDigits(n: nat)
    ensures Number(Digits(n)) == n
  {
    if n >= 10 {
      NumberOfDigits(n / 10);
      var s := Digits(n);
      assert s[..|s| - 1] == Digits(n / 10);
    } else {
      assert [Digit(n)][..0] == [];
    }
  }

  lemma ParseNegative(n: int)
    requires n < 0 && IsI64(n)
    ensures Parse("-" + Digits(-n)) == Some(n)
  {
    var s := "-" + Digits(-n);
    assert s[0] == '-' && s[1..] == Digits(-n);
    NumberOfDigits(-n);
  }

  lemma ParsePositive(n: nat)
    requires IsI64(n)
    ensures Parse(Digits(n)) == Some(n)
  {
    NumberOfDigits(n);
  }

  lemma ParseToString(n: int)
    requires IsI64(n)
    ensures Parse(ToString(n)) == Some(n)
  {
    if n < 0 {
      ParseNegative(n);
    } else {
      ParsePositive(n);
    }
  }

  lemma ToStringInjective(m: int, n: int)
    requires IsI64(m) && IsI64(n) && ToString(m) == ToString(n)
    ensures m == n
  {
    ParseToString(m);
    ParseToString(n);
  }
}
