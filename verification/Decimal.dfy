/** Decimal numerals, as big.Int reads and prints them in base 10. */
module Decimal {
  import opened Wrappers

  function DigitChar(d: nat): char
    requires d < 10
  {
    '0' + d as char
  }

  predicate IsDigit(c: char) {
    '0' <= c <= '9'
  }

  predicate AllDigits(s: string) {
    forall i :: 0 <= i < |s| ==> IsDigit(s[i])
  }

  function Digits(n: nat): string {
    if n < 10 then [DigitChar(n)] else Digits(n / 10) + [DigitChar(n % 10)]
  }

  function ValueOf(s: string): nat
    requires AllDigits(s)
  {
    if s == "" then 0 else 10 * ValueOf(s[..|s| - 1]) + (s[|s| - 1] as int - '0' as int)
  }

  function ParseNat(s: string): Option<nat> {
    if s != "" && AllDigits(s) then Some(ValueOf(s)) else None
  }

  function Signed(negative: bool, n: Option<nat>): Option<int> {
    match n
    case None => None
    case Some(v) => var i: int := v; Some(if negative then -i else i)
  }

  /** big.Int.SetString: digits after an optional sign. */
  function ParseInt(s: string): Option<int> {
    if s != "" && (s[0] == '-' || s[0] == '+') then Signed(s[0] == '-', ParseNat(s[1..]))
    else Signed(false, ParseNat(s))
  }

  lemma {:induction false} DigitsParse(n: nat)
    ensures Digits(n) != "" && AllDigits(Digits(n)) && ValueOf(Digits(n)) == n
  {
    if n >= 10 {
      DigitsParse(n / 10);
      var s := Digits(n);
      assert s[..|s| - 1] == Digits(n / 10);
    }
  }

  lemma PrintThenParse(n: nat)
    ensures ParseInt(Digits(n)) == Some(n)
  {
    DigitsParse(n);
    assert IsDigit(Digits(n)[0]);
  }
}
