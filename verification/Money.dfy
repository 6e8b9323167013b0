/**
  Token amounts as text (cmd/obol/buy.go, internal/buy/balance.go): atomic units are printed
  with the fewest digits that keep them exact, and a budget is read back in atomic units.
*/
module Money {
  import opened Wrappers
  import opened Text
  import opened Decimal

  function Pow10(d: nat): (p: nat)
    ensures p > 0
  {
    if d == 0 then 1 else 10 * Pow10(d - 1)
  }

  /** Quotient and remainder. */
  function DivMod(v: nat, p: nat): (r: (nat, nat))
    requires p > 0
    ensures v == r.0 * p + r.1 && r.1 < p
  {
    (v / p, v % p)
  }

  lemma DivModUnique(v: nat, p: nat, q: nat)
    requires p > 0 && v == q * p
    ensures DivMod(v, p) == (q, 0)
  {
    var r := DivMod(v, p);
    assert (q - r.0) * p == r.1;
    MultipleBelow(q - r.0, p);
  }

  /** The only multiple of `p` in 0..p is 0. */
  lemma MultipleBelow(a: int, p: nat)
    requires 0 <= a * p < p
    ensures a == 0
  {
  }

  // ----- printing -----

  /** The last `width` digits of `n`, with leading zeros. */
  function Padded(n: nat, width: nat): string {
    if width == 0 then "" else Padded(n / 10, width - 1) + [DigitChar(n % 10)]
  }

  /** strings.TrimRight(s, "0") */
  function StripZeros(s: string): string {
    if s != "" && s[|s| - 1] == '0' then StripZeros(s[..|s| - 1]) else s
  }

  /** strings.TrimSuffix(s, ".") */
  function StripPoint(s: string): string {
    if s != "" && s[|s| - 1] == '.' then s[..|s| - 1] else s
  }

  /** big.Rat.FloatString of v / 10^d with d digits, which is exact. */
  function FloatString(v: nat, d: nat): string
    requires d > 0
  {
    var (whole, part) := DivMod(v, Pow10(d));
    Digits(whole) + ['.'] + Padded(part, d)
  }

  function Shortest(v: nat, d: nat): string
    requires d > 0
  {
    StripPoint(StripZeros(FloatString(v, d)))
  }

  /** formatTokenAmount */
  function FormatTokenAmount(v: Option<nat>, decimals: int): string {
    if v.None? then "?"
    else Shortest(v.value, if decimals <= 0 then 6 else decimals)
  }

  /** WalletInfo.HumanBalance */
  function HumanBalance(v: Option<nat>, decimals: int): string {
    if v.None? then "0"
    else if decimals <= 0 then Digits(v.value)
    else Shortest(v.value, decimals)
  }

  // ----- reading -----

  /** A plain decimal: its digits as a number, and how many of them follow the point. */
  function ParsePlain(s: string): Option<(nat, nat)> {
    match Cut(s, '.')
    case None => if s != "" && AllDigits(s) then Some((ValueOf(s), 0)) else None
    case Some((i, f)) => if i + f != "" && AllDigits(i + f) then Some((ValueOf(i + f), |f|)) else None
  }

  type Positive = n: nat | n > 0 witness 1

  datatype Ratio = Ratio(num: int, den: Positive)

  /** big.Rat.SetString; signs, exponents and fractions such as 1/4 are left to `other`. */
  function ParseRat(other: string -> Option<Ratio>, s: string): Option<Ratio> {
    match ParsePlain(s)
    case Some((m, k)) => Some(Ratio(m, Pow10(k)))
    case None => other(s)
  }

  /** budgetToBaseUnits for a token with `decimals` decimals. */
  function BudgetToBaseUnits(other: string -> Option<Ratio>, amount: string, decimals: nat): Result<nat> {
    var s := Trim(amount);
    if s == "" then Err("--budget is empty")
    else match ParseRat(other, s)
      case None => Err("not a valid number")
      case Some(r) =>
        if r.num <= 0 then Err("must be positive")
        else
          var (base, rest) := DivMod(r.num * Pow10(decimals), r.den);
          if rest != 0 then Err("more precision than the token supports") else Ok(base)
  }

  /** A budget is taken exactly or not at all. */
  lemma BudgetIsExactIff(other: string -> Option<Ratio>, amount: string, decimals: nat, units: nat)
    ensures BudgetToBaseUnits(other, amount, decimals) == Ok(units) <==>
            Trim(amount) != "" && ParseRat(other, Trim(amount)).Some? &&
            var r := ParseRat(other, Trim(amount)).value;
            r.num > 0 && units * r.den == r.num * Pow10(decimals)
  {
    var parsed := ParseRat(other, Trim(amount));
    if parsed.Some? && parsed.value.num > 0 {
      var v, p := parsed.value.num * Pow10(decimals), parsed.value.den;
      if units * p == v {
        DivModUnique(v, p, units);
      }
    }
  }

  // ----- digits -----

  lemma {:induction false} Pow10Add(a: nat, b: nat)
    ensures Pow10(a + b) == Pow10(a) * Pow10(b)
  {
    if a > 0 {
      Pow10Add(a - 1, b);
    }
  }

  lemma {:induction false} ValueAppend(a: string, b: string)
    requires AllDigits(a) && AllDigits(b)
    ensures AllDigits(a + b) && ValueOf(a + b) == ValueOf(a) * Pow10(|b|) + ValueOf(b)
  {
    if b == "" {
      assert a + b == a;
    } else {
      var init, last := b[..|b| - 1], b[|b| - 1];
      ValueAppend(a, init);
      assert (a + b)[..|a + b| - 1] == a + init;
      var d := last as int - '0' as int;
      assert ValueOf(a + b) == 10 * ValueOf(a + init) + d;
      ScaleStep(ValueOf(a), |init|, ValueOf(init), d);
    }
  }

  lemma ScaleStep(x: nat, n: nat, y: nat, d: int)
    ensures 10 * (x * Pow10(n) + y) + d == x * Pow10(n + 1) + (10 * y + d)
  {
    assert Pow10(n + 1) == 10 * Pow10(n);
    assert x * (10 * Pow10(n)) == 10 * (x * Pow10(n));
  }

  lemma {:induction false} PaddedValue(n: nat, width: nat)
    requires n < Pow10(width)
    ensures |Padded(n, width)| == width && AllDigits(Padded(n, width)) && ValueOf(Padded(n, width)) == n
  {
    if width > 0 {
      PaddedValue(n / 10, width - 1);
      var s := Padded(n, width);
      assert s[..|s| - 1] == Padded(n / 10, width - 1);
    }
  }

  lemma {:induction false} ZerosValue(a: string, z: string)
    requires AllDigits(a) && forall j :: 0 <= j < |z| ==> z[j] == '0'
    ensures AllDigits(a + z) && ValueOf(a + z) == ValueOf(a) * Pow10(|z|)
  {
    if z == "" {
      assert a + z == a;
    } else {
      var init := z[..|z| - 1];
      ZerosValue(a, init);
      assert (a + z)[..|a + z| - 1] == a + init;
      ScaleStep(ValueOf(a), |init|, 0, 0);
    }
  }

  /** Stripping ends right behind the last character that is no zero. */
  lemma {:induction false} StripZerosEnd(s: string) returns (k: nat)
    ensures k <= |s| && StripZeros(s) == s[..k]
    ensures k > 0 ==> s[k - 1] != '0'
    ensures forall j :: k <= j < |s| ==> s[j] == '0'
  {
    k := |s|;
    if s != "" && s[|s| - 1] == '0' {
      var init := s[..|s| - 1];
      k := StripZerosEnd(init);
      assert init[..k] == s[..k];
    } else {
      assert s[..k] == s;
    }
  }

  /** What is left of a fraction: `f` is `full` without its trailing zeros. */
  lemma StripFraction(i: string, full: string) returns (f: string, z: string)
    ensures full == f + z && (f != "" ==> f[|f| - 1] != '0') && forall j :: 0 <= j < |z| ==> z[j] == '0'
    ensures StripZeros(i + ['.'] + full) == i + ['.'] + f
  {
    var s, n := i + ['.'] + full, |i| + 1;
    var k := StripZerosEnd(s);
    assert s[n - 1] == '.' && s[n..] == full;
    f, z := full[..k - n], full[k - n..];
    assert z == s[k..];
    assert s[..k] == i + ['.'] + f;
  }

  /** A printed amount: an integer part, and a fraction without trailing zeros. */
  ghost predicate Shape(v: nat, d: nat, i: string, f: string) {
    i != "" && AllDigits(i) && AllDigits(f) && AllDigits(i + f) && |f| <= d && (f != "" ==> f[|f| - 1] != '0') &&
    ValueOf(i + f) * Pow10(d - |f|) == v
  }

  function Written(i: string, f: string): string {
    if f == "" then i else i + ['.'] + f
  }

  lemma StripPointShape(i: string, f: string)
    requires i != "" && (f != "" ==> f[|f| - 1] != '.')
    ensures StripPoint(i + ['.'] + f) == Written(i, f)
  {
    var s := i + ['.'] + f;
    if f == "" {
      assert s[|s| - 1] == '.' && s[..|s| - 1] == i;
    } else {
      assert s[|s| - 1] == f[|f| - 1];
    }
  }

  lemma DigitsAppend(a: string, b: string)
    ensures AllDigits(a + b) <==> AllDigits(a) && AllDigits(b)
  {
    if AllDigits(a + b) {
      assert forall j :: 0 <= j < |a| ==> a[j] == (a + b)[j];
      assert forall j :: 0 <= j < |b| ==> b[j] == (a + b)[|a| + j];
    }
  }

  lemma ShortestShape(v: nat, d: nat) returns (i: string, f: string)
    requires d > 0
    ensures Shape(v, d, i, f) && Shortest(v, d) == Written(i, f)
  {
    var (whole, part) := DivMod(v, Pow10(d));
    i := Digits(whole);
    var full := Padded(part, d);
    DigitsParse(whole);
    PaddedValue(part, d);
    var z;
    f, z := StripFraction(i, full);
    DigitsAppend(f, z);
    DigitsAppend(i, f);
    assert f != "" ==> IsDigit(f[|f| - 1]);
    StripPointShape(i, f);
    ValueAppend(i, full);
    ZerosValue(i + f, z);
    Regroup(i, f, z);
  }

  /** Printed amounts have no trailing fractional zero and no bare point. */
  lemma NoTrailingZero(v: nat, d: nat)
    requires d > 0
    ensures var s := Shortest(v, d); s != "" && s[|s| - 1] != '.' && ('.' in s ==> s[|s| - 1] != '0')
  {
    var i, f := ShortestShape(v, d);
    assert IsDigit(i[|i| - 1]) && (f != "" ==> IsDigit(f[|f| - 1]));
  }

  // ----- reading what was printed -----

  /** What a plain decimal stands for: its digits, scaled by how many follow the point. */
  lemma PlainDecimal(i: string, f: string)
    requires AllDigits(i) && AllDigits(i + f) && i + f != ""
    ensures ParsePlain(i + ['.'] + f) == Some((ValueOf(i + f), |f|))
  {
    CutAtPoint(i, f);
    PlainParts(i + ['.'] + f, i, f);
  }

  lemma CutAtPoint(i: string, f: string)
    requires AllDigits(i)
    ensures Cut(i + ['.'] + f, '.') == Some((i, f))
  {
    forall k | 0 <= k < |i|
      ensures i[k] != '.'
    {
      assert IsDigit(i[k]);
    }
    CutAt(i, f, '.');
  }

  lemma PlainParts(s: string, i: string, f: string)
    requires Cut(s, '.') == Some((i, f)) && i + f != "" && AllDigits(i + f)
    ensures ParsePlain(s) == Some((ValueOf(i + f), |f|))
  {
  }

  /** Without a point it is a whole number. */
  lemma PlainWhole(i: string)
    requires AllDigits(i) && i != ""
    ensures ParsePlain(i) == Some((ValueOf(i), 0))
  {
    NoPoint(i);
  }

  lemma ReadWritten(i: string, f: string)
    requires i != "" && AllDigits(i) && AllDigits(f)
    ensures AllDigits(i + f)
    ensures var s := Written(i, f); Trim(s) == s && s != "" && ParsePlain(s) == Some((ValueOf(i + f), |f|))
  {
    DigitsAppend(i, f);
    WrittenTrimmed(i, f);
    NoPoint(i);
    if f == "" {
      assert i + f == i;
    } else {
      CutAt(i, f, '.');
    }
  }

  lemma NoPoint(i: string)
    requires AllDigits(i)
    ensures Cut(i, '.') == None
  {
    CutNone(i, '.');
  }

  lemma WrittenTrimmed(i: string, f: string)
    requires i != "" && AllDigits(i) && AllDigits(f)
    ensures Trim(Written(i, f)) == Written(i, f)
  {
    var s := Written(i, f);
    assert IsDigit(s[0]) && IsDigit(s[|s| - 1]);
    TrimTrims(s);
  }

  lemma ScaleBack(m: nat, d: nat, k: nat, v: nat)
    requires k <= d && m * Pow10(d - k) == v
    ensures DivMod(m * Pow10(d), Pow10(k)) == (v, 0)
  {
    Pow10Add(d - k, k);
    assert m * (Pow10(d - k) * Pow10(k)) == (m * Pow10(d - k)) * Pow10(k);
    DivModUnique(m * Pow10(d), Pow10(k), v);
  }

  lemma WrittenReadsBack(other: string -> Option<Ratio>, v: nat, d: nat, i: string, f: string)
    requires v > 0 && Shape(v, d, i, f)
    ensures BudgetToBaseUnits(other, Written(i, f), d) == Ok(v)
  {
    ReadWritten(i, f);
    ScaleBack(ValueOf(i + f), d, |f|, v);
  }

  /** The decimals an amount is printed with. */
  function Shown(decimals: int): nat {
    if decimals <= 0 then 6 else decimals
  }

  /** Printing an amount and reading it back as a budget gives the same atomic units. */
  lemma PrintedAmountReadsBack(other: string -> Option<Ratio>, v: nat, decimals: int)
    requires v > 0
    ensures BudgetToBaseUnits(other, FormatTokenAmount(Some(v), decimals), Shown(decimals)) == Ok(v)
  {
    var i, f := ShortestShape(v, Shown(decimals));
    WrittenReadsBack(other, v, Shown(decimals), i, f);
  }

  /** The bare digits of an amount stand for that many whole tokens. */
  lemma DigitsAreWhole(other: string -> Option<Ratio>, v: nat, d: nat)
    requires v > 0
    ensures BudgetToBaseUnits(other, Digits(v), d) == Ok(v * Pow10(d))
  {
    DigitsParse(v);
    assert Digits(v) + "" == Digits(v) && Written(Digits(v), "") == Digits(v);
    ReadWritten(Digits(v), "");
    DivModUnique(v * Pow10(d), Pow10(0), v * Pow10(d));
  }

  lemma {:induction false} ZeroPadded(width: nat)
    ensures |Padded(0, width)| == width && forall j :: 0 <= j < width ==> Padded(0, width)[j] == '0'
  {
    if width > 0 {
      ZeroPadded(width - 1);
    }
  }

  lemma ZeroIsZero(d: nat)
    requires d > 0
    ensures Shortest(0, d) == Digits(0)
  {
    DivModUnique(0, Pow10(d), 0);
    ZeroPadded(d);
    var f, z := StripFraction("0", Padded(0, d));
    assert forall j :: 0 <= j < |f| ==> f[j] == Padded(0, d)[j];
    StripPointShape("0", "");
  }

  /**
    The two printers agree exactly when there is an amount, and the token has decimals or the
    amount is zero.
  */
  lemma SameTextIff(v: Option<nat>, decimals: int)
    ensures FormatTokenAmount(v, decimals) == HumanBalance(v, decimals) <==>
            v.Some? && (decimals > 0 || v.value == 0)
    ensures v.None? ==> FormatTokenAmount(v, decimals) == "?" && HumanBalance(v, decimals) == "0"
  {
    if v.Some? && decimals <= 0 {
      if v.value == 0 {
        ZeroIsZero(6);
      } else {
        BareDigitsDiffer(v.value, 6);
      }
    }
  }

  lemma BareDigitsDiffer(v: nat, d: nat)
    requires v > 0 && d > 0
    ensures Shortest(v, d) != Digits(v)
  {
    PrintedAmountReadsBack(_ => None, v, d);
    DigitsAreWhole(_ => None, v, d);
    Grows(v, d);
  }

  lemma Grows(v: nat, d: nat)
    requires v > 0 && d > 0
    ensures v * Pow10(d) > v
  {
    var p := Pow10(d - 1);
    assert Pow10(d) == 10 * p;
    assert v * (10 * p) == 10 * (v * p);
    assert v * p >= v;
  }
}
