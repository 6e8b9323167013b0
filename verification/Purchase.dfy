/** The amounts of `obol buy inference` (cmd/obol/buy.go). */
module Purchase {
  import opened Wrappers
  import opened Text
  import opened Decimal
  import opened Money

  const TOKENS_PER_REQUEST: nat := 1000
  const MARKUP_BPS: nat := 5000
  const MAX_AUTHS: nat := 1000
  const PERMIT2_AUTHS: nat := 500

  /** authMultiplier: a price per million tokens is paid in requests of a thousand. */
  function AuthMultiplier(perMTok: bool): nat {
    if perMTok then TOKENS_PER_REQUEST else 1
  }

  /** authCapForEntry */
  function AuthCap(permit2: bool): nat {
    if permit2 then PERMIT2_AUTHS else MAX_AUTHS
  }

  /** applyAuthCap */
  function ApplyAuthCap(permit2: bool, requested: nat): nat {
    if requested <= AuthCap(permit2) then requested else AuthCap(permit2)
  }

  /** pricePerAuth */
  function PricePerAuth(price: nat, multiplier: nat): Result<nat> {
    if price == 0 then Err("price is non-positive")
    else if multiplier <= 1 then Ok(price)
    else if DivMod(price, multiplier).0 == 0 then Err("rounds to zero")
    else Ok(DivMod(price, multiplier).0)
  }

  /** resolveBudget: the exact total to sign; an explicit budget only has to cover it. */
  function ResolveBudget(other: string -> Option<Ratio>, flag: string, decimals: nat, auths: nat,
      perAuth: nat): Result<nat> {
    if auths == 0 || perAuth == 0 then Err("auth count or price is non-positive")
    else
      var required := perAuth * auths;
      if Trim(flag) == "" then Ok(required)
      else match BudgetToBaseUnits(other, flag, decimals)
        case Err(e) => Err(e)
        case Ok(budget) => if budget < required then Err("below the requested cost") else Ok(required)
  }

  /** resolveCostCap without a flag. */
  function DefaultCostCap(price: nat, autoRefill: bool): Option<nat> {
    if !autoRefill || price == 0 then None else Some(DivMod(price * (10000 + MARKUP_BPS), 10000).0)
  }

  /** The cost cap as buy.py gets it, per request. */
  function CostCapPassedOn(cap: nat, perMTok: bool): nat {
    if cap > 0 && perMTok then DivMod(cap, TOKENS_PER_REQUEST).0 else cap
  }

  datatype Order = Order(auths: nat, perAuth: nat, total: nat)

  /** The part of runBuyInference that settles what is signed. */
  function Settle(other: string -> Option<Ratio>, price: nat, perMTok: bool, count: nat, permit2: bool, flag: string,
      decimals: nat): Result<Order> {
    var multiplier := AuthMultiplier(perMTok);
    var auths := ApplyAuthCap(permit2, count * multiplier);
    match PricePerAuth(price, multiplier)
    case Err(e) => Err(e)
    case Ok(perAuth) =>
      match ResolveBudget(other, flag, decimals, auths, perAuth)
      case Err(e) => Err(e)
      case Ok(total) => Ok(Order(auths, perAuth, total))
  }

  lemma Scaled(a: nat, b: nat, c: nat)
    requires a <= b
    ensures a * c <= b * c
  {
  }

  lemma PerAuthBounds(price: nat, multiplier: nat)
    requires multiplier > 0 && PricePerAuth(price, multiplier).Ok?
    ensures var perAuth := PricePerAuth(price, multiplier).value;
            perAuth > 0 && perAuth * multiplier <= price < (perAuth + 1) * multiplier
  {
  }

  lemma Rounded(count: nat, multiplier: nat, perAuth: nat, price: nat)
    requires perAuth * multiplier <= price < (perAuth + 1) * multiplier
    ensures (count * multiplier) * perAuth <= count * price
    ensures count > 0 ==> count * price - (count * multiplier) * perAuth < count * multiplier
  {
    var loss := price - perAuth * multiplier;
    assert (count * multiplier) * perAuth == count * (perAuth * multiplier);
    assert count * price == count * (perAuth * multiplier) + count * loss;
    assert (perAuth + 1) * multiplier == perAuth * multiplier + multiplier;
    Scaled(loss + 1, multiplier, count);
  }

  /**
    What is signed is auths times the per-auth price, within the quoted price of the count,
    the signing limit and the user's budget; uncapped, rounding loses less than one atomic
    unit per request.
  */
  lemma SignedTotal(other: string -> Option<Ratio>, price: nat, perMTok: bool, count: nat, permit2: bool,
      flag: string, decimals: nat)
    requires Settle(other, price, perMTok, count, permit2, flag, decimals).Ok?
    ensures var o := Settle(other, price, perMTok, count, permit2, flag, decimals).value;
            var multiplier := AuthMultiplier(perMTok);
            o.total == o.perAuth * o.auths && o.total > 0 && o.total <= count * price &&
            o.auths == Least(count * multiplier, AuthCap(permit2)) && o.total <= AuthCap(permit2) * o.perAuth &&
            (Trim(flag) != "" ==>
              BudgetToBaseUnits(other, flag, decimals).Ok? &&
              o.total <= BudgetToBaseUnits(other, flag, decimals).value) &&
            (count * multiplier <= AuthCap(permit2) ==> count * price - o.total < count * multiplier)
  {
    var multiplier := AuthMultiplier(perMTok);
    var o := Settle(other, price, perMTok, count, permit2, flag, decimals).value;
    PerAuthBounds(price, multiplier);
    Rounded(count, multiplier, o.perAuth, price);
    Scaled(o.auths, count * multiplier, o.perAuth);
    Scaled(o.auths, AuthCap(permit2), o.perAuth);
    assert o.perAuth * o.auths == o.auths * o.perAuth;
    assert o.total > 0 by {
      Scaled(1, o.auths, o.perAuth);
    }
  }

  /**
    When a purchase is settled: there is something to buy, at a price that does not round to
    zero, and the budget covers it.
  */
  lemma SettledIff(other: string -> Option<Ratio>, price: nat, perMTok: bool, count: nat, permit2: bool, flag: string,
      decimals: nat)
    ensures var multiplier := if perMTok then 1000 else 1;
            var auths := Least(count * multiplier, if permit2 then 500 else 1000);
            Settle(other, price, perMTok, count, permit2, flag, decimals).Ok? <==>
            price >= multiplier && count > 0 &&
            (Trim(flag) != "" ==>
              BudgetToBaseUnits(other, flag, decimals).Ok? &&
              BudgetToBaseUnits(other, flag, decimals).value >= DivMod(price, multiplier).0 * auths)
  {
    var multiplier := AuthMultiplier(perMTok);
    var q := DivMod(price, multiplier);
    if price < multiplier {
      DivModUnique(0, multiplier, 0);
      if q.0 > 0 {
        Scaled(1, q.0, multiplier);
      }
    }
    if count > 0 {
      Scaled(1, count, multiplier);
    }
    if multiplier == 1 {
      DivModUnique(price, 1, price);
    }
  }

  lemma DivModMonotone(a: nat, b: nat, p: nat)
    requires p > 0 && a <= b
    ensures DivMod(a, p).0 <= DivMod(b, p).0
  {
    var q, r := DivMod(a, p), DivMod(b, p);
    assert (r.0 + 1) * p == r.0 * p + p;
    if q.0 > r.0 {
      Scaled(r.0 + 1, q.0, p);
    }
  }

  /** The default cost cap, as passed on, never turns the current price down. */
  lemma DefaultCapAdmitsPrice(price: nat, perMTok: bool)
    requires PricePerAuth(price, AuthMultiplier(perMTok)).Ok?
    ensures DefaultCostCap(price, true).Some?
    ensures CostCapPassedOn(DefaultCostCap(price, true).value, perMTok) >=
            PricePerAuth(price, AuthMultiplier(perMTok)).value
  {
    var cap := DefaultCostCap(price, true).value;
    DivModUnique(price * 10000, 10000, price);
    DivModMonotone(price * 10000, price * (10000 + MARKUP_BPS), 10000);
    assert cap >= price;
    DivModMonotone(price, cap, TOKENS_PER_REQUEST);
  }

  function Least(a: nat, b: nat): nat {
    if a <= b then a else b
  }

  /** The default cost cap is the price and a half, rounded down; it is passed on per request. */
  lemma DefaultCapIs(price: nat, perMTok: bool)
    ensures DefaultCostCap(price, false) == None && DefaultCostCap(0, true) == None
    ensures price > 0 ==>
              var cap := DefaultCostCap(price, true).value;
              DefaultCostCap(price, true).Some? && 2 * cap <= 3 * price < 2 * (cap + 1) &&
              var passed := CostCapPassedOn(cap, perMTok);
              if perMTok then 1000 * passed <= cap < 1000 * (passed + 1) else passed == cap
  {
  }

  /** A multiplier that makes no sense counts as one. */
  function Usable(multiplier: int): nat {
    if multiplier <= 0 then 1 else multiplier
  }

  /** effectiveAutoRefillAuths */
  method EffectiveAutoRefill(enabled: bool, threshold: nat, count: nat, permit2: bool, multiplier: int)
    returns (thresholdAuths: nat, countAuths: nat, capped: bool)
    ensures !enabled ==> thresholdAuths == 0 && countAuths == 0 && !capped
    ensures enabled ==>
              thresholdAuths == Least(threshold * Usable(multiplier), AuthCap(permit2)) &&
              countAuths == Least(count * Usable(multiplier), AuthCap(permit2)) &&
              (capped <==> thresholdAuths < threshold * Usable(multiplier) || countAuths < count * Usable(multiplier))
  {
    if !enabled {
      return 0, 0, false;
    }
    var factor: nat := if multiplier <= 0 then 1 else multiplier;
    thresholdAuths, countAuths, capped := threshold * factor, count * factor, false;
    var limit := AuthCap(permit2);
    if thresholdAuths > limit {
      thresholdAuths, capped := limit, true;
    }
    if countAuths > limit {
      countAuths, capped := limit, true;
    }
  }

  /** parsePositiveInt: digits only, and not zero. */
  method ParsePositiveInt(s: string) returns (r: Result<nat>)
    ensures r.Ok? <==> AllDigits(s) && ValueOf(s) > 0
    ensures r.Ok? ==> r.value == ValueOf(s)
  {
    var v: nat := 0;
    for i := 0 to |s|
      invariant AllDigits(s[..i]) && v == ValueOf(s[..i])
    {
      if !('0' <= s[i] <= '9') {
        return Err("not a positive integer");
      }
      assert s[..i + 1][..i] == s[..i];
      v := v * 10 + (s[i] as int - '0' as int);
    }
    assert s[..|s|] == s;
    r := if v == 0 then Err("must be > 0") else Ok(v);
  }
}
