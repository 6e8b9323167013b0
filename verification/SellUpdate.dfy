/** The merge patch of `obol sell update` (cmd/obol/sell.go). */
module SellUpdate {
  import opened Wrappers
  import opened Text
  import opened Json

  datatype PriceTable = PriceTable(perRequest: string, perMTok: string, perHour: string)

  const UNITS := {"perRequest", "perMTok", "perHour"}

  predicate HasPrice(price: PriceTable) {
    price.perRequest != "" || price.perMTok != "" || price.perHour != ""
  }

  /** The unit the price is quoted in, and the price. */
  function Quote(price: PriceTable): (string, string) {
    if price.perRequest != "" then ("perRequest", price.perRequest)
    else if price.perMTok != "" then ("perMTok", price.perMTok)
    else ("perHour", price.perHour)
  }

  /** The quoted unit is set and every other unit is nulled out. */
  function PricePatch(price: PriceTable): Fields {
    var (unit, amount) := Quote(price);
    map k | k in UNITS :: if k == unit then Atom(amount) else Null
  }

  /** What the patch says about one field of the payment. */
  function PaymentField(payTo: string, chain: string, price: PriceTable, k: string): Option<Json> {
    if k == "payTo" then (if Trim(payTo) != "" then Some(Atom(Trim(payTo))) else None)
    else if k == "network" then (if Trim(chain) != "" then Some(Atom(Trim(chain))) else None)
    else if k == "price" then (if HasPrice(price) then Some(Obj(PricePatch(price))) else None)
    else None
  }

  function PaymentPatch(payTo: string, chain: string, price: PriceTable): Fields {
    map k | k in {"payTo", "network", "price"} && PaymentField(payTo, chain, price, k).Some? ::
      PaymentField(payTo, chain, price, k).value
  }

  /** buildSellUpdatePatch, without the enclosing "spec". */
  function BuildPatch(payTo: string, chain: string, price: PriceTable): Result<Fields> {
    var payment := PaymentPatch(payTo, chain, price);
    if payment == map[] then Err("nothing to update") else Ok(map["payment" := Obj(payment)])
  }

  function PaymentOf(spec: Fields): Fields {
    FieldsOf(Field(spec, "payment"))
  }

  function PricesOf(spec: Fields): Fields {
    FieldsOf(Field(PaymentOf(spec), "price"))
  }

  lemma PaymentFields(payTo: string, chain: string, price: PriceTable, k: string)
    ensures Field(PaymentPatch(payTo, chain, price), k) == PaymentField(payTo, chain, price, k)
  {
  }

  /** Nothing is sent exactly when no flag says anything. */
  lemma NothingToUpdateIff(payTo: string, chain: string, price: PriceTable)
    ensures BuildPatch(payTo, chain, price).Err? <==> Trim(payTo) == "" && Trim(chain) == "" && !HasPrice(price)
  {
    PaymentFields(payTo, chain, price, "payTo");
    PaymentFields(payTo, chain, price, "network");
    PaymentFields(payTo, chain, price, "price");
  }

  lemma PatchedPayment(spec: Fields, payment: Fields)
    ensures PaymentOf(PatchFields(spec, map["payment" := Obj(payment)])) == PatchFields(PaymentOf(spec), payment)
  {
    PatchedField(spec, map["payment" := Obj(payment)], "payment");
  }

  lemma PatchedPrices(payment: Fields, patch: Fields, prices: Fields)
    requires Field(patch, "price") == Some(Obj(prices))
    ensures FieldsOf(Field(PatchFields(payment, patch), "price")) ==
            PatchFields(FieldsOf(Field(payment, "price")), prices)
  {
    PatchedField(payment, patch, "price");
  }

  /** Switching the unit leaves no price in another unit, whatever the offer charged before. */
  lemma PriceIsSwitched(spec: Fields, payTo: string, chain: string, price: PriceTable, k: string)
    requires HasPrice(price)
    ensures BuildPatch(payTo, chain, price).Ok?
    ensures var after := PatchFields(spec, BuildPatch(payTo, chain, price).value);
            var (unit, amount) := Quote(price);
            Field(PricesOf(after), k) ==
              if k == unit then Some(Atom(amount))
              else if k in UNITS then None
              else Field(PricesOf(spec), k)
  {
    var payment := PaymentPatch(payTo, chain, price);
    PaymentFields(payTo, chain, price, "price");
    PatchedPayment(spec, payment);
    PatchedPrices(PaymentOf(spec), payment, PricePatch(price));
    PatchedField(PricesOf(spec), PricePatch(price), k);
    assert Quote(price).0 in UNITS;
  }

  /** Which price that is: the first of the three that is given. */
  lemma PriceIsTheFlag(spec: Fields, payTo: string, chain: string, price: PriceTable)
    requires HasPrice(price)
    ensures BuildPatch(payTo, chain, price).Ok?
    ensures var prices := PricesOf(PatchFields(spec, BuildPatch(payTo, chain, price).value));
            Field(prices, "perRequest") == (if price.perRequest != "" then Some(Atom(price.perRequest)) else None) &&
            Field(prices, "perMTok") ==
              (if price.perRequest == "" && price.perMTok != "" then Some(Atom(price.perMTok)) else None) &&
            Field(prices, "perHour") ==
              (if price.perRequest == "" && price.perMTok == "" then Some(Atom(price.perHour)) else None)
  {
    PriceIsSwitched(spec, payTo, chain, price, "perRequest");
    PriceIsSwitched(spec, payTo, chain, price, "perMTok");
    PriceIsSwitched(spec, payTo, chain, price, "perHour");
  }

  /** The wallet is what --pay-to says, the network what --network says; without the flag they stay. */
  lemma WalletAndNetwork(spec: Fields, payTo: string, chain: string, price: PriceTable)
    requires BuildPatch(payTo, chain, price).Ok?
    ensures var payment := PaymentOf(PatchFields(spec, BuildPatch(payTo, chain, price).value));
            Field(payment, "payTo") ==
              (if Trim(payTo) != "" then Some(Atom(Trim(payTo))) else Field(PaymentOf(spec), "payTo")) &&
            Field(payment, "network") ==
              (if Trim(chain) != "" then Some(Atom(Trim(chain))) else Field(PaymentOf(spec), "network"))
  {
    OthersAreKept(spec, payTo, chain, price, "payTo");
    OthersAreKept(spec, payTo, chain, price, "network");
  }

  /** All else of the offer stays: the rest of the spec and of the payment, and the prices without a price flag. */
  lemma RestIsKept(spec: Fields, payTo: string, chain: string, price: PriceTable, k: string)
    requires BuildPatch(payTo, chain, price).Ok?
    ensures var after := PatchFields(spec, BuildPatch(payTo, chain, price).value);
            (k != "payment" ==> Field(after, k) == Field(spec, k)) &&
            (k !in {"payTo", "network", "price"} ==> Field(PaymentOf(after), k) == Field(PaymentOf(spec), k)) &&
            (!HasPrice(price) ==> Field(PaymentOf(after), "price") == Field(PaymentOf(spec), "price"))
  {
    OthersAreKept(spec, payTo, chain, price, k);
    OthersAreKept(spec, payTo, chain, price, "price");
  }

  /** What no flag mentions stays: other specs, other payment fields, wallet, chain and prices. */
  lemma OthersAreKept(spec: Fields, payTo: string, chain: string, price: PriceTable, k: string)
    requires BuildPatch(payTo, chain, price).Ok?
    ensures var after := PatchFields(spec, BuildPatch(payTo, chain, price).value);
            (k != "payment" ==> Field(after, k) == Field(spec, k)) &&
            Field(PaymentOf(after), k) ==
              match PaymentField(payTo, chain, price, k)
              case None => Field(PaymentOf(spec), k)
              case Some(v) =>
                Some(if v.Obj? then Obj(PatchFields(FieldsOf(Field(PaymentOf(spec), k)), v.fields)) else v)
  {
    var payment := PaymentPatch(payTo, chain, price);
    PaymentFields(payTo, chain, price, k);
    PatchedPayment(spec, payment);
    PatchedField(spec, map["payment" := Obj(payment)], k);
    PatchedField(PaymentOf(spec), payment, k);
  }
}
