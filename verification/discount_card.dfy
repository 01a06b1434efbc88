/**
 * The description line a discount card shows under its code: which variant, if any, is picked
 * from the discount's type and payload, by the truthiness of the payload fields.
 */
module DiscountCard {
  import opened Wrappers
  import opened JsValues
  import DiscountModal

  /** The description variants, carrying the payload values they display. */
  datatype Details =
    | CategoryPercent(category: Value, categoryPercent: Option<Value>)  // "Applicable on category ... with ...% off"
    | FixedAmount(amount: Value)                                         // "Fixed discount amount: ..."
    | PercentOff(percent: Value)                                         // "...% off your order"
    | PerSpend(spendAmount: Option<Value>, countPerPrice: Value)         // "Get ... off for every ... spent"
    | NoDetails                                                          // nothing rendered

  /**
   * `renderDiscountDetails`. For `onTop` a truthy category wins over a truthy amount; for `coupon`
   * a truthy percent wins over a truthy amount; `seasonal` shows a line only with a truthy count
   * per price; any other type, or none of the checked fields truthy, shows nothing.
   */
  function RenderDiscountDetails(kind: string, payload: Option<Payload>): (r: Details)
    ensures kind == "onTop" && Truthy(Field(payload, "category")) ==>
              r == CategoryPercent(payload.value["category"], Field(payload, "discountPercent"))
    ensures kind == "onTop" && !Truthy(Field(payload, "category")) && Truthy(Field(payload, "discountAmount")) ==>
              r == FixedAmount(payload.value["discountAmount"])
    ensures kind == "coupon" && Truthy(Field(payload, "discountPercent")) ==>
              r == PercentOff(payload.value["discountPercent"])
    ensures kind == "coupon" && !Truthy(Field(payload, "discountPercent")) && Truthy(Field(payload, "discountAmount")) ==>
              r == FixedAmount(payload.value["discountAmount"])
    ensures kind == "seasonal" && Truthy(Field(payload, "countPerPrice")) ==>
              r == PerSpend(Field(payload, "discountAmount"), payload.value["countPerPrice"])
    ensures r == NoDetails <==>
              || kind !in {"onTop", "coupon", "seasonal"}
              || (kind == "onTop" && !Truthy(Field(payload, "category")) && !Truthy(Field(payload, "discountAmount")))
              || (kind == "coupon" && !Truthy(Field(payload, "discountPercent")) && !Truthy(Field(payload, "discountAmount")))
              || (kind == "seasonal" && !Truthy(Field(payload, "countPerPrice")))
  {
    if kind == "onTop" then
      if Truthy(Field(payload, "category")) then
        CategoryPercent(payload.value["category"], Field(payload, "discountPercent"))
      else if Truthy(Field(payload, "discountAmount")) then
        FixedAmount(payload.value["discountAmount"])
      else NoDetails
    else if kind == "coupon" then
      if Truthy(Field(payload, "discountPercent")) then
        PercentOff(payload.value["discountPercent"])
      else if Truthy(Field(payload, "discountAmount")) then
        FixedAmount(payload.value["discountAmount"])
      else NoDetails
    else if kind == "seasonal" then
      if Truthy(Field(payload, "countPerPrice")) then
        PerSpend(Field(payload, "discountAmount"), payload.value["countPerPrice"])
      else NoDetails
    else NoDetails
  }

  /** The payload field a description leads with, if any. */
  function LeadField(d: Details): Option<string> {
    match d
    case CategoryPercent(_, _) => Some("category")
    case FixedAmount(_) => Some("discountAmount")
    case PercentOff(_) => Some("discountPercent")
    case PerSpend(_, _) => Some("countPerPrice")
    case NoDetails => None
  }

  /** The value a description leads with, if any. */
  function LeadValue(d: Details): Option<Value> {
    match d
    case CategoryPercent(c, _) => Some(c)
    case FixedAmount(a) => Some(a)
    case PercentOff(p) => Some(p)
    case PerSpend(_, c) => Some(c)
    case NoDetails => None
  }

  /** A description never invents a value: it leads with a truthy field read from the payload. */
  lemma DetailsComeFromPayload(kind: string, payload: Option<Payload>)
    ensures var r := RenderDiscountDetails(kind, payload);
            r != NoDetails ==>
              LeadField(r).Some? && Field(payload, LeadField(r).value) == LeadValue(r)
              && Truthy(LeadValue(r))
  {
  }

  /**
   * A discount created through the form, with a rule its type offers, gets a description on its
   * card, unless it is a coupon whose one amount or percent field is 0, which the form accepts but
   * the card does not describe.
   */
  lemma CreatedDiscountDescribed(d: DiscountModal.Draft)
    requires DiscountModal.Validate(d).Ok?
    requires DiscountModal.ParseRule(d.rule).Some?
    requires DiscountModal.ParseRule(d.rule).value in DiscountModal.GetRuleOptions(d.kind)
    ensures var rule := DiscountModal.ParseRule(d.rule).value;
            RenderDiscountDetails(d.kind, d.payload) == NoDetails <==>
              && rule in {DiscountModal.FixedAmount, DiscountModal.PercentageAmount}
              && !Truthy(Field(d.payload, "discountPercent"))
              && !Truthy(Field(d.payload, "discountAmount"))
  {
    var rule := DiscountModal.ParseRule(d.rule).value;
    DiscountModal.RuleOptionsPartition(d.kind, rule);
    DiscountModal.TypeNameRoundTrip(DiscountModal.RuleType(rule));
  }

  /** A coupon created with a fixed amount of 0 passes the form but its card shows no description. */
  lemma ZeroCouponUndescribed()
    ensures var d := DiscountModal.Draft("ZERO", "coupon", "fixed-amount", Some(map["discountAmount" := Int(0)]));
            DiscountModal.Validate(d).Ok? && RenderDiscountDetails(d.kind, d.payload) == NoDetails
  {
  }
}
