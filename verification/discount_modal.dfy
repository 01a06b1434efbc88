/**
 * The discount-creation form: the type and rule enums, the rules offered for each type, the
 * field resets when the type or rule changes, the one-field payload merge, and the ordered
 * checks run before the draft is submitted.
 *
 * The draft is held as the untyped object the form edits: strings for code, type and rule (the
 * empty string when unset), and a payload object that may be missing.
 */
module DiscountModal {
  import opened Seqs
  import opened Wrappers
  import opened JsValues

  /** `DiscountRules`. */
  datatype DiscountRule = FixedAmount | PercentageAmount | Points | Price | Category

  /** `DiscountTypes`. */
  datatype DiscountType = Coupon | Seasonal | OnTop

  /** The string value of each rule. */
  function RuleName(r: DiscountRule): string {
    match r
    case FixedAmount => "fixed-amount"
    case PercentageAmount => "percentage-amount"
    case Points => "points"
    case Price => "price"
    case Category => "category"
  }

  /** The rule a string names, as a `switch` over the rule values matches it. */
  function ParseRule(s: string): (r: Option<DiscountRule>)
    ensures r.Some? ==> RuleName(r.value) == s
    ensures r.None? ==> forall x: DiscountRule :: RuleName(x) != s
  {
    if s == "fixed-amount" then Some(FixedAmount)
    else if s == "percentage-amount" then Some(PercentageAmount)
    else if s == "points" then Some(Points)
    else if s == "price" then Some(Price)
    else if s == "category" then Some(Category)
    else None
  }

  /** The string value of each type. */
  function TypeName(t: DiscountType): string {
    match t
    case Coupon => "coupon"
    case Seasonal => "seasonal"
    case OnTop => "onTop"
  }

  /** The type a string names, as a `switch` over the type values matches it. */
  function ParseType(s: string): (r: Option<DiscountType>)
    ensures r.Some? ==> TypeName(r.value) == s
    ensures r.None? ==> forall x: DiscountType :: TypeName(x) != s
  {
    if s == "coupon" then Some(Coupon)
    else if s == "seasonal" then Some(Seasonal)
    else if s == "onTop" then Some(OnTop)
    else None
  }

  /** Every rule's name parses back to that rule. */
  lemma RuleNameRoundTrip(r: DiscountRule)
    ensures ParseRule(RuleName(r)) == Some(r)
  {
  }

  /** Every type's name parses back to that type. */
  lemma TypeNameRoundTrip(t: DiscountType)
    ensures ParseType(TypeName(t)) == Some(t)
  {
  }

  /** The categories offered by the category select. */
  const CategoryList: seq<string> := ["Accessories", "Electronics", "Clothing"]

  // ---------------------------------------------------------------------------------------
  // Rules per type

  /** `getRuleOptions`: the rules the rule select offers for the draft's type. */
  function GetRuleOptions(kind: string): (r: seq<DiscountRule>)
    ensures kind == "coupon" ==> r == [FixedAmount, PercentageAmount]
    ensures kind == "seasonal" ==> r == [Price]
    ensures kind == "onTop" ==> r == [Points, Category]
    ensures ParseType(kind).None? ==> r == []
  {
    match ParseType(kind)
    case Some(Coupon) => [FixedAmount, PercentageAmount]
    case Some(Seasonal) => [Price]
    case Some(OnTop) => [Points, Category]
    case None => []
  }

  /** The one type whose select offers each rule. */
  function RuleType(r: DiscountRule): DiscountType {
    match r
    case FixedAmount => Coupon
    case PercentageAmount => Coupon
    case Points => OnTop
    case Price => Seasonal
    case Category => OnTop
  }

  /**
   * The rule options partition the rules among the types: a rule is offered for a type exactly
   * when it is that rule's one type, so no rule is offered twice and every rule is offered once.
   */
  lemma RuleOptionsPartition(kind: string, r: DiscountRule)
    ensures r in GetRuleOptions(kind) <==> ParseType(kind) == Some(RuleType(r))
  {
  }

  /** No type offers the same rule twice, and every known type offers at least one. */
  lemma RuleOptionsDistinct(kind: string)
    ensures Distinct(GetRuleOptions(kind))
    ensures ParseType(kind).Some? <==> |GetRuleOptions(kind)| > 0
  {
  }

  // ---------------------------------------------------------------------------------------
  // The draft and its field setters

  /** The discount being created. */
  datatype Draft = Draft(code: string, kind: string, rule: string, payload: Option<Payload>)

  /** The draft the page starts with and returns to after a created discount. */
  const EmptyDraft := Draft("", "", "", Some(map[]))

  /** Typing in the code field. */
  function CodeChange(d: Draft, code: string): (r: Draft)
    ensures r.code == code && r.kind == d.kind && r.rule == d.rule && r.payload == d.payload
  {
    d.(code := code)
  }

  /** `handleTypeChange`: a new type clears the rule and the payload; the code stays. */
  function TypeChange(d: Draft, kind: string): (r: Draft)
    ensures r.code == d.code && r.kind == kind && r.rule == "" && r.payload == Some(map[])
  {
    d.(kind := kind, rule := "", payload := Some(map[]))
  }

  /** `handleRuleChange`: a new rule clears the payload; the code and type stay. */
  function RuleChange(d: Draft, rule: string): (r: Draft)
    ensures r.code == d.code && r.kind == d.kind && r.rule == rule && r.payload == Some(map[])
  {
    d.(rule := rule, payload := Some(map[]))
  }

  /**
   * `handlePayloadChange`: the payload (a missing one read as `{}`) with one field set; every
   * other field keeps its value and nothing else of the draft changes.
   */
  function PayloadChange(d: Draft, field: string, v: Value): (r: Draft)
    ensures r.code == d.code && r.kind == d.kind && r.rule == d.rule
    ensures r.payload.Some?
    ensures r.payload.value.Keys == d.payload.GetOr(map[]).Keys + {field}
    ensures r.payload.value[field] == v
    ensures forall f :: f != field && f in d.payload.GetOr(map[]) ==> r.payload.value[f] == d.payload.value[f]
  {
    var current := d.payload.GetOr(map[]);
    d.(payload := Some(current[field := v]))
  }

  /** Setting two different payload fields gives the same draft in either order. */
  lemma PayloadChangesCommute(d: Draft, f: string, v: Value, g: string, w: Value)
    requires f != g
    ensures PayloadChange(PayloadChange(d, f, v), g, w) == PayloadChange(PayloadChange(d, g, w), f, v)
  {
    var p := d.payload.GetOr(map[]);
    assert p[f := v][g := w] == p[g := w][f := v];
  }

  /** Setting a field twice keeps only the later value. */
  lemma PayloadChangeOverwrites(d: Draft, f: string, v: Value, w: Value)
    ensures PayloadChange(PayloadChange(d, f, v), f, w) == PayloadChange(d, f, w)
  {
    var p := d.payload.GetOr(map[]);
    assert p[f := v][f := w] == p[f := w];
  }

  /** Entering each of `fields` in turn with the matching value from `values`. */
  function Fill(d: Draft, fields: seq<string>, values: seq<Value>): Draft
    requires |fields| == |values|
    decreases |fields|
  {
    if |fields| == 0 then d
    else PayloadChange(Fill(d, fields[..|fields| - 1], values[..|values| - 1]), fields[|fields| - 1], values[|values| - 1])
  }

  /**
   * No stale payload after a rule change: once the rule is picked, the payload holds exactly the
   * fields entered since, and code, type and rule are as they were.
   */
  lemma {:induction false} FillAfterRuleChange(d: Draft, rule: string, fields: seq<string>, values: seq<Value>)
    requires |fields| == |values|
    ensures var r := Fill(RuleChange(d, rule), fields, values);
            && r.code == d.code && r.kind == d.kind && r.rule == rule
            && r.payload.Some?
            && forall k :: k in r.payload.value <==> k in fields
    decreases |fields|
  {
    if |fields| > 0 {
      var n := |fields|;
      assert fields == fields[..n - 1] + [fields[n - 1]];
      FillAfterRuleChange(d, rule, fields[..n - 1], values[..n - 1]);
    }
  }

  /** After a rule change, each field entered holds the value entered for it last. */
  lemma {:induction false} FillKeepsLastValue(d: Draft, rule: string, fields: seq<string>, values: seq<Value>, i: nat)
    requires |fields| == |values| && i < |fields| && fields[i] !in fields[i + 1..]
    ensures var r := Fill(RuleChange(d, rule), fields, values);
            r.payload.Some? && fields[i] in r.payload.value && r.payload.value[fields[i]] == values[i]
    decreases |fields|
  {
    var n := |fields|;
    if i < n - 1 {
      var init := fields[..n - 1];
      assert fields[i + 1..] == init[i + 1..] + [fields[n - 1]];
      FillKeepsLastValue(d, rule, init, values[..n - 1], i);
    }
  }

  // ---------------------------------------------------------------------------------------
  // Validation

  /** The first check that failed, named after the message it raises. */
  datatype ValidationError =
    | CodeRequired
    | TypeRequired
    | RuleRequired
    | AmountRequired            // fixed-amount without a discount amount
    | PercentageRequired        // percentage-amount without a discount percent
    | MaxPercentAndAmountRequired
    | CountPerPriceAndAmountRequired
    | CategoryAndPercentRequired

  /** The payload fields the page's payload shapes give each rule. */
  function RequiredFields(r: DiscountRule): seq<string> {
    match r
    case FixedAmount => ["discountAmount"]
    case PercentageAmount => ["discountPercent"]
    case Points => ["maxPercent", "discountAmount"]
    case Price => ["countPerPrice", "discountAmount"]
    case Category => ["category", "discountPercent"]
  }

  /** Whether the payload check for a rule passes. */
  predicate PayloadPasses(r: DiscountRule, payload: Option<Payload>) {
    match r
    case FixedAmount => TruthyOrZero(Field(payload, "discountAmount"))
    case PercentageAmount => TruthyOrZero(Field(payload, "discountPercent"))
    case Points => Truthy(Field(payload, "maxPercent")) && Truthy(Field(payload, "discountAmount"))
    case Price => Truthy(Field(payload, "countPerPrice")) && Truthy(Field(payload, "discountAmount"))
    case Category => Truthy(Field(payload, "category")) && Truthy(Field(payload, "discountPercent"))
  }

  /** The error a failed payload check raises. */
  function PayloadError(r: DiscountRule): ValidationError {
    match r
    case FixedAmount => AmountRequired
    case PercentageAmount => PercentageRequired
    case Points => MaxPercentAndAmountRequired
    case Price => CountPerPriceAndAmountRequired
    case Category => CategoryAndPercentRequired
  }

  /**
   * The checks of `validateAndSubmit`, in order: code, type, rule, then the payload check of the
   * rule (no payload check for a rule outside the five). Success hands the draft on unchanged.
   */
  function Validate(d: Draft): (r: Result<Draft, ValidationError>)
    ensures r == Err(CodeRequired) <==> d.code == ""
    ensures r == Err(TypeRequired) <==> d.code != "" && d.kind == ""
    ensures r == Err(RuleRequired) <==> d.code != "" && d.kind != "" && d.rule == ""
    ensures r.Ok? ==> r.value == d && d.code != "" && d.kind != "" && d.rule != ""
    ensures r.Err? && r.error !in {CodeRequired, TypeRequired, RuleRequired} ==>
              ParseRule(d.rule).Some? && r.error == PayloadError(ParseRule(d.rule).value)
  {
    if !NonEmpty(d.code) then Err(CodeRequired)
    else if !NonEmpty(d.kind) then Err(TypeRequired)
    else if !NonEmpty(d.rule) then Err(RuleRequired)
    else match ParseRule(d.rule)
      case None => Ok(d)
      case Some(rule) => if PayloadPasses(rule, d.payload) then Ok(d) else Err(PayloadError(rule))
  }

  /** A draft fresh from a type change, with code and type set, always fails on the rule. */
  lemma TypeChangeFailsOnRule(d: Draft, kind: string)
    requires d.code != "" && kind != ""
    ensures Validate(TypeChange(d, kind)) == Err(RuleRequired)
  {
  }

  /** An accepted draft with one of the five rules has every field of that rule's shape. */
  lemma AcceptedHasRequiredFields(d: Draft)
    requires Validate(d).Ok? && ParseRule(d.rule).Some?
    ensures forall f :: f in RequiredFields(ParseRule(d.rule).value) ==> Field(d.payload, f).Some?
  {
  }

  /**
   * Points, price and category demand both fields truthy: an accepted draft with one of these
   * rules has no field that is 0 or the empty string.
   */
  lemma TruthyRulesRejectZero(d: Draft)
    requires Validate(d).Ok? && ParseRule(d.rule) in {Some(Points), Some(Price), Some(Category)}
    ensures forall f :: f in RequiredFields(ParseRule(d.rule).value) ==> Truthy(Field(d.payload, f))
  {
  }

  /**
   * Fixed-amount and percentage-amount count a present number as given, 0 included: with code,
   * type and the rule set, the draft passes exactly when the field holds a number (or a non-empty
   * string).
   */
  lemma AmountRulesAcceptZero(d: Draft)
    requires d.code != "" && d.kind != "" && ParseRule(d.rule) in {Some(FixedAmount), Some(PercentageAmount)}
    ensures var f := RequiredFields(ParseRule(d.rule).value)[0];
            Validate(d).Ok? <==> (Field(d.payload, f).Some? && Field(d.payload, f) != Some(Str("")))
  {
  }

  /** Code, type and rule set and every field of the rule's shape truthy: the draft is accepted. */
  lemma CompleteDraftAccepted(d: Draft)
    requires d.code != "" && d.kind != "" && ParseRule(d.rule).Some?
    requires forall f :: f in RequiredFields(ParseRule(d.rule).value) ==> Truthy(Field(d.payload, f))
    ensures Validate(d) == Ok(d)
  {
    var fs := RequiredFields(ParseRule(d.rule).value);
    assert forall i :: 0 <= i < |fs| ==> Truthy(Field(d.payload, fs[i]));
  }

  /**
   * The rule is never checked against the type: any non-empty rule outside the five passes with
   * any payload, and a rule the type does not offer passes once its fields are filled.
   */
  lemma ValidationIgnoresRuleOptions(d: Draft)
    requires d.code != "" && d.kind != "" && d.rule != "" && ParseRule(d.rule).None?
    ensures Validate(d) == Ok(d)
    ensures var mismatched := Draft("X", "coupon", "points",
                                    Some(map["maxPercent" := Int(10), "discountAmount" := Int(5)]));
            Validate(mismatched).Ok? && Points !in GetRuleOptions(mismatched.kind)
  {
  }

  /** No rule's shape names a field twice. */
  lemma RequiredFieldsDistinct(r: DiscountRule, i: nat)
    requires i < |RequiredFields(r)|
    ensures RequiredFields(r)[i] !in RequiredFields(r)[i + 1..]
  {
  }

  /**
   * Filling in the form through its own inputs is accepted: a code, a type, one of the rules the
   * rule select offers for it, then a truthy value in each input shown for that rule.
   */
  lemma FormFlowAccepted(d: Draft, code: string, t: DiscountType, r: DiscountRule, values: seq<Value>)
    requires code != "" && r in GetRuleOptions(TypeName(t))
    requires |values| == |RequiredFields(r)|
    requires forall i :: 0 <= i < |values| ==> Truthy(Some(values[i]))
    ensures var filled := Fill(RuleChange(TypeChange(CodeChange(d, code), TypeName(t)), RuleName(r)),
                                RequiredFields(r), values);
            Validate(filled) == Ok(filled)
  {
    var fields := RequiredFields(r);
    var base := TypeChange(CodeChange(d, code), TypeName(t));
    FillAfterRuleChange(base, RuleName(r), fields, values);
    var filled := Fill(RuleChange(base, RuleName(r)), fields, values);
    RuleNameRoundTrip(r);
    assert filled.code != "" && filled.kind != "" && ParseRule(filled.rule) == Some(r);
    forall f | f in fields
      ensures Truthy(Field(filled.payload, f))
    {
      var i :| 0 <= i < |fields| && fields[i] == f;
      RequiredFieldsDistinct(r, i);
      FillKeepsLastValue(base, RuleName(r), fields, values, i);
    }
    CompleteDraftAccepted(filled);
  }

  /**
   * The category rule's inputs: any category the select offers, with a non-zero percent (the
   * percent input stores `parseInt(...) || 0`), gives a draft that is accepted.
   */
  lemma CategoryFormAccepted(d: Draft, code: string, category: string, percent: int)
    requires code != "" && category in CategoryList && percent != 0
    ensures var filled := Fill(RuleChange(TypeChange(CodeChange(d, code), "onTop"), "category"),
                                ["category", "discountPercent"], [Str(category), Int(percent)]);
            Validate(filled) == Ok(filled)
  {
    var values := [Str(category), Int(percent)];
    assert Truthy(Some(values[0])) && Truthy(Some(values[1]));
    FormFlowAccepted(d, code, OnTop, Category, values);
  }

  /**
   * The worked drafts: the empty form is refused for its code first; a zero fixed amount is
   * accepted; points with only a max percent is not.
   */
  lemma ValidationExamples()
    ensures Validate(EmptyDraft) == Err(CodeRequired)
    ensures Validate(Draft("ZERO", "coupon", "fixed-amount", Some(map["discountAmount" := Int(0)]))).Ok?
    ensures Validate(Draft("PTS", "onTop", "points", Some(map["maxPercent" := Int(10)]))) ==
              Err(MaxPercentAndAmountRequired)
  {
  }
}
