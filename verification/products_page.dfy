/**
 * The products page as a state machine over the cart and the applied discount codes, with the
 * discount catalog fixed for the session. Each handler is one sequential state transition; the
 * alerts the page shows on a refusal become a rejection value, and the state stays as it was.
 */
module ProductsPage {
  import opened Seqs
  import opened Wrappers
  import opened Entities
  import opened CartUtils

  /** The page's cart (one entry per click on "add to cart") and its applied codes, in order. */
  datatype PageState = PageState(cart: seq<Product>, applied: seq<string>)

  /** The page as it starts: nothing in the cart, no code applied. */
  const Initial := PageState([], [])

  // ---------------------------------------------------------------------------------------
  // Catalog lookup

  /** `i` is the first catalog position holding `code`. */
  predicate FirstMatchAt(catalog: seq<Discount>, code: string, i: int) {
    && 0 <= i < |catalog|
    && catalog[i].code == code
    && forall j :: 0 <= j < i ==> catalog[j].code != code
  }

  /** `discounts.find(d => d.discountCode === code)`: the first discount with that code. */
  function Find(catalog: seq<Discount>, code: string): (r: Option<Discount>)
    ensures r.None? <==> forall i :: 0 <= i < |catalog| ==> catalog[i].code != code
    ensures r.Some? ==> exists i :: FirstMatchAt(catalog, code, i) && catalog[i] == r.value
  {
    if |catalog| == 0 then None
    else if catalog[0].code == code then
      assert FirstMatchAt(catalog, code, 0);
      Some(catalog[0])
    else
      var r := Find(catalog[1..], code);
      if r.Some? then
        var i :| FirstMatchAt(catalog[1..], code, i) && catalog[1..][i] == r.value;
        assert FirstMatchAt(catalog, code, i + 1);
        r
      else r
  }

  /** The codes of the catalog, position by position. */
  function CatalogCodes(catalog: seq<Discount>): seq<string> {
    seq(|catalog|, i requires 0 <= i < |catalog| => catalog[i].code)
  }

  /** `used?.type === kind` for `used` the lookup of `code`: false when the code is not found. */
  predicate ResolvesToKind(catalog: seq<Discount>, code: string, kind: string) {
    var used := Find(catalog, code);
    used.Some? && used.value.kind == kind
  }

  /** `appliedDiscounts.some(...)`: some applied code resolves to a discount of this type. */
  function KindAlreadyUsed(catalog: seq<Discount>, applied: seq<string>, kind: string): (b: bool)
    ensures b <==> exists i :: 0 <= i < |applied| && ResolvesToKind(catalog, applied[i], kind)
  {
    if |applied| == 0 then false
    else if ResolvesToKind(catalog, applied[0], kind) then true
    else
      var rest := KindAlreadyUsed(catalog, applied[1..], kind);
      assert forall i :: 1 <= i < |applied| ==> applied[i] == applied[1..][i - 1];
      rest
  }

  // ---------------------------------------------------------------------------------------
  // Handlers

  /** `handleAddToCart`: the product goes at the end of the cart. */
  function AddToCart(st: PageState, p: Product): (r: PageState)
    ensures r.cart == st.cart + [p] && r.applied == st.applied
  {
    st.(cart := st.cart + [p])
  }

  /** Why "use code" refused a code, in the order the page checks. */
  datatype Rejection =
    | InvalidCode       // no discount in the catalog carries this code
    | TypeAlreadyUsed   // an applied code resolves to a discount of the same type
    | AlreadyUsed       // the code itself is already applied

  /** What "use code" did: accepted into a new state, or refused with a reason. */
  datatype UseCodeOutcome = Accepted(next: PageState) | Rejected(reason: Rejection)

  /**
   * `handleUseDiscountCode`: look the code up; refuse it if it is unknown, then if an applied code
   * already resolves to a discount of its type, then if it is itself applied; otherwise append it
   * after the codes already applied.
   */
  function UseDiscountCode(catalog: seq<Discount>, st: PageState, code: string): (r: UseCodeOutcome)
    ensures r == Rejected(InvalidCode) <==> code !in CatalogCodes(catalog)
    ensures r == Rejected(TypeAlreadyUsed) <==>
              Find(catalog, code).Some? && KindAlreadyUsed(catalog, st.applied, Find(catalog, code).value.kind)
    ensures r == Rejected(AlreadyUsed) ==> code in st.applied
    ensures r.Accepted? <==>
              && Find(catalog, code).Some?
              && code !in st.applied
              && !KindAlreadyUsed(catalog, st.applied, Find(catalog, code).value.kind)
    ensures r.Accepted? ==> r.next == PageState(st.cart, st.applied + [code])
  {
    var selected := Find(catalog, code);
    if selected.None? then Rejected(InvalidCode)
    else
      assert code in CatalogCodes(catalog) by {
        var i :| FirstMatchAt(catalog, code, i);
        assert CatalogCodes(catalog)[i] == code;
      }
      if KindAlreadyUsed(catalog, st.applied, selected.value.kind) then Rejected(TypeAlreadyUsed)
      else if code in st.applied then Rejected(AlreadyUsed)
      else Accepted(PageState(st.cart, st.applied + [code]))
  }

  /** The page state once "use code" has run: an accepted state replaces it, a refusal leaves it untouched. */
  function AfterUseCode(st: PageState, o: UseCodeOutcome): (r: PageState)
    ensures o.Accepted? ==> r == o.next
    ensures o.Rejected? ==> r == st
  {
    match o
    case Accepted(next) => next
    case Rejected(_) => st
  }

  /** `handleResetCart`: empties the cart and the applied codes. */
  function ResetCart(st: PageState): (r: PageState)
    ensures r.cart == [] && r.applied == []
  {
    Initial
  }

  // ---------------------------------------------------------------------------------------
  // Checkout

  /** Why checkout refused to send an order. */
  datatype CheckoutError = NoUserSelected | CartEmpty

  /** One order line: a product id and how many of it. */
  datatype OrderLine = OrderLine(productId: string, quantity: nat)

  /** The body posted to `/orders`. */
  datatype OrderData = OrderData(userId: string, products: seq<OrderLine>, discounts: seq<string>)

  /** What the order POST came back with: a status and the created order's id, or an exception. */
  datatype PostResponse = Responded(status: int, orderId: string) | Threw

  /**
   * What checkout did: refused before sending anything, or sent an order; in the latter case the
   * state afterwards and, when the order was created, the order number the page records.
   */
  datatype CheckoutOutcome =
    | Refused(error: CheckoutError)
    | Submitted(order: OrderData, next: PageState, orderNumber: Option<string>)

  /** An order line per summary line, with the same id and quantity. */
  function OrderLines(lines: seq<SummaryLine>): (r: seq<OrderLine>)
    ensures |r| == |lines|
    ensures forall i :: 0 <= i < |lines| ==>
              r[i].productId == lines[i].product.id && r[i].quantity == lines[i].quantity
  {
    seq(|lines|, i requires 0 <= i < |lines| => OrderLine(lines[i].product.id, lines[i].quantity))
  }

  /**
   * The guards and body of `handleProceedToCheckout`: no user is checked before an empty cart;
   * past both, the order names the user, the cart summary as (id, quantity) pairs and the applied
   * codes in order.
   */
  function OrderPayload(st: PageState, user: Option<User>): (r: Result<OrderData, CheckoutError>)
    ensures user.None? ==> r == Err(NoUserSelected)
    ensures user.Some? && st.cart == [] ==> r == Err(CartEmpty)
    ensures r.Ok? <==> user.Some? && st.cart != []
    ensures r.Ok? ==> r.value.userId == user.value.id && r.value.discounts == st.applied
  {
    if user.None? then Err(NoUserSelected)
    else if |st.cart| == 0 then Err(CartEmpty)
    else Ok(OrderData(user.value.id, OrderLines(GetCartSummary(st.cart)), st.applied))
  }

  /**
   * `handleProceedToCheckout` with the POST's reply as a parameter: a refusal sends nothing; a
   * reply with status 201 resets the cart and codes and records the order id; any other status
   * or an exception leaves the state as it was.
   */
  function ProceedToCheckout(st: PageState, user: Option<User>, response: PostResponse): (r: CheckoutOutcome)
    ensures r.Refused? <==> user.None? || st.cart == []
    ensures user.None? ==> r == Refused(NoUserSelected)
    ensures user.Some? && st.cart == [] ==> r == Refused(CartEmpty)
    ensures r.Submitted? ==> OrderPayload(st, user) == Ok(r.order)
    ensures r.Submitted? ==>
              && r.order.userId == user.value.id
              && r.order.products == OrderLines(GetCartSummary(st.cart))
              && r.order.discounts == st.applied
    ensures r.Submitted? && response.Responded? && response.status == 201 ==>
              r.next == Initial && r.orderNumber == Some(response.orderId)
    ensures r.Submitted? && !(response.Responded? && response.status == 201) ==>
              r.next == st && r.orderNumber.None?
  {
    match OrderPayload(st, user)
    case Err(e) => Refused(e)
    case Ok(order) =>
      if response.Responded? && response.status == 201 then
        Submitted(order, ResetCart(st), Some(response.orderId))
      else
        Submitted(order, st, None)
  }

  /** The page state once checkout has run: a sent order's state replaces it, a refusal leaves it untouched. */
  function AfterCheckout(st: PageState, o: CheckoutOutcome): (r: PageState)
    ensures o.Submitted? ==> r == o.next
    ensures o.Refused? ==> r == st
  {
    match o
    case Refused(_) => st
    case Submitted(_, next, _) => next
  }

  // ---------------------------------------------------------------------------------------
  // The invariant the handlers keep

  /** Each applied code is in the catalog and no two applied codes resolve to the same type. */
  predicate AppliedValid(catalog: seq<Discount>, applied: seq<string>) {
    && Distinct(applied)
    && (forall i :: 0 <= i < |applied| ==> Find(catalog, applied[i]).Some?)
    && (forall i, j :: 0 <= i < j < |applied| ==>
          Find(catalog, applied[i]).value.kind != Find(catalog, applied[j]).value.kind)
  }

  /** Re-applying a catalog code is always caught by the type check first: "already used" is never reported. */
  lemma AlreadyUsedUnreachable(catalog: seq<Discount>, st: PageState, code: string)
    ensures UseDiscountCode(catalog, st, code) != Rejected(AlreadyUsed)
  {
    var selected := Find(catalog, code);
    if selected.Some? && code in st.applied {
      var i :| 0 <= i < |st.applied| && st.applied[i] == code;
      assert ResolvesToKind(catalog, st.applied[i], selected.value.kind);
    }
  }

  /** "Use code" keeps the applied codes valid. */
  lemma UseCodePreservesValidity(catalog: seq<Discount>, st: PageState, code: string)
    requires AppliedValid(catalog, st.applied)
    ensures AppliedValid(catalog, AfterUseCode(st, UseDiscountCode(catalog, st, code)).applied)
  {
    var o := UseDiscountCode(catalog, st, code);
    if o.Accepted? {
      var next := o.next.applied;
      var kind := Find(catalog, code).value.kind;
      assert next == st.applied + [code];
      forall i, j | 0 <= i < j < |next|
        ensures next[i] != next[j]
        ensures Find(catalog, next[i]).value.kind != Find(catalog, next[j]).value.kind
      {
        if j == |st.applied| {
          assert !ResolvesToKind(catalog, st.applied[i], kind);
        }
      }
    }
  }

  /** One user action on the page. */
  datatype Event =
    | AddToCartClicked(product: Product)
    | UseCodeClicked(code: string)
    | ResetClicked
    | CheckoutClicked(user: Option<User>, response: PostResponse)

  /** The state after one action. */
  function Apply(catalog: seq<Discount>, st: PageState, e: Event): PageState {
    match e
    case AddToCartClicked(p) => AddToCart(st, p)
    case UseCodeClicked(code) => AfterUseCode(st, UseDiscountCode(catalog, st, code))
    case ResetClicked => ResetCart(st)
    case CheckoutClicked(user, response) => AfterCheckout(st, ProceedToCheckout(st, user, response))
  }

  /** The state after a sequence of actions, in order. */
  function Run(catalog: seq<Discount>, st: PageState, events: seq<Event>): PageState
    decreases |events|
  {
    if |events| == 0 then st
    else Apply(catalog, Run(catalog, st, events[..|events| - 1]), events[|events| - 1])
  }

  /** Every action keeps the applied codes valid. */
  lemma ApplyPreservesValidity(catalog: seq<Discount>, st: PageState, e: Event)
    requires AppliedValid(catalog, st.applied)
    ensures AppliedValid(catalog, Apply(catalog, st, e).applied)
  {
    match e
    case UseCodeClicked(code) => UseCodePreservesValidity(catalog, st, code);
    case _ =>
  }

  /** From the initial page, every sequence of actions leaves the applied codes valid. */
  lemma {:induction false} RunPreservesValidity(catalog: seq<Discount>, events: seq<Event>)
    ensures AppliedValid(catalog, Run(catalog, Initial, events).applied)
    decreases |events|
  {
    if |events| > 0 {
      RunPreservesValidity(catalog, events[..|events| - 1]);
      ApplyPreservesValidity(catalog, Run(catalog, Initial, events[..|events| - 1]), events[|events| - 1]);
    }
  }

  /**
   * A sent order describes the cart: one line per distinct product id, in first-added order, each
   * with the number of times that product was added, the quantities adding up to the cart's size.
   */
  lemma OrderDescribesCart(st: PageState, user: Option<User>)
    requires OrderPayload(st, user).Ok?
    ensures var lines := OrderPayload(st, user).value.products;
            var ids := FirstIds(st.cart);
            && |lines| == |ids| >= 1
            && (forall i :: 0 <= i < |lines| ==> lines[i] == OrderLine(ids[i], Count(st.cart, ids[i])))
            && OrderTotal(lines) == |st.cart|
  {
    var summary := GetCartSummary(st.cart);
    SummaryTotal(st.cart);
    SummaryIdsMatchCart(st.cart);
    OrderTotalMatches(summary);
  }

  /** The total quantity of an order's lines. */
  function OrderTotal(lines: seq<OrderLine>): nat {
    if |lines| == 0 then 0 else OrderTotal(lines[..|lines| - 1]) + lines[|lines| - 1].quantity
  }

  /** Turning summary lines into order lines keeps the total quantity. */
  lemma {:induction false} OrderTotalMatches(summary: seq<SummaryLine>)
    ensures OrderTotal(OrderLines(summary)) == TotalQuantity(summary)
    decreases |summary|
  {
    if |summary| > 0 {
      var init := summary[..|summary| - 1];
      assert OrderLines(summary)[..|summary| - 1] == OrderLines(init);
      OrderTotalMatches(init);
    }
  }

  // ---------------------------------------------------------------------------------------
  // Worked scenarios

  /** A catalog with one coupon and one seasonal discount. */
  const SaveAndSummer := [
    Discount("SAVE10", "coupon", "fixed-amount", map[]),
    Discount("SUMMER", "seasonal", "price", map[])
  ]

  /**
   * Applying SAVE10 is accepted; applying it again is refused as a type conflict (the page checks
   * the type before reuse); SUMMER is then accepted after it; an unknown code is invalid.
   */
  lemma SaveAndSummerScenario()
    ensures UseDiscountCode(SaveAndSummer, Initial, "SAVE10") == Accepted(PageState([], ["SAVE10"]))
    ensures UseDiscountCode(SaveAndSummer, PageState([], ["SAVE10"]), "SAVE10") == Rejected(TypeAlreadyUsed)
    ensures UseDiscountCode(SaveAndSummer, PageState([], ["SAVE10"]), "SUMMER") ==
              Accepted(PageState([], ["SAVE10", "SUMMER"]))
    ensures UseDiscountCode(SaveAndSummer, Initial, "WINTER") == Rejected(InvalidCode)
  {
    assert SaveAndSummer[1..][1..] == [];
    assert Find(SaveAndSummer, "SAVE10") == Some(SaveAndSummer[0]);
    assert Find(SaveAndSummer, "SUMMER") == Some(SaveAndSummer[1]);
    assert Find(SaveAndSummer, "WINTER") == None;
  }

  /** With two coupon codes A and B, B is refused once A is applied. */
  lemma TwoCouponsConflict()
    ensures var catalog := [Discount("A", "coupon", "fixed-amount", map[]),
                            Discount("B", "coupon", "percentage-amount", map[])];
            UseDiscountCode(catalog, PageState([], ["A"]), "B") == Rejected(TypeAlreadyUsed)
  {
    var catalog := [Discount("A", "coupon", "fixed-amount", map[]),
                    Discount("B", "coupon", "percentage-amount", map[])];
    assert Find(catalog, "A") == Some(catalog[0]);
    assert Find(catalog, "B") == Some(catalog[1]);
  }
}
