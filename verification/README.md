# Storefront cart and discount logic, modelled in Dafny

This project models the client-side logic of a storefront web UI. The UI lists products and
discounts, keeps a shopping cart in page memory, applies discount codes to it and sends orders
to a backend API. Four pieces are modelled, each as pure functions over immutable data:

- **Cart summary** (`CartUtils`). `getCartSummary` folds the flat list of added products into one
  line per distinct product id, with a quantity. The fold is modelled step by step: an object
  keyed by id, plus the order in which its keys were created, which is the order
  `Object.values` lists non-integer-like keys. It is proved against reference definitions: the
  distinct ids in first-occurrence order, the count of each id, and the first item with each
  id. It is also proved to round-trip: a cart rebuilt from a summary summarises back to that
  summary.
- **Products page** (`ProductsPage`). A state machine over `(cart, applied codes)` with a fixed
  discount catalog. It covers add-to-cart, use-code (lookup, then the one-discount-per-type
  check, then the already-used check, in that order), reset, and checkout up to the order body
  and the reset after a created order. The applied codes stay valid from the initial page
  through any sequence of actions: each is in the catalog, and no two resolve to the same type.
- **Discount creation form** (`DiscountModal`). The rule and type enums, the rules the select
  offers for each type, the resets when the type or rule changes, the one-field payload merge,
  and the ordered checks run before submitting. Payloads are untyped objects
  (`map<string, Value>`), as in the form.
- **Discount card** (`DiscountCard`). The choice of which description line a card shows for a
  discount's type and payload. Fields are picked by JavaScript truthiness.

`JsValues` holds the few JavaScript semantics these rely on: `payload?.field`, truthiness, and
`x || x === 0`. `Entities` holds the records. `Wrappers` holds `Option` and `Result`, and `Seqs` the
`Distinct` predicate shared by the cart, the page and the form.

Two consequences of the code's check order are worth stating on their own:

- Use-code checks the type before reuse. So re-applying a catalog code is always refused as a
  type conflict, and "already used" is never reported (`ProductsPage.AlreadyUsedUnreachable`,
  `ProductsPage.SaveAndSummerScenario`).
- The form's validator never checks the rule against the type: any non-empty rule passes the
  rule check. Only fixed-amount and percentage-amount accept 0; points, price and category need
  truthy fields (`DiscountModal.ValidationIgnoresRuleOptions`,
  `DiscountModal.TruthyRulesRejectZero`).

## Model

| member | source | states |
|---|---|---|
| CartUtils.GetCartSummary | src/app/utils/cart-utils.tsx:3-13 | The summary equals a reference described apart from the fold: one line per distinct cart id, in first-added order, each with the first item carrying that id and the number of items carrying it. |
| CartUtils.SummaryTotal | src/app/utils/cart-utils.tsx:3-13 | The quantities of the summary sum to the number of items in the cart. |
| CartUtils.SummaryIdsMatchCart | src/app/utils/cart-utils.tsx:3-13 | The summary lists each cart id exactly once and no other id, in first-added order. An empty cart, and only an empty cart, gives an empty summary. |
| CartUtils.SummaryLinesDescribeItems | src/app/utils/cart-utils.tsx:5-11 | Each line has quantity at least 1, equal to the number of items with its id, and carries the first item with that id. |
| CartUtils.FoldIsSpec | src/app/utils/cart-utils.tsx:4-12 | The object after the fold is consistent, and `Object.values` of it equals the reference summary. |
| CartUtils.CountPresent | src/app/utils/cart-utils.tsx:5-11 | An id that occurs in the cart is counted at least once. |
| CartUtils.FoldMatchesReference | src/app/utils/cart-utils.tsx:5-11 | After the fold, the object's keys are exactly the cart's ids, created in first-occurrence order. Each key's line has the count of that id and the first item with it. |
| CartUtils.StepWellFormed | src/app/utils/cart-utils.tsx:6-10 | One loop step keeps the key order duplicate-free and in step with the object's keys. Each line stays under its own id with a positive quantity. |
| CartUtils.BumpValues | src/app/utils/cart-utils.tsx:6-7 | A repeated id bumps its line's quantity in place: only that position of `Object.values` changes. |
| CartUtils.AppendTotal | src/app/utils/cart-utils.tsx:8-9 | A new id appends one line with quantity 1 after the existing lines of `Object.values`, so the total grows by one. |
| CartUtils.StepTotal | src/app/utils/cart-utils.tsx:6-10 | Each loop step adds exactly one to the total quantity. |
| CartUtils.FoldTotal | src/app/utils/cart-utils.tsx:5-11 | Folding n items adds n to the total quantity. |
| CartUtils.FoldAppend | src/app/utils/cart-utils.tsx:5-11 | Folding a cart in two pieces, one after the other, is the same as folding it whole. |
| CartUtils.FoldRepeat | src/app/utils/cart-utils.tsx:6-9 | Adding a new product n times creates one line with quantity n, after the existing keys. |
| CartUtils.FoldExpand | src/app/utils/cart-utils.tsx:5-11 | Folding the cart rebuilt from a summary gives back that summary's lines keyed by id, in line order. |
| CartUtils.SummaryOfExpansion | src/app/utils/cart-utils.tsx:3-13 | Summarising a cart rebuilt from any summary (distinct ids, positive quantities) gives back that summary. |
| CartUtils.SummaryIdempotent | src/app/utils/cart-utils.tsx:3-13 | Summarising the cart rebuilt from a summary gives the same summary. |
| CartUtils.ExampleCart | src/app/utils/cart-utils.tsx:3-13 | The cart [X, Y, X] summarises to [X x2, Y x1], in that order. |
| ProductsPage.Find | src/app/products/page.tsx:74 | The lookup fails iff no catalog discount has the code. Otherwise it returns the discount at the first position holding the code. |
| ProductsPage.KindAlreadyUsed | src/app/products/page.tsx:77-80 | True iff some applied code resolves by the same lookup to a discount of the given type. An applied code missing from the catalog never matches. |
| ProductsPage.AddToCart | src/app/products/page.tsx:69-71 | The product is appended at the end of the cart. The applied codes are unchanged. |
| ProductsPage.UseDiscountCode | src/app/products/page.tsx:73-86 | Invalid iff no discount has the code. Type conflict iff the code is found and some applied code resolves to its type. Already used only for an applied code. Accepted iff found, not applied and no type conflict; then the code is appended and the cart is unchanged. |
| ProductsPage.AfterUseCode | src/app/products/page.tsx:75-85 | An accepted code's new state becomes the page state. A refused code leaves the page state as it was. |
| ProductsPage.ResetCart | src/app/products/page.tsx:88-91 | The cart and the applied codes are both empty. |
| ProductsPage.OrderLines | src/app/products/page.tsx:100-103 | One order line per summary line, with that line's product id and quantity, in the same order. |
| ProductsPage.OrderPayload | src/app/products/page.tsx:93-105 | No user is refused before an empty cart is checked. An order is built iff a user is selected and the cart is non-empty. It carries the user's id and the applied codes in order. |
| ProductsPage.ProceedToCheckout | src/app/products/page.tsx:93-117 | Refused iff no user is selected or the cart is empty. With no user the reason is "no user"; with a user and an empty cart it is "cart empty". A sent order carries the user's id, one line per cart-summary line and the applied codes. A 201 reply resets the state and records the order id. Any other status or an exception leaves the state as it was. |
| ProductsPage.AfterCheckout | src/app/products/page.tsx:93-111 | A sent order's next state becomes the page state. A refused checkout leaves the page state as it was. |
| ProductsPage.AlreadyUsedUnreachable | src/app/products/page.tsx:77-83 | For every catalog, state and code, use-code never reports "already used": re-applying a catalog code is caught by the type check. |
| ProductsPage.UseCodePreservesValidity | src/app/products/page.tsx:73-86 | If the applied codes are distinct, all in the catalog and of pairwise distinct types, they stay so after use-code. |
| ProductsPage.ApplyPreservesValidity | src/app/products/page.tsx:69-117 | Every page action (add, use code, reset, checkout) keeps the applied codes valid. |
| ProductsPage.RunPreservesValidity | src/app/products/page.tsx:69-117 | From the initial page, every sequence of actions leaves the applied codes valid. |
| ProductsPage.OrderDescribesCart | src/app/products/page.tsx:98-105 | A sent order has at least one line. Its lines are, in first-added order, the distinct cart ids, each paired with the number of times that id was added. The quantities sum to the cart size. |
| ProductsPage.OrderTotalMatches | src/app/products/page.tsx:100-103 | Turning summary lines into order lines keeps the total quantity. |
| ProductsPage.SaveAndSummerScenario | src/app/products/page.tsx:73-86 | SAVE10 is accepted. Re-applying it is refused as a type conflict. SUMMER (another type) is then appended after it. An unknown code is refused as invalid. |
| ProductsPage.TwoCouponsConflict | src/app/products/page.tsx:77-82 | With coupons A and B in the catalog and A applied, B is refused as a type conflict. |
| JsValues.Field | src/app/components/discount-modal.tsx:88-112 | `payload?.field` is present iff the payload exists and has the field, and then it is that field's value. |
| DiscountModal.ParseRule | src/app/components/discount-modal.tsx:4-10 | A string parses to a rule only if it is that rule's enum value. It fails only for strings that are no rule's value. |
| DiscountModal.ParseType | src/app/components/discount-modal.tsx:12-16 | A string parses to a type only if it is that type's enum value. It fails only for strings that are no type's value. |
| DiscountModal.RuleNameRoundTrip | src/app/components/discount-modal.tsx:4-10 | Every rule's enum value parses back to that rule. |
| DiscountModal.TypeNameRoundTrip | src/app/components/discount-modal.tsx:12-16 | Every type's enum value parses back to that type. |
| DiscountModal.GetRuleOptions | src/app/components/discount-modal.tsx:55-66 | coupon offers [fixed-amount, percentage-amount]; seasonal offers [price]; onTop offers [points, category]; any other string offers []. |
| DiscountModal.RuleOptionsPartition | src/app/components/discount-modal.tsx:55-66 | A rule is offered for a type exactly when it is that rule's single owning type. |
| DiscountModal.RuleOptionsDistinct | src/app/components/discount-modal.tsx:55-66 | No type offers a rule twice. A type string offers some rule iff it is one of the three types. |
| DiscountModal.CodeChange | src/app/components/discount-modal.tsx:146 | Typing a code sets only the code. |
| DiscountModal.TypeChange | src/app/components/discount-modal.tsx:43-48 | A type change sets the type, clears the rule to "" and the payload to {}. The code is unchanged. |
| DiscountModal.RuleChange | src/app/components/discount-modal.tsx:50-54 | A rule change sets the rule and clears the payload. Code and type are unchanged. |
| DiscountModal.PayloadChange | src/app/components/discount-modal.tsx:32-41 | The payload (a missing one read as {}) gains exactly the one field with the new value. Every other field keeps its value, and code, type and rule are unchanged. |
| DiscountModal.PayloadChangesCommute | src/app/components/discount-modal.tsx:32-41 | Setting two different fields gives the same draft in either order. |
| DiscountModal.PayloadChangeOverwrites | src/app/components/discount-modal.tsx:32-41 | Setting a field twice keeps only the later value. |
| DiscountModal.FillAfterRuleChange | src/app/components/discount-modal.tsx:32-54 | After a rule change, the payload holds exactly the fields entered since: no stale field of an earlier rule survives. |
| DiscountModal.FillKeepsLastValue | src/app/components/discount-modal.tsx:32-41 | After a rule change, each entered field holds the value entered for it last. |
| DiscountModal.Validate | src/app/components/discount-modal.tsx:74-116 | The first failing check is reported, in the order code, type, rule, payload. A payload error happens only for one of the five rules, and it is that rule's error. On success the draft is passed on unchanged. |
| DiscountModal.TypeChangeFailsOnRule | src/app/components/discount-modal.tsx:43-84 | Right after a type change, with code and type set, validation always fails on the rule. |
| DiscountModal.AcceptedHasRequiredFields | src/app/components/discount-modal.tsx:86-116 | An accepted draft with one of the five rules has every field of that rule's payload shape. |
| DiscountModal.TruthyRulesRejectZero | src/app/components/discount-modal.tsx:99-115 | An accepted points, price or category draft has both its fields truthy: 0, "" and absent are rejected. |
| DiscountModal.AmountRulesAcceptZero | src/app/components/discount-modal.tsx:87-97 | For fixed-amount and percentage-amount, the draft passes iff the field is present and is not "". A value of 0 passes. |
| DiscountModal.CompleteDraftAccepted | src/app/components/discount-modal.tsx:74-116 | Code, type and one of the five rules set, with every field of the rule's shape truthy: the draft is accepted. |
| DiscountModal.ValidationIgnoresRuleOptions | src/app/components/discount-modal.tsx:86-116 | Any non-empty rule outside the five passes with any payload. A coupon with the points rule passes once its fields are filled. |
| DiscountModal.RequiredFieldsDistinct | src/app/interfaces/discountPayload.tsx:1-21 | No payload shape names a field twice. |
| DiscountModal.FormFlowAccepted | src/app/components/discount-modal.tsx:142-257 | Entering a code, a type, one of the rules offered for it and a truthy value in each input shown for that rule always yields an accepted draft. |
| DiscountModal.CategoryFormAccepted | src/app/components/discount-modal.tsx:235-255 | Choosing any category the select offers and a non-zero percent, after a code and the onTop type, gives an accepted draft. |
| DiscountModal.ValidationExamples | src/app/components/discount-modal.tsx:74-103 | The empty form (page.tsx:35) is refused for its missing code first. A coupon with fixed amount 0 is accepted. An onTop points draft with only maxPercent is refused for the missing amount. |
| DiscountCard.RenderDiscountDetails | src/app/components/discount-card.tsx:26-72 | onTop: a truthy category wins, whatever the amount; otherwise a truthy amount gives the fixed-amount line. coupon: a truthy percent wins over the amount. seasonal: a line only with a truthy countPerPrice. No details iff the type is unknown or no checked field is truthy. |
| DiscountCard.DetailsComeFromPayload | src/app/components/discount-card.tsx:26-72 | Every description leads with a truthy field read from the payload. |
| DiscountCard.CreatedDiscountDescribed | src/app/components/discount-card.tsx:26-72 | A discount accepted by the form with a rule its type offers has no card description iff it is a coupon whose amount and percent fields are both falsy. |
| DiscountCard.ZeroCouponUndescribed | src/app/components/discount-card.tsx:44-59 | A coupon with fixed amount 0 is accepted by the form, but its card shows no description. |

## Left out

- HTTP I/O is not modelled: the GETs in src/app/utils/fetch-product-utils.tsx, `loadInitialData`, and the user, product and discount creation POSTs. The order POST's reply is a parameter of `ProceedToCheckout`.
- The navigation to the order page after a created order is left out. Only the order id the page records is returned.
- The catalog is fixed for the session. The reloads after creating a user, product or discount are left out; they could change what applied codes resolve to.
- A catalog discount's type is always a string here. A discount without a type (JavaScript `undefined`) is not modelled.
- Product prices are carried as `real` and never computed with. Floating-point work (`parseFloat`, line totals, `toLocaleString`) is left out.
- Presentation components, theme, JSX layout, modal open flags, the `isSubmitting` and `error` UI state, console logging and alert texts are left out. Alerts become rejection values.
- The user and product forms (`handleChangeNewUser`, `handleChangeNewProduct`, their submit handlers) are pure field binding and HTTP, so they are left out.
- The discount submission that follows a successful validation is HTTP and is left out. `Validate` hands the draft on unchanged.
- React's asynchronous `setState` batching is left out. Each handler is one sequential transition.
- `Object.values` lists integer-like keys first, in numeric order. That is not modelled: ids are taken to be non-integer-like strings, listed in creation order.
- The check `summary[item._id]` is modelled as key membership. Ids that name properties inherited by every object (`constructor`, `toString`, ...) would read as present in the source and are not modelled.
- A payload held as a string (the props interface allows `string | object`) is not modelled. Payloads are objects or missing.
- src/app/interfaces/product.tsx is not part of this model. Product fields follow the product card's data props (src/app/components/product-card.tsx:22-27), the optional image included; the `onAddToCart` callback is behaviour, not data.
- ProductsPage.UseDiscountCode: the "already used" outcome is stated in one direction only (it implies the code is applied), because `ProductsPage.AlreadyUsedUnreachable` proves it never occurs.
