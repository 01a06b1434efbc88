/**
 * The records the storefront holds in page memory: products and discounts fetched from the
 * API, and users to check out for.
 */
module Entities {
  import opened Wrappers
  import opened JsValues

  /**
   * A product as fetched from `/products`. The price is only displayed and multiplied by the
   * quantity for display, so it is carried but never computed with. The image is optional and
   * never displayed: the card always shows a picture chosen by the product's category.
   */
  datatype Product = Product(id: string, name: string, category: string, price: real, image: Option<string>)

  /** A user that can be selected for checkout; only the id reaches the order. */
  datatype User = User(id: string, firstName: string, lastName: string, email: string)

  /**
   * A discount as fetched from `/discounts`: its code, its type (`coupon`, `seasonal`,
   * `onTop`, but held as the string the API sent), its rule and its untyped payload.
   */
  datatype Discount = Discount(code: string, kind: string, rule: string, payload: Payload)
}
