/** The records the storefront passes around: catalogue products and coupons (the
    `products` and `coupons` arrays of its static data file) and cart lines. */
module Catalog {
  import opened Wrappers

  /** A catalogue entry. `originalPrice` is present only on discounted items; `inStock` is the
      number of units available. */
  datatype Product = Product(
    id: int,
    name: string,
    slug: string,
    category: string,
    price: real,
    originalPrice: Option<real>,
    image: string,
    inStock: int,
    isNew: bool,
    onSale: bool,
    isFeatured: bool)

  /** A cart line: a snapshot of the product taken when it was added, its quantity, and the
      stock level seen at that moment (`maxStock`). */
  datatype LineItem = LineItem(
    id: int,
    name: string,
    price: real,
    image: string,
    quantity: int,
    maxStock: int)

  /** A coupon's `type`: 'percentage' takes a share of the subtotal; every other type is
      treated as a fixed amount. */
  datatype DiscountKind = Percentage | Fixed

  /** A coupon record; `validFrom` and `validTo` are instants on one integer time line. */
  datatype Coupon = Coupon(
    code: string,
    kind: DiscountKind,
    discount: real,
    minAmount: real,
    validFrom: int,
    validTo: int)
}
