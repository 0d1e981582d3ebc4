/** The records the order-history list reads. Every field that the component
    guards with `?.` or a truthiness test is an `Option`. */
module OrderModel {
  import opened Wrappers

  /** The merchant an order was placed with. */
  datatype Company = Company(
    name: Option<string>,
    profileImage: Option<string>,
    slug: Option<string>)

  /** One product line of an order. */
  datatype LineItem = LineItem(
    productName: string,
    quantity: int,
    subtotal: int,
    productImage: Option<string>,
    selectedFlavors: Option<seq<string>>,
    selectedFlavor: Option<string>,
    comboItems: Option<seq<string>>,
    removedIngredients: Option<seq<string>>)

  /** A placed order. `createdAt` is the raw timestamp text handed to the
      locale formatter; `total` is an amount in the currency formatter's unit. */
  datatype Order = Order(
    id: string,
    createdAt: string,
    status: string,
    companyId: string,
    company: Option<Company>,
    items: seq<LineItem>,
    total: int,
    paymentMethod: string)

  /** JavaScript truthiness of an optional string: present and not empty. */
  predicate Truthy(s: Option<string>)
  {
    s.Some? && s.value != ""
  }

  /** Present and holding at least one element (`xs && xs.length > 0`). */
  predicate NonEmptyList(xs: Option<seq<string>>)
  {
    xs.Some? && |xs.value| > 0
  }
}
