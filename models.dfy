/** The records the pricing API exchanges: catalog products, the quote
    request and its lines, and the quote it answers with. */
module Models {
  import opened Optional

  /** A catalog product. Only the fields the quote engine and the catalog
      filters read are kept; `stock == None` is an explicit null, which means
      "not constrained". */
  datatype Product = Product(
    id: string,
    name: string,
    price: int,
    img: Option<string>,
    category: Option<string>,
    stock: Option<int>)

  /** A product built from a record that gives only the required fields:
      every optional field is null except `stock`, which defaults to 0. */
  function NewProduct(id: string, name: string, price: int): (p: Product)
    ensures p.id == id && p.name == name && p.price == price
    ensures p.img == None && p.category == None
    ensures p.stock == Some(0)
  {
    Product(id, name, price, None, None, Some(0))
  }

  /** One requested line of a quote: a product id and a quantity. */
  datatype QuoteItemIn = QuoteItemIn(id: string, qty: int)

  /** The validation a requested line passes at the API boundary. */
  predicate ValidItem(it: QuoteItemIn) {
    it.qty > 0
  }

  /** Validation of a requested line: a line whose quantity is not strictly
      positive is rejected. */
  function ParseQuoteItem(id: string, qty: int): (r: Option<QuoteItemIn>)
    ensures r.Some? <==> qty > 0
    ensures r.Some? ==> ValidItem(r.value) && r.value.id == id && r.value.qty == qty
  {
    if qty > 0 then Some(QuoteItemIn(id, qty)) else None
  }

  /** A quote request. */
  datatype QuoteIn = QuoteIn(
    items: seq<QuoteItemIn>,
    coupon: Option<string>,
    deliveryCity: Option<string>,
    deliveryMethod: Option<string>)

  /** A request that names only its lines: no coupon, delivery to Bogota by
      the standard method. */
  function NewQuoteIn(items: seq<QuoteItemIn>): (q: QuoteIn)
    ensures q.items == items && q.coupon == None
    ensures q.deliveryCity == Some("bogota") && q.deliveryMethod == Some("standard")
  {
    QuoteIn(items, None, Some("bogota"), Some("standard"))
  }

  /** One priced line of a quote. */
  datatype QuoteLine = QuoteLine(
    id: string,
    name: string,
    unitPrice: int,
    qty: int,
    amount: int,
    img: Option<string>)

  /** The answer to a quote request. All money is in whole currency units. */
  datatype QuoteOut = QuoteOut(
    items: seq<QuoteLine>,
    subtotal: int,
    discount: int,
    shipping: int,
    total: int,
    warnings: seq<string>,
    appliedCoupon: Option<string>)

  /** A quote built without warnings or coupon arguments gets the defaults:
      no warnings and no applied coupon. */
  function NewQuoteOut(items: seq<QuoteLine>, subtotal: int, discount: int, shipping: int, total: int): (q: QuoteOut)
    ensures q.items == items && q.subtotal == subtotal && q.discount == discount
    ensures q.shipping == shipping && q.total == total
    ensures q.warnings == [] && q.appliedCoupon == None
  {
    QuoteOut(items, subtotal, discount, shipping, total, [], None)
  }
}
