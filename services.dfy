/** The checkout quote engine: shipping lookup with fallback tiers, coupon
    application, and the single pass that prices the requested lines
    against a catalog snapshot. */
module Services {
  import opened Optional
  import opened Text
  import opened Models
  import opened Config

  function Max(a: int, b: int): int { if a < b then b else a }

  function Min(a: int, b: int): int { if a < b then a else b }

  /** Python's `x or default` on an optional string: a null or empty string
      gives way to the default. */
  function OrDefault(s: Option<string>, default: string): (r: string)
    ensures s.Some? && s.value != "" ==> r == s.value
    ensures s.None? || s.value == "" ==> r == default
    ensures default != "" ==> r != ""
  {
    if s.Some? && s.value != "" then s.value else default
  }

  // ---------------------------------------------------------------------------
  // Shipping

  /** The shipping rate for a delivery: the city is looked up in lower case and
      an unknown city uses the `_default` row; within the row an unknown method
      uses the row's `standard` rate. */
  function ShippingCost(table: ShippingTable, city: string, delivery: string): (r: int)
    requires ShippingTableOk(table)
    ensures RatesNonNegative(table) ==> r >= 0
    ensures exists c :: c in table && (r == table[c]["standard"] || (delivery in table[c] && r == table[c][delivery]))
  {
    var row := if Lower(city) in table then table[Lower(city)] else table["_default"];
    if delivery in row then row[delivery] else row["standard"]
  }

  /** The city's case does not matter: a city costs what its lower-case form
      costs. */
  lemma ShippingIgnoresCityCase(table: ShippingTable, city: string, delivery: string)
    requires ShippingTableOk(table)
    ensures ShippingCost(table, city, delivery) == ShippingCost(table, Lower(city), delivery)
  {
    LowerIdempotent(city);
  }

  /** The fallback tiers: a known city and method give that rate; a known city
      with an unknown method costs what its standard delivery costs; an
      unknown city costs what the `_default` row costs. */
  lemma ShippingFallbacks(table: ShippingTable, city: string, delivery: string)
    requires ShippingTableOk(table)
    ensures Lower(city) in table && delivery in table[Lower(city)] ==>
      ShippingCost(table, city, delivery) == table[Lower(city)][delivery]
    ensures Lower(city) in table && delivery !in table[Lower(city)] ==>
      ShippingCost(table, city, delivery) == ShippingCost(table, city, "standard")
    ensures Lower(city) !in table ==>
      ShippingCost(table, city, delivery) == ShippingCost(table, "_default", delivery)
  {
    LowerOfLowercase("_default");
  }

  // ---------------------------------------------------------------------------
  // Coupons

  /** Python's `int(a / 100)`: the hundredth of `a` truncated toward zero,
      so it rounds down for a non-negative `a` and up for a negative one. */
  function TruncDiv100(a: int): (r: int)
    ensures a >= 0 ==> 0 <= 100 * r <= a < 100 * r + 100
    ensures a < 0 ==> 100 * r - 100 < a <= 100 * r <= 0
  {
    if a >= 0 then a / 100 else -((-a) / 100)
  }

  /** What applying a coupon gives: the discount, the shipping charged after
      it, and the code that was applied, if any. */
  datatype CouponOutcome = CouponOutcome(discount: int, shipping: int, applied: Option<string>)

  /** Applies a coupon code, looked up in upper case, to a subtotal and a
      shipping charge. A missing, empty or unregistered code, or a coupon of
      an unknown kind, changes nothing. */
  function ApplyCoupon(coupons: CouponTable, code: Option<string>, subtotal: int, shipping: int): (r: CouponOutcome)
    requires CouponsOk(coupons)
    ensures r.applied.None? ==> r.discount == 0 && r.shipping == shipping
    ensures r.applied.Some? <==>
      code.Some? && code.value != "" && Upper(code.value) in coupons
      && coupons[Upper(code.value)].kind in {"percent", "amount", "shipping_free"}
    ensures r.applied.Some? ==> r.applied.value == Upper(code.value)
    ensures r.shipping == shipping || r.shipping == 0
    ensures subtotal >= 0 && PercentsAtMost100(coupons) ==> r.discount <= subtotal
    ensures subtotal >= 0 && CouponValuesNonNegative(coupons) ==> r.discount >= 0
    ensures r.applied.Some? ==>
      var c := coupons[Upper(code.value)];
      && (c.kind == "percent" ==> r == CouponOutcome(TruncDiv100(subtotal * c.value.value), shipping, r.applied))
      && (c.kind == "amount" ==> r == CouponOutcome(Min(subtotal, c.value.value), shipping, r.applied))
      && (c.kind == "shipping_free" ==> r == CouponOutcome(0, 0, r.applied))
    ensures r.shipping != shipping ==>
      r.applied.Some? && r.applied.value in coupons && coupons[r.applied.value].kind == "shipping_free"
  {
    if code.None? || code.value == "" then CouponOutcome(0, shipping, None)
    else if Upper(code.value) !in coupons then CouponOutcome(0, shipping, None)
    else
      var c := coupons[Upper(code.value)];
      if c.kind == "percent" then
        PercentAtMostWhole(subtotal, c.value.value);
        CouponOutcome(TruncDiv100(subtotal * c.value.value), shipping, Some(Upper(code.value)))
      else if c.kind == "amount" then
        CouponOutcome(Min(subtotal, c.value.value), shipping, Some(Upper(code.value)))
      else if c.kind == "shipping_free" then
        CouponOutcome(0, 0, Some(Upper(code.value)))
      else
        CouponOutcome(0, shipping, None)
  }

  /** A percentage of at most 100 of a non-negative amount is at most that
      amount, and it is non-negative when the percentage is. */
  lemma PercentAtMostWhole(subtotal: int, percent: int)
    ensures subtotal >= 0 && percent <= 100 ==> TruncDiv100(subtotal * percent) <= subtotal
    ensures subtotal >= 0 && percent >= 0 ==> TruncDiv100(subtotal * percent) >= 0
  {
    if subtotal >= 0 && percent <= 100 {
      assert subtotal * percent <= subtotal * 100;
    }
    if subtotal >= 0 && percent >= 0 {
      assert subtotal * percent >= 0;
    }
  }

  /** A coupon code is looked up without regard to case. */
  lemma CouponIgnoresCase(coupons: CouponTable, code: string, subtotal: int, shipping: int)
    requires CouponsOk(coupons)
    ensures ApplyCoupon(coupons, Some(code), subtotal, shipping) == ApplyCoupon(coupons, Some(Upper(code)), subtotal, shipping)
  {
    UpperIdempotent(code);
  }

  // ---------------------------------------------------------------------------
  // Pricing the requested lines

  /** The catalog keyed by product id; when two products share an id, the later
      one wins. */
  function IdMap(products: seq<Product>): (m: map<string, Product>)
    ensures forall id :: id in m ==> m[id].id == id
    ensures forall i :: 0 <= i < |products| ==> products[i].id in m
  {
    if products == [] then map[]
    else
      var last := products[|products| - 1];
      IdMap(products[..|products| - 1])[last.id := last]
  }

  /** Every product found under an id comes from the catalog. */
  lemma {:induction false} IdMapFromCatalog(products: seq<Product>)
    ensures forall id :: id in IdMap(products) ==> IdMap(products)[id] in products
  {
    if products != [] {
      var n := |products| - 1;
      IdMapFromCatalog(products[..n]);
      forall id | id in IdMap(products) ensures IdMap(products)[id] in products {
        if id != products[n].id {
          assert IdMap(products)[id] == IdMap(products[..n])[id];
          assert IdMap(products[..n])[id] in products[..n];
        }
      }
    }
  }

  /** When two products share an id the later one wins: the last product of
      the catalog with a given id is the one found under that id. */
  lemma {:induction false} IdMapLastWins(products: seq<Product>, i: int)
    requires 0 <= i < |products|
    requires forall j :: i < j < |products| ==> products[j].id != products[i].id
    ensures IdMap(products)[products[i].id] == products[i]
  {
    var n := |products| - 1;
    if i < n {
      var init := products[..n];
      assert init[i] == products[i];
      IdMapLastWins(init, i);
      assert IdMap(products) == IdMap(init)[products[n].id := products[n]];
    }
  }

  /** The warning for a requested id that is not in the catalog. */
  function MissingWarning(id: string): string {
    "Producto " + id + " no existe."
  }

  /** The warning for a request that exceeds the product's stock. */
  function ShortageWarning(name: string, qty: int, stock: int): string {
    "Stock insuficiente para " + name + " (solicitado " + IntToString(qty) + ", stock " + IntToString(stock) + ")."
  }

  /** What one requested line turns into: only a warning, or a priced line
      with perhaps a shortage warning. */
  datatype ItemOutcome =
    | Missing(warning: string)
    | Priced(line: QuoteLine, shortage: Option<string>)

  /** Prices one requested line: the quantity is raised to at least 1, then
      lowered to the stock when the stock is known and short. */
  function PriceItem(it: QuoteItemIn, catalog: map<string, Product>): (o: ItemOutcome)
    ensures o.Missing? <==> it.id !in catalog
    ensures o.Missing? ==> o.warning == MissingWarning(it.id)
    ensures o.Priced? ==>
      var p := catalog[it.id];
      var want := Max(1, it.qty);
      && o.line == QuoteLine(p.id, p.name, p.price, o.line.qty, p.price * o.line.qty, p.img)
      && (o.shortage.Some? <==> p.stock.Some? && p.stock.value < want)
      && (o.shortage.None? ==> o.line.qty == want)
      && (o.shortage.Some? ==>
            o.line.qty == Max(0, p.stock.value) && o.shortage.value == ShortageWarning(p.name, want, p.stock.value))
  {
    if it.id !in catalog then Missing(MissingWarning(it.id))
    else
      var p := catalog[it.id];
      var want := Max(1, it.qty);
      var short := p.stock.Some? && p.stock.value < want;
      var qty := if short then Max(0, p.stock.value) else want;
      Priced(QuoteLine(p.id, p.name, p.price, qty, p.price * qty, p.img),
             if short then Some(ShortageWarning(p.name, want, p.stock.value)) else None)
  }

  /** The priced lines, the warnings and the subtotal of a pass over a
      prefix of the requested lines. */
  datatype Resolution = Resolution(lines: seq<QuoteLine>, warnings: seq<string>, subtotal: int)

  /** The sum of the line amounts. */
  function SumAmounts(lines: seq<QuoteLine>): int {
    if lines == [] then 0 else SumAmounts(lines[..|lines| - 1]) + lines[|lines| - 1].amount
  }

  /** A priced line agrees with the catalog entry it was priced from: the
      amount is price times quantity, the quantity is not negative, it never
      exceeds a known non-negative stock, and it is at least 1 when stock is
      unconstrained. */
  predicate LineSound(l: QuoteLine, catalog: map<string, Product>) {
    && l.id in catalog
    && var p := catalog[l.id];
    && l.name == p.name && l.unitPrice == p.price && l.img == p.img
    && l.amount == l.unitPrice * l.qty
    && 0 <= l.qty
    && (p.stock.Some? && p.stock.value >= 0 ==> l.qty <= p.stock.value)
    && (p.stock.None? ==> l.qty >= 1)
  }

  /** Adds the outcome of one more requested line to a pass. */
  function Absorb(r: Resolution, o: ItemOutcome): Resolution {
    match o
    case Missing(w) => r.(warnings := r.warnings + [w])
    case Priced(l, s) =>
      Resolution(r.lines + [l], r.warnings + (if s.Some? then [s.value] else []), r.subtotal + l.amount)
  }

  /** The pass over the requested lines, in order: each line's outcome is
      added to the pass over the lines before it. */
  function Resolve(items: seq<QuoteItemIn>, catalog: map<string, Product>): (r: Resolution)
    ensures |r.lines| <= |items|
  {
    if items == [] then Resolution([], [], 0)
    else Absorb(Resolve(items[..|items| - 1], catalog), PriceItem(items[|items| - 1], catalog))
  }

  /** Every emitted line is sound with respect to the catalog, and the
      subtotal is the sum of the emitted amounts. */
  lemma {:induction false} ResolveSound(items: seq<QuoteItemIn>, catalog: map<string, Product>)
    requires forall id :: id in catalog ==> catalog[id].id == id
    ensures var r := Resolve(items, catalog);
      && r.subtotal == SumAmounts(r.lines)
      && forall k :: 0 <= k < |r.lines| ==> LineSound(r.lines[k], catalog)
  {
    if items != [] {
      var n := |items| - 1;
      ResolveSound(items[..n], catalog);
      var prev := Resolve(items[..n], catalog);
      var o := PriceItem(items[n], catalog);
      if o.Priced? {
        var lines := prev.lines + [o.line];
        assert lines[..|prev.lines|] == prev.lines;
        assert LineSound(o.line, catalog);
        forall k | 0 <= k < |lines| ensures LineSound(lines[k], catalog) {
          if k < |prev.lines| {
            assert lines[k] == prev.lines[k];
          }
        }
      }
    }
  }

  /** Two passes one after the other. */
  function Join(a: Resolution, b: Resolution): Resolution {
    Resolution(a.lines + b.lines, a.warnings + b.warnings, a.subtotal + b.subtotal)
  }

  /** The pass handles each requested line independently and in order: the
      pass over `a + b` is the pass over `a` followed by the pass over `b`. */
  lemma {:induction false} ResolveAppend(a: seq<QuoteItemIn>, b: seq<QuoteItemIn>, catalog: map<string, Product>)
    ensures Resolve(a + b, catalog) == Join(Resolve(a, catalog), Resolve(b, catalog))
  {
    if b == [] {
      assert a + b == a;
    } else {
      var n := |b| - 1;
      var o := PriceItem(b[n], catalog);
      ResolveAppend(a, b[..n], catalog);
      assert (a + b)[..|a + b| - 1] == a + b[..n];
      assert (a + b)[|a + b| - 1] == b[n];
      assert Resolve(a + b, catalog) == Absorb(Resolve(a + b[..n], catalog), o);
      assert Resolve(b, catalog) == Absorb(Resolve(b[..n], catalog), o);
      JoinAbsorb(Resolve(a, catalog), Resolve(b[..n], catalog), o);
    }
  }

  lemma JoinAbsorb(x: Resolution, y: Resolution, o: ItemOutcome)
    ensures Absorb(Join(x, y), o) == Join(x, Absorb(y, o))
  {
    match o
    case Missing(w) =>
      assert x.warnings + y.warnings + [w] == x.warnings + (y.warnings + [w]);
    case Priced(l, s) =>
      var ws := if s.Some? then [s.value] else [];
      assert x.lines + y.lines + [l] == x.lines + (y.lines + [l]);
      assert x.warnings + y.warnings + ws == x.warnings + (y.warnings + ws);
  }

  /** A requested id that is not in the catalog gives no line and exactly one
      warning, which names the id. */
  lemma UnknownIdWarnsOnce(it: QuoteItemIn, catalog: map<string, Product>)
    requires it.id !in catalog
    ensures Resolve([it], catalog) == Resolution([], ["Producto " + it.id + " no existe."], 0)
  {
    assert [it][..0] == [];
  }

  /** An unknown id in the middle of a request is skipped with its warning,
      and the lines before and after it are priced as if it were absent. */
  lemma UnknownIdSkipped(a: seq<QuoteItemIn>, it: QuoteItemIn, b: seq<QuoteItemIn>, catalog: map<string, Product>)
    requires it.id !in catalog
    ensures Resolve(a + [it] + b, catalog).lines == Resolve(a, catalog).lines + Resolve(b, catalog).lines
    ensures Resolve(a + [it] + b, catalog).warnings ==
      Resolve(a, catalog).warnings + [MissingWarning(it.id)] + Resolve(b, catalog).warnings
    ensures Resolve(a + [it] + b, catalog).subtotal == Resolve(a, catalog).subtotal + Resolve(b, catalog).subtotal
  {
    ResolveAppend(a + [it], b, catalog);
    ResolveAppend(a, [it], catalog);
    UnknownIdWarnsOnce(it, catalog);
  }

  /** A requested line of a known product yields exactly one priced line. Its
      quantity is the request raised to at least 1 when the stock covers that;
      otherwise it is the stock (or 0 for a negative stock) and one shortage
      warning reports the raised request. */
  lemma KnownIdPriced(it: QuoteItemIn, catalog: map<string, Product>)
    requires forall id :: id in catalog ==> catalog[id].id == id
    requires it.id in catalog
    ensures var r := Resolve([it], catalog);
      var p := catalog[it.id];
      var want := if it.qty < 1 then 1 else it.qty;
      && |r.lines| == 1
      && r.lines[0].id == it.id
      && r.subtotal == r.lines[0].amount == p.price * r.lines[0].qty
      && (p.stock.None? || p.stock.value >= want ==> r.lines[0].qty == want && r.warnings == [])
      && (p.stock.Some? && p.stock.value < want ==>
            && r.lines[0].qty == (if p.stock.value < 0 then 0 else p.stock.value)
            && r.warnings == [ShortageWarning(p.name, want, p.stock.value)])
  {
    assert [it][..0] == [];
  }

  /** A product given without a stock field has stock 0, so every request for
      it is cut to quantity 0 with a shortage warning. */
  lemma DefaultStockClampsToZero(it: QuoteItemIn, name: string, price: int)
    ensures var catalog := map[it.id := NewProduct(it.id, name, price)];
      var r := Resolve([it], catalog);
      |r.lines| == 1 && r.lines[0].qty == 0 && r.subtotal == 0 && |r.warnings| == 1
  {
    var catalog := map[it.id := NewProduct(it.id, name, price)];
    KnownIdPriced(it, catalog);
  }

  /** At the API boundary every requested quantity is positive, so raising it to
      at least 1 changes nothing: with unconstrained stock every line gets
      exactly the quantity asked for. */
  lemma {:induction false} ValidRequestsKeepQuantities(items: seq<QuoteItemIn>, catalog: map<string, Product>)
    requires forall k :: 0 <= k < |items| ==> ValidItem(items[k]) && items[k].id in catalog
    requires forall id :: id in catalog ==> catalog[id].stock.None?
    ensures |Resolve(items, catalog).lines| == |items|
    ensures forall k :: 0 <= k < |items| ==> Resolve(items, catalog).lines[k].qty == items[k].qty
    ensures Resolve(items, catalog).warnings == []
  {
    if items != [] {
      var n := |items| - 1;
      var init := items[..n];
      assert forall k :: 0 <= k < n ==> init[k] == items[k];
      ValidRequestsKeepQuantities(init, catalog);
      var prev := Resolve(init, catalog);
      var o := PriceItem(items[n], catalog);
      assert o.Priced? && o.line.qty == items[n].qty && o.shortage.None?;
      var lines := prev.lines + [o.line];
      assert Resolve(items, catalog) == Resolution(lines, prev.warnings, prev.subtotal + o.line.amount);
      forall k | 0 <= k < |items| ensures lines[k].qty == items[k].qty {
        if k < n {
          assert lines[k] == prev.lines[k];
        }
      }
    }
  }

  /** Non-negative prices give a non-negative subtotal. */
  lemma {:induction false} SubtotalNonNegative(items: seq<QuoteItemIn>, catalog: map<string, Product>)
    requires forall id :: id in catalog ==> catalog[id].id == id && catalog[id].price >= 0
    ensures Resolve(items, catalog).subtotal >= 0
  {
    var r := Resolve(items, catalog);
    ResolveSound(items, catalog);
    SumOfSoundLines(r.lines, catalog);
  }

  lemma {:induction false} SumOfSoundLines(lines: seq<QuoteLine>, catalog: map<string, Product>)
    requires forall id :: id in catalog ==> catalog[id].price >= 0
    requires forall k :: 0 <= k < |lines| ==> LineSound(lines[k], catalog)
    ensures SumAmounts(lines) >= 0
  {
    if lines != [] {
      var n := |lines| - 1;
      SumOfSoundLines(lines[..n], catalog);
      var l := lines[n];
      assert LineSound(l, catalog);
      assert l.amount >= 0 by {
        assert l.unitPrice >= 0 && l.qty >= 0;
      }
    }
  }

  // ---------------------------------------------------------------------------
  // The quote

  /** The quote for a request: the pass over the requested lines, shipping
      to the request's city by its method (Bogota and standard when either is
      missing or empty), the coupon, and a total that never goes below zero. */
  function QuoteFor(itemsIn: seq<QuoteItemIn>, products: seq<Product>, payload: QuoteIn): (q: QuoteOut)
    ensures q.total >= 0
    ensures q.total == Max(0, q.subtotal - q.discount + q.shipping)
    ensures q.subtotal == SumAmounts(q.items)
    ensures var r := Resolve(itemsIn, IdMap(products));
      q.items == r.lines && q.warnings == r.warnings && q.subtotal == r.subtotal
    // A fact about the configured tables, stated so that the next clause's
    // calls to ShippingCost and ApplyCoupon meet their preconditions.
    ensures ShippingTableOk(Rates) && CouponsOk(Coupons)
    ensures var rate := ShippingCost(Rates, OrDefault(payload.deliveryCity, "bogota"), OrDefault(payload.deliveryMethod, "standard"));
      CouponOutcome(q.discount, q.shipping, q.appliedCoupon) == ApplyCoupon(Coupons, payload.coupon, q.subtotal, rate)
  {
    RatesWellFormed();
    CouponsWellFormed();
    ResolveSound(itemsIn, IdMap(products));
    var r := Resolve(itemsIn, IdMap(products));
    var shipping := ShippingCost(Rates, OrDefault(payload.deliveryCity, "bogota"), OrDefault(payload.deliveryMethod, "standard"));
    var c := ApplyCoupon(Coupons, payload.coupon, r.subtotal, shipping);
    QuoteOut(r.lines, r.subtotal, c.discount, c.shipping, Max(0, r.subtotal - c.discount + c.shipping), r.warnings, c.applied)
  }

  /** A missing or empty city is delivered to as Bogota, and a missing or
      empty method as standard delivery. */
  lemma DefaultDelivery(itemsIn: seq<QuoteItemIn>, products: seq<Product>, payload: QuoteIn)
    ensures payload.deliveryCity in {None, Some("")} ==>
      QuoteFor(itemsIn, products, payload) == QuoteFor(itemsIn, products, payload.(deliveryCity := Some("bogota")))
    ensures payload.deliveryMethod in {None, Some("")} ==>
      QuoteFor(itemsIn, products, payload) == QuoteFor(itemsIn, products, payload.(deliveryMethod := Some("standard")))
  {
  }

  /** With non-negative prices the discount is between zero and the
      subtotal, and shipping is either the table rate or zero. */
  lemma DiscountWithinSubtotal(itemsIn: seq<QuoteItemIn>, products: seq<Product>, payload: QuoteIn)
    requires forall p :: p in products ==> p.price >= 0
    ensures var q := QuoteFor(itemsIn, products, payload);
      0 <= q.discount <= q.subtotal && q.shipping >= 0
  {
    RatesWellFormed();
    CouponsWellFormed();
    IdMapFromCatalog(products);
    SubtotalNonNegative(itemsIn, IdMap(products));
  }

  /** The pass over one more requested line adds that line's outcome. */
  lemma ResolveStep(items: seq<QuoteItemIn>, i: int, catalog: map<string, Product>)
    requires 0 <= i < |items|
    ensures Resolve(items[..i + 1], catalog) == Absorb(Resolve(items[..i], catalog), PriceItem(items[i], catalog))
  {
    assert items[..i + 1][..i] == items[..i];
  }

  /** Prices a request in one pass over the requested lines, appending priced
      lines and warnings and accumulating the subtotal. */
  method MakeQuote(itemsIn: seq<QuoteItemIn>, products: seq<Product>, payload: QuoteIn) returns (out: QuoteOut)
    ensures out == QuoteFor(itemsIn, products, payload)
    ensures out.total >= 0 && out.subtotal == SumAmounts(out.items)
    ensures |out.items| <= |itemsIn|
  {
    var idMap := IdMap(products);
    var itemsOut: seq<QuoteLine> := [];
    var warnings: seq<string> := [];
    var subtotal := 0;
    for i := 0 to |itemsIn|
      invariant Resolution(itemsOut, warnings, subtotal) == Resolve(itemsIn[..i], idMap)
    {
      ResolveStep(itemsIn, i, idMap);
      var it := itemsIn[i];
      if it.id !in idMap {
        warnings := warnings + [MissingWarning(it.id)];
        continue;
      }
      var prod := idMap[it.id];
      var qty := Max(1, it.qty);
      ghost var shortage: Option<string> := None;
      if prod.stock.Some? && prod.stock.value < qty {
        shortage := Some(ShortageWarning(prod.name, qty, prod.stock.value));
        warnings := warnings + [ShortageWarning(prod.name, qty, prod.stock.value)];
        qty := Max(0, prod.stock.value);
      }
      assert PriceItem(it, idMap) == Priced(QuoteLine(prod.id, prod.name, prod.price, qty, prod.price * qty, prod.img), shortage);
      var line := prod.price * qty;
      subtotal := subtotal + line;
      itemsOut := itemsOut + [QuoteLine(prod.id, prod.name, prod.price, qty, line, prod.img)];
    }
    assert itemsIn[..|itemsIn|] == itemsIn;
    RatesWellFormed();
    CouponsWellFormed();
    var shipping := ShippingCost(Rates, OrDefault(payload.deliveryCity, "bogota"), OrDefault(payload.deliveryMethod, "standard"));
    var c := ApplyCoupon(Coupons, payload.coupon, subtotal, shipping);
    var total := Max(0, subtotal - c.discount + c.shipping);
    out := QuoteOut(itemsOut, subtotal, c.discount, c.shipping, total, warnings, c.applied);
  }

  // ---------------------------------------------------------------------------
  // Worked cases against the configured tables

  /** Shipping to "Bogota" by express costs what "bogota" costs, 16000; an
      unknown city falls back to the `_default` row and an unknown method to
      the city's standard rate. */
  lemma ShippingExamples()
    ensures ShippingTableOk(Rates)
    ensures ShippingCost(Rates, "Bogota", "express") == ShippingCost(Rates, "bogota", "express") == 16000
    ensures ShippingCost(Rates, "Pasto", "express") == 20000
    ensures ShippingCost(Rates, "medellin", "drone") == 10000
  {
    RatesWellFormed();
    ShippingIgnoresCityCase(Rates, "Bogota", "express");
    assert Lower("Bogota") == "bogota";
    assert Lower("Pasto") == "pasto";
    assert "pasto" !in Rates;
    LowerOfLowercase("medellin");
  }

  /** The configured coupons: HOLA10 takes 10% of 100000, RM-20K is capped at
      a subtotal of 15000, ENVIOFREE zeroes shipping whatever the subtotal,
      and the unregistered NOPE changes nothing. */
  lemma CouponExamples(subtotal: int, shipping: int)
    ensures CouponsOk(Coupons)
    ensures ApplyCoupon(Coupons, Some("HOLA10"), 100000, shipping) == CouponOutcome(10000, shipping, Some("HOLA10"))
    ensures ApplyCoupon(Coupons, Some("RM-20K"), 15000, shipping) == CouponOutcome(15000, shipping, Some("RM-20K"))
    ensures ApplyCoupon(Coupons, Some("enviofree"), subtotal, shipping) == CouponOutcome(0, 0, Some("ENVIOFREE"))
    ensures ApplyCoupon(Coupons, Some("NOPE"), subtotal, shipping) == CouponOutcome(0, shipping, None)
  {
    CouponsWellFormed();
    UpperOfUppercase("HOLA10");
    UpperOfUppercase("RM-20K");
    assert Upper("enviofree") == "ENVIOFREE";
    UpperOfUppercase("NOPE");
    assert "NOPE" !in Coupons;
  }

  /** Three units asked of a product with one in stock give a line of one unit
      and a shortage warning; zero asked of a product with ample stock gives a
      line of one unit. */
  lemma StockExamples()
    ensures var p := Product("A", "Camiseta", 5000, None, None, Some(1));
      var r := Resolve([QuoteItemIn("A", 3)], map["A" := p]);
      r.lines[0].qty == 1 && r.warnings == ["Stock insuficiente para Camiseta (solicitado 3, stock 1)."]
    ensures var p := Product("A", "Camiseta", 5000, None, None, Some(10));
      var r := Resolve([QuoteItemIn("A", 0)], map["A" := p]);
      r.lines[0].qty == 1 && r.warnings == []
  {
    var p := Product("A", "Camiseta", 5000, None, None, Some(1));
    KnownIdPriced(QuoteItemIn("A", 3), map["A" := p]);
    assert IntToString(3) == "3" && IntToString(1) == "1";
    assert ShortageWarning("Camiseta", 3, 1) == "Stock insuficiente para Camiseta (solicitado 3, stock 1).";
    var p' := Product("A", "Camiseta", 5000, None, None, Some(10));
    KnownIdPriced(QuoteItemIn("A", 0), map["A" := p']);
  }

  /** Two units of a 5000 product with stock 10, delivered to Cali by standard
      shipping without a coupon: subtotal 10000, shipping 11000, total 21000. */
  lemma EndToEndExample()
    ensures var p := Product("A", "Camiseta", 5000, None, None, Some(10));
      var q := QuoteFor([QuoteItemIn("A", 2)], [p], QuoteIn([QuoteItemIn("A", 2)], None, Some("cali"), Some("standard")));
      q.subtotal == 10000 && q.discount == 0 && q.shipping == 11000 && q.total == 21000
      && q.warnings == [] && q.appliedCoupon == None
  {
    var p := Product("A", "Camiseta", 5000, None, None, Some(10));
    var it := QuoteItemIn("A", 2);
    assert IdMap([p]) == map["A" := p] by {
      assert [p][..0] == [];
    }
    KnownIdPriced(it, map["A" := p]);
    var r := Resolve([it], map["A" := p]);
    assert r.subtotal == 10000 && r.warnings == [];
    RatesWellFormed();
    CouponsWellFormed();
    LowerOfLowercase("cali");
    assert ShippingCost(Rates, "cali", "standard") == 11000;
    assert ApplyCoupon(Coupons, None, 10000, 11000) == CouponOutcome(0, 11000, None);
  }
}
