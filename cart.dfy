/** The browser-side shopping cart: a list of items with unique ids and an
    optional coupon code, with the running subtotal and total. */
module CartStore {
  import opened Optional
  import opened Text

  /** A product as the storefront shows it. */
  datatype Product = Product(id: int, name: string, price: int, img: Option<string>)

  /** A product in the cart, with the quantity taken. */
  datatype CartItem = CartItem(id: int, name: string, price: int, img: Option<string>, qty: int)

  /** `{...p, qty}`: the product with a quantity attached. */
  function WithQty(p: Product, qty: int): (i: CartItem)
    ensures i.id == p.id && i.name == p.name && i.price == p.price && i.img == p.img
    ensures i.qty == qty
  {
    CartItem(p.id, p.name, p.price, p.img, qty)
  }

  /** No two items of the cart share an id. */
  predicate UniqueIds(items: seq<CartItem>) {
    forall i, j :: 0 <= i < j < |items| ==> items[i].id != items[j].id
  }

  /** `items.findIndex(i => i.id === id)`: the position of the first item with
      that id, or -1 when there is none. */
  function IndexOf(items: seq<CartItem>, id: int): (r: int)
    ensures -1 <= r < |items|
    ensures r == -1 <==> forall k :: 0 <= k < |items| ==> items[k].id != id
    ensures r >= 0 ==> items[r].id == id && forall k :: 0 <= k < r ==> items[k].id != id
  {
    if items == [] then -1
    else if items[0].id == id then 0
    else
      var r := IndexOf(items[1..], id);
      if r < 0 then -1 else r + 1
  }

  /** `items.filter(i => i.id !== id)`. */
  function WithoutId(items: seq<CartItem>, id: int): (r: seq<CartItem>)
    ensures |r| <= |items|
    ensures forall x :: x in r <==> x in items && x.id != id
  {
    if items == [] then []
    else if items[0].id == id then WithoutId(items[1..], id)
    else [items[0]] + WithoutId(items[1..], id)
  }

  /** What one item adds to the subtotal. */
  function Amount(i: CartItem): int {
    i.price * i.qty
  }

  /** `items.reduce((a, i) => a + i.price * i.qty, 0)`; it is not negative
      when no price and no quantity is. */
  function SumAmounts(items: seq<CartItem>): (s: int)
    ensures (forall k :: 0 <= k < |items| ==> items[k].price >= 0 && items[k].qty >= 0) ==> s >= 0
  {
    if items == [] then 0
    else
      assert forall k :: 0 <= k < |items[1..]| ==> items[1..][k] == items[k + 1];
      Amount(items[0]) + SumAmounts(items[1..])
  }

  /** `Math.round(sub * 0.9)`: the integer nearest to nine tenths of the
      subtotal, halves rounded up. */
  function TenPercentOff(sub: int): (r: int)
    ensures 20 * r <= 18 * sub + 10 < 20 * r + 20
  {
    (18 * sub + 10) / 20
  }

  /** The total shown for a subtotal: ten percent off when the stored coupon is
      exactly `HOLA10` (case and all), the subtotal otherwise. */
  function TotalFor(sub: int, coupon: Option<string>): (t: int)
    ensures coupon != Some("HOLA10") ==> t == sub
    ensures coupon == Some("HOLA10") ==> t == TenPercentOff(sub)
    ensures coupon == Some("HOLA10") && sub >= 0 ==> 0 <= t <= sub
  {
    if coupon == Some("HOLA10") then TenPercentOff(sub) else sub
  }

  /** `code?.trim() || undefined`: the trimmed code, or nothing when the code is
      missing or only white space. */
  function NormalizeCoupon(code: Option<string>): (c: Option<string>)
    ensures c.None? <==> code.None? || Trim(code.value) == ""
    ensures c.Some? ==> c.value == Trim(code.value) && c.value != ""
  {
    if code.None? then None
    else if Trim(code.value) == "" then None
    else Some(Trim(code.value))
  }

  /** Removing an id distributes over concatenation. */
  lemma {:induction false} WithoutIdAppend(a: seq<CartItem>, b: seq<CartItem>, id: int)
    ensures WithoutId(a + b, id) == WithoutId(a, id) + WithoutId(b, id)
  {
    if a == [] {
      assert a + b == b;
    } else {
      var ab := a + b;
      assert ab[0] == a[0] && ab[1..] == a[1..] + b;
      WithoutIdAppend(a[1..], b, id);
      if a[0].id == id {
        assert WithoutId(ab, id) == WithoutId(ab[1..], id);
      } else {
        assert WithoutId(ab, id) == [a[0]] + WithoutId(ab[1..], id);
      }
    }
  }

  /** Each item is kept or dropped by its own id alone, so the kept items keep
      their order. */
  lemma WithoutIdAt(items: seq<CartItem>, id: int, i: int)
    requires 0 <= i < |items|
    ensures WithoutId(items, id) ==
      WithoutId(items[..i], id) + (if items[i].id != id then [items[i]] else []) + WithoutId(items[i + 1..], id)
  {
    var front, x, back := items[..i], items[i], items[i + 1..];
    var mid := if x.id != id then [x] else [];
    calc {
      WithoutId(items, id);
      { assert items == front + ([x] + back); }
      WithoutId(front + ([x] + back), id);
      { WithoutIdAppend(front, [x] + back, id); }
      WithoutId(front, id) + WithoutId([x] + back, id);
      { WithoutIdAppend([x], back, id); assert [x][1..] == []; }
      WithoutId(front, id) + (mid + WithoutId(back, id));
      WithoutId(front, id) + mid + WithoutId(back, id);
    }
  }

  /** Appending an item adds its amount to the subtotal. */
  lemma {:induction false} SumAmountsAppend(items: seq<CartItem>, x: CartItem)
    ensures SumAmounts(items + [x]) == SumAmounts(items) + Amount(x)
  {
    if items != [] {
      assert (items + [x])[1..] == items[1..] + [x];
      SumAmountsAppend(items[1..], x);
    }
  }

  /** Replacing one item changes the subtotal by the difference of the two
      amounts. */
  lemma {:induction false} SumAmountsUpdate(items: seq<CartItem>, idx: int, x: CartItem)
    requires 0 <= idx < |items|
    ensures SumAmounts(items[idx := x]) == SumAmounts(items) - Amount(items[idx]) + Amount(x)
  {
    if idx > 0 {
      assert items[idx := x][1..] == items[1..][idx - 1 := x];
      SumAmountsUpdate(items[1..], idx - 1, x);
    }
  }

  /** Removing an id takes exactly that item's amount off the subtotal when ids
      are unique. */
  lemma {:induction false} SumAmountsWithout(items: seq<CartItem>, id: int)
    requires UniqueIds(items)
    ensures var k := IndexOf(items, id);
      SumAmounts(WithoutId(items, id)) == SumAmounts(items) - (if k >= 0 then Amount(items[k]) else 0)
  {
    if items != [] {
      assert UniqueIds(items[1..]) by {
        forall i, j | 0 <= i < j < |items[1..]| ensures items[1..][i].id != items[1..][j].id {
          assert items[1..][i] == items[i + 1] && items[1..][j] == items[j + 1];
        }
      }
      SumAmountsWithout(items[1..], id);
      if items[0].id == id {
        assert IndexOf(items[1..], id) == -1 by {
          forall k | 0 <= k < |items[1..]| ensures items[1..][k].id != id {
            assert items[1..][k] == items[k + 1];
          }
        }
      }
    }
  }

  /** Removing an id from a cart with unique ids keeps the ids unique. */
  lemma {:induction false} WithoutIdKeepsUnique(items: seq<CartItem>, id: int)
    requires UniqueIds(items)
    ensures UniqueIds(WithoutId(items, id))
  {
    if items != [] {
      assert UniqueIds(items[1..]) by {
        forall i, j | 0 <= i < j < |items[1..]| ensures items[1..][i].id != items[1..][j].id {
          assert items[1..][i] == items[i + 1] && items[1..][j] == items[j + 1];
        }
      }
      WithoutIdKeepsUnique(items[1..], id);
      var rest := WithoutId(items[1..], id);
      if items[0].id != id {
        forall k | 0 <= k < |rest| ensures rest[k].id != items[0].id {
          assert rest[k] in items[1..];
          var m :| 0 <= m < |items[1..]| && items[1..][m] == rest[k];
          assert items[m + 1] == rest[k];
        }
      }
    }
  }

  class Cart {
    var items: seq<CartItem>
    var coupon: Option<string>

    /** The store keeps one item per product id. */
    ghost predicate Valid()
      reads this
    {
      UniqueIds(items)
    }

    /** An empty cart without a coupon. */
    constructor ()
      ensures Valid() && items == [] && coupon == None
    {
      items := [];
      coupon := None;
    }

    /** `add(p, qty = 1)`: a product already in the cart has its quantity raised
        by `qty` (its stored name and price are kept); a new product is
        appended with quantity `qty`. The subtotal rises by the stored price
        times `qty`. */
    method Add(p: Product, qty: Option<int>)
      requires Valid()
      modifies this
      ensures Valid() && coupon == old(coupon)
      ensures var q := qty.GetOr(1);
        var k := IndexOf(old(items), p.id);
        if k >= 0 then
          items == old(items)[k := old(items)[k].(qty := old(items)[k].qty + q)]
          && Subtotal() == old(Subtotal()) + old(items)[k].price * q
        else
          items == old(items) + [WithQty(p, q)]
          && Subtotal() == old(Subtotal()) + p.price * q
    {
      var q := qty.GetOr(1);
      var k := IndexOf(items, p.id);
      if k >= 0 {
        var it := items[k];
        var updated := it.(qty := it.qty + q);
        assert Amount(updated) == Amount(it) + it.price * q by {
          assert it.price * (it.qty + q) == it.price * it.qty + it.price * q;
        }
        SumAmountsUpdate(items, k, updated);
        items := items[k := updated];
      } else {
        SumAmountsAppend(items, WithQty(p, q));
        items := items + [WithQty(p, q)];
      }
    }

    /** `remove(id)`: drops the item with that id and keeps the others in
        order; the subtotal falls by that item's amount. */
    method Remove(id: int)
      requires Valid()
      modifies this
      ensures Valid() && coupon == old(coupon)
      ensures items == WithoutId(old(items), id)
      ensures forall k :: 0 <= k < |items| ==> items[k].id != id
      ensures var k := IndexOf(old(items), id);
        Subtotal() == old(Subtotal()) - (if k >= 0 then Amount(old(items)[k]) else 0)
    {
      WithoutIdKeepsUnique(items, id);
      SumAmountsWithout(items, id);
      items := WithoutId(items, id);
      assert forall k :: 0 <= k < |items| ==> items[k] in items;
    }

    /** `setQty(id, qty)`: the item with that id gets quantity `max(1, qty)`;
        nothing else changes. */
    method SetQty(id: int, qty: int)
      requires Valid()
      modifies this
      ensures Valid() && coupon == old(coupon)
      ensures |items| == |old(items)|
      ensures forall k :: 0 <= k < |items| ==>
        items[k] == if old(items)[k].id == id then old(items)[k].(qty := if qty < 1 then 1 else qty) else old(items)[k]
    {
      items := seq(|items|, k requires 0 <= k < |items| reads this =>
        if items[k].id == id then items[k].(qty := if qty < 1 then 1 else qty) else items[k]);
    }

    /** `setCoupon(code)`: stores the trimmed code, or nothing when it is
        missing or blank. */
    method SetCoupon(code: Option<string>)
      requires Valid()
      modifies this
      ensures Valid() && items == old(items)
      ensures coupon == NormalizeCoupon(code)
    {
      coupon := NormalizeCoupon(code);
    }

    /** `clear()`: no items and no coupon. */
    method Clear()
      modifies this
      ensures Valid() && items == [] && coupon == None
    {
      items := [];
      coupon := None;
    }

    /** The sum of price times quantity over the items. */
    function Subtotal(): (s: int)
      reads this
      ensures (forall k :: 0 <= k < |items| ==> items[k].price >= 0 && items[k].qty >= 0) ==> s >= 0
    {
      SumAmounts(items)
    }

    /** The subtotal, less ten percent (rounded) when the coupon is exactly
        `HOLA10`. */
    function Total(): (t: int)
      reads this
      ensures coupon != Some("HOLA10") ==> t == Subtotal()
      ensures coupon == Some("HOLA10") && Subtotal() >= 0 ==> 0 <= t <= Subtotal()
      ensures t == TotalFor(Subtotal(), coupon)
    {
      TotalFor(Subtotal(), coupon)
    }
  }

  /** Storing a stored coupon again changes nothing. */
  lemma NormalizeCouponIdempotent(code: Option<string>)
    ensures NormalizeCoupon(NormalizeCoupon(code)) == NormalizeCoupon(code)
  {
    if code.Some? && Trim(code.value) != "" {
      TrimIdempotent(code.value);
    }
  }

  /** A lower-case code is stored as given: the cart does not change the case
      of a coupon. */
  lemma LowercaseCouponStoredAsGiven()
    ensures NormalizeCoupon(Some("hola10")) == Some("hola10")
  {
    var code := "hola10";
    assert code[0] == 'h' && code[5] == '0';
    TrimUnpadded(code);
  }

  /** The cart compares the stored coupon with `HOLA10` exactly, so a
      lower-case code, which the pricing API would accept, earns no discount
      here. */
  lemma LowercaseCouponEarnsNothing(sub: int)
    ensures TotalFor(sub, Some("hola10")) == sub
  {
    assert "hola10" != "HOLA10" by {
      assert "hola10"[0] != "HOLA10"[0];
    }
  }

  /** A code that neither starts nor ends with white space is its own trimmed
      form. */
  lemma TrimUnpadded(code: string)
    requires code != [] && !IsSpace(code[0]) && !IsSpace(code[|code| - 1])
    ensures Trim(code) == code
  {
    assert TrimStart(code) == code;
    assert TrimEnd(code) == code;
  }

  /** A padded upper-case code is trimmed before it is stored, so it earns the
      discount: 100000 becomes 90000. */
  lemma PaddedCouponIsTrimmed()
    ensures NormalizeCoupon(Some(" HOLA10 ")) == Some("HOLA10")
    ensures TotalFor(100000, NormalizeCoupon(Some(" HOLA10 "))) == 90000
  {
    var padded, code := " HOLA10 ", "HOLA10";
    assert padded == [' '] + code + [' '];
    TrimPadding(code);
  }

  /** One blank on each side of a code without edge white space is trimmed
      away. */
  lemma TrimPadding(code: string)
    requires code != [] && !IsSpace(code[0]) && !IsSpace(code[|code| - 1])
    ensures Trim([' '] + code + [' ']) == code
  {
    var padded := [' '] + code + [' '];
    assert padded[1..] == code + [' '];
    assert TrimStart(code + [' ']) == code + [' '];
    assert (code + [' '])[..|code|] == code;
    assert TrimEnd(code) == code;
  }
}
