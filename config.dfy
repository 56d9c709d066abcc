/** The two static tables the quote engine reads: shipping rates per city and
    delivery method, and the coupon registry. */
module Config {
  import opened Optional
  import opened Text

  /** City key to delivery method to rate. */
  type ShippingTable = map<string, map<string, int>>

  /** A registered coupon: its kind (`percent`, `amount` or `shipping_free`)
      and its value, which the `shipping_free` kind does not carry. */
  datatype Coupon = Coupon(kind: string, value: Option<int>)

  type CouponTable = map<string, Coupon>

  const Rates: ShippingTable := map[
    "bogota" := map["standard" := 9000, "express" := 16000],
    "medellin" := map["standard" := 10000, "express" := 18000],
    "cali" := map["standard" := 11000, "express" := 19000],
    "_default" := map["standard" := 12000, "express" := 20000]
  ]

  const Coupons: CouponTable := map[
    "HOLA10" := Coupon("percent", Some(10)),
    "ENVIOFREE" := Coupon("shipping_free", None),
    "RM-20K" := Coupon("amount", Some(20000))
  ]

  /** What the shipping lookup needs of a table so that it never fails: a
      `_default` row, and a `standard` rate in every row (the lookup reads the
      row's `standard` rate whatever the method). */
  predicate ShippingTableOk(t: ShippingTable) {
    && "_default" in t
    && forall c :: c in t ==> "standard" in t[c]
  }

  /** Every rate in the table is non-negative. */
  predicate RatesNonNegative(t: ShippingTable) {
    forall c, m :: c in t && m in t[c] ==> t[c][m] >= 0
  }

  /** What applying a coupon needs of the registry: the kinds that read a
      value carry one. */
  predicate CouponsOk(cs: CouponTable) {
    forall code :: code in cs && cs[code].kind in {"percent", "amount"} ==> cs[code].value.Some?
  }

  /** Percent coupons take at most the whole subtotal. */
  predicate PercentsAtMost100(cs: CouponTable) {
    forall code :: code in cs && cs[code].kind == "percent" && cs[code].value.Some? ==> cs[code].value.value <= 100
  }

  /** Coupons never add to the price. */
  predicate CouponValuesNonNegative(cs: CouponTable) {
    forall code :: code in cs && cs[code].kind in {"percent", "amount"} && cs[code].value.Some? ==> cs[code].value.value >= 0
  }

  /** The shipping table has a `_default` row with a `standard` rate, every row
      is keyed in lower case and has both a `standard` and an `express` rate,
      all rates are non-negative and express costs more than standard. */
  lemma RatesWellFormed()
    ensures ShippingTableOk(Rates) && RatesNonNegative(Rates)
    ensures forall c :: c in Rates ==> Lower(c) == c
    ensures forall c :: c in Rates ==> "standard" in Rates[c] && "express" in Rates[c]
    ensures forall c :: c in Rates ==> Rates[c]["express"] > Rates[c]["standard"]
    ensures Rates["cali"]["standard"] == 11000 && Rates["_default"]["express"] == 20000
  {
    assert Rates.Keys == {"bogota", "medellin", "cali", "_default"};
    LowerOfLowercase("bogota");
    LowerOfLowercase("medellin");
    LowerOfLowercase("cali");
    LowerOfLowercase("_default");
  }

  /** The coupon registry is keyed in upper case, so a lookup of `code.upper()`
      can find every entry; each percent and amount coupon carries a value,
      percents are at most 100 and no value is negative. */
  lemma CouponsWellFormed()
    ensures CouponsOk(Coupons) && PercentsAtMost100(Coupons) && CouponValuesNonNegative(Coupons)
    ensures forall code :: code in Coupons ==> Upper(code) == code
    ensures Coupons["HOLA10"] == Coupon("percent", Some(10))
    ensures Coupons["RM-20K"] == Coupon("amount", Some(20000))
    ensures Coupons["ENVIOFREE"] == Coupon("shipping_free", None)
  {
    assert Coupons.Keys == {"HOLA10", "ENVIOFREE", "RM-20K"};
    UpperOfUppercase("HOLA10");
    UpperOfUppercase("ENVIOFREE");
    UpperOfUppercase("RM-20K");
  }
}
