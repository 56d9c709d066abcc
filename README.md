# Football shop checkout: a Dafny model of the quote engine, catalog and cart

This project models the decision logic of a small football-shop web application:

- the **pricing API's quote engine** (`api/app/services.py`). It takes the requested cart lines and a product catalog snapshot. It raises each quantity to at least 1 and clamps it to the stock. It skips unknown products with a warning, adds up a subtotal, and looks up a shipping rate with fallback tiers. It applies one of three coupon kinds and derives a total that is never negative;
- the **static tables** it reads (`api/app/config.py`): shipping rates per city and method, and the coupon registry;
- the **records** exchanged with the API (`api/app/models.py`), with their defaults and the `qty > 0` rule;
- the **JSON product repository** (`api/app/repository.py`): a category filter and a free-text filter, then Python-slice pagination, plus lookup by id;
- the **browser cart store** (`frontend/src/store/cart.ts`): add-or-increment, remove, set quantity, coupon trimming, clear, subtotal and total.

One module per source file:

| file | module | form |
|---|---|---|
| `optional.dfy` | `Optional` | `Option` (Python `None`, TypeScript `undefined`) |
| `text.dfy` | `Text` | ASCII `lower`/`upper`, JavaScript `trim`, `str(int)`, substring `in` |
| `models.dfy` | `Models` | datatypes with their default constructors |
| `config.dfy` | `Config` | the two constant tables and the lemmas about their shape |
| `services.dfy` | `Services` | pure functions for shipping and coupons. `make_quote` becomes the method `MakeQuote` with a `for` loop, proved equal to the fold `QuoteFor` |
| `repository.dfy` | `Repository` | class `ProductsRepo` holding the cache. `List` is a function and `Get` is a search loop |
| `cart.dfy` | `CartStore` | class `Cart` with `items: seq<CartItem>` and `coupon: Option<string>`. Each mutating method states the whole new state and keeps ids unique |

Four behaviours of the code that are easy to misread:

- A product record without a `stock` field gets stock 0, not "unconstrained" (`api/app/models.py:15`). Only an explicit null leaves the stock unconstrained, so a product without the field clamps every request to 0.
- The catalog snapshot arrives as a list. The engine turns it into a map in which a later product with the same id replaces an earlier one (`IdMap`, `IdMapLastWins`).
- The percent discount is Python's `int(...)` of a quotient. That truncates toward zero, which is not the floor for a negative subtotal (`TruncDiv100`).
- The lookup `table.get(method, table["standard"])` evaluates its default eagerly. So a shipping row needs a `standard` rate even when the requested method is present, and `ShippingTableOk` demands one in every row.

## Model

| member | source | states |
|---|---|---|
| `Text.Trim` | frontend/src/store/cart.ts:38 | the result is a contiguous piece of the input; everything cut off around it is white space; it neither starts nor ends with white space |
| `Text.Lower` | api/app/services.py:6 | same length; upper-case ASCII letters become their lower-case letter (code point + 32), every other character is kept, and the result holds no upper-case letter |
| `Text.Upper` | api/app/services.py:12 | same length; lower-case ASCII letters become their upper-case letter (code point − 32), every other character is kept, and the result holds no lower-case letter |
| `Text.IntToString` | api/app/services.py:34 | Python's `str(int)`: a minus sign exactly for a negative number, then at least one decimal digit and nothing else, with no leading zero, and reading the numeral back gives the number |
| `Text.Contains` | api/app/repository.py:30 | true exactly when the needle occurs at some position of the haystack (Python's `in` on strings) |
| `Models.NewProduct` | api/app/models.py:4-18 | a product given only id, name and price has no image and no category, and has stock 0 rather than null |
| `Models.ParseQuoteItem` | api/app/models.py:20-22 | a requested line is accepted exactly when its quantity is strictly positive, and then carries the given id and quantity |
| `Models.NewQuoteIn` | api/app/models.py:24-28 | a request that names only its lines has no coupon, city `bogota` and method `standard` |
| `Models.NewQuoteOut` | api/app/models.py:30-37 | a quote built without warnings or coupon has an empty warning list and no applied coupon |
| `Config.RatesWellFormed` | api/app/config.py:11-16 | the shipping table has a `_default` row. Every city key is lower case and every row has `standard` and `express`. All rates are non-negative and express exceeds standard. `cali.standard` is 11000 and `_default.express` is 20000 |
| `Config.CouponsWellFormed` | api/app/config.py:18-22 | coupon keys are upper case and percent/amount coupons carry a value. Percents are at most 100 and no value is negative. HOLA10 is percent 10, RM-20K is amount 20000 and ENVIOFREE is shipping_free without a value |
| `Services.ShippingCost` | api/app/services.py:5-8 | defined for every city and method once the table has `_default` and a `standard` rate in each row. The result is non-negative for a non-negative table and is some row's standard rate or that row's rate for the method |
| `Services.ShippingIgnoresCityCase` | api/app/services.py:5-8 | a city costs exactly what its lower-case form costs |
| `Services.ShippingFallbacks` | api/app/services.py:5-8 | known city and method give that rate. A known city with an unknown method costs its standard rate. An unknown city costs what `_default` costs for the same method |
| `Services.OrDefault` | api/app/services.py:43 | Python's `x or default`: a present non-empty string is kept, a missing or empty one gives the default, so a non-empty default never yields an empty string |
| `Services.TruncDiv100` | api/app/services.py:15 | `int(a / 100)` truncates toward zero: for `a ≥ 0` the result is the largest `r` with `100·r ≤ a`, for `a < 0` the smallest `r` with `a ≤ 100·r` |
| `Services.ApplyCoupon` | api/app/services.py:10-20 | a coupon is applied exactly when the code is present, non-empty, registered under its upper-case form and of a known kind; the applied code is then the upper-cased code. Percent gives discount `int(subtotal × value / 100)` and keeps shipping. Amount gives `min(subtotal, value)` and keeps shipping. Shipping_free gives discount 0 and shipping 0. Otherwise discount is 0 and shipping is unchanged, so shipping changes only under a shipping_free coupon. With a non-negative subtotal the discount is at most the subtotal (percents ≤ 100) and non-negative (non-negative values) |
| `Services.PercentAtMostWhole` | api/app/services.py:15 | the truncated percentage of a non-negative subtotal is at most the subtotal when the percent is ≤ 100, and non-negative when the percent is |
| `Services.CouponIgnoresCase` | api/app/services.py:12 | a code and its upper-case form have the same effect |
| `Services.IdMap` | api/app/services.py:23 | every catalog product's id is a key, and each key maps to a product with that id |
| `Services.IdMapFromCatalog` | api/app/services.py:23 | every product found under an id is one of the catalog's products |
| `Services.IdMapLastWins` | api/app/services.py:23 | the last catalog product with a given id is the one found under that id |
| `Services.PriceItem` | api/app/services.py:28-41 | an id missing from the catalog gives only the warning `Producto {id} no existe.`. A known id gives a line that copies id, name, price and image with amount = price × qty. When the stock is known and below `max(1, qty)` the qty is `max(0, stock)` with the shortage warning; otherwise it is `max(1, qty)` with no warning |
| `Services.Resolve` | api/app/services.py:27-41 | the pass over the requested lines never emits more lines than were requested |
| `Services.ResolveSound` | api/app/services.py:32-41 | each emitted line copies its product's id, name, price and image and has amount = price × qty. Its qty is ≥ 0, ≤ the stock when the stock is a non-negative number, and ≥ 1 when stock is null. The subtotal is the sum of the emitted amounts |
| `Services.ResolveAppend` | api/app/services.py:27-41 | requested lines are handled independently and in order: the pass over `a + b` is the pass over `a` followed by the pass over `b` (lines, warnings and subtotal) |
| `Services.UnknownIdWarnsOnce` | api/app/services.py:28-31 | an id missing from the catalog yields no line, no amount and exactly the warning `Producto {id} no existe.` |
| `Services.UnknownIdSkipped` | api/app/services.py:27-31 | an unknown id between other lines is skipped with its warning, and the lines before and after it are priced as if it were absent |
| `Services.KnownIdPriced` | api/app/services.py:32-41 | a known id yields one line. Its qty is `max(1, requested)` when stock is null or covers that. Otherwise qty is `max(0, stock)` with exactly one shortage warning that reports the raised request and the stock |
| `Services.DefaultStockClampsToZero` | api/app/models.py:15 | a product created without a stock field clamps any request to qty 0 and amount 0, with one warning |
| `Services.ValidRequestsKeepQuantities` | api/app/services.py:32 | when every requested qty is positive, every id is known and stock is unconstrained, each line's qty is exactly the requested qty and there are no warnings |
| `Services.SubtotalNonNegative` | api/app/services.py:36-37 | with non-negative catalog prices the subtotal is non-negative |
| `Services.QuoteFor` | api/app/services.py:43-49 | the quote's lines, warnings and subtotal are those of the pass over the requested lines. Discount, shipping and applied coupon are what applying the request's coupon gives, at that subtotal, to the shipping rate for the request's city and method, where a missing or empty one reads as `bogota` / `standard`. Total = max(0, subtotal − discount + shipping), hence ≥ 0, and subtotal = sum of the line amounts |
| `Services.DefaultDelivery` | api/app/services.py:43 | a request with a missing or empty city is quoted exactly as one to `bogota`, and a missing or empty method exactly as `standard` |
| `Services.DiscountWithinSubtotal` | api/app/services.py:43-45 | with non-negative prices, 0 ≤ discount ≤ subtotal and shipping ≥ 0 for the configured tables |
| `Services.MakeQuote` | api/app/services.py:22-49 | the single loop over the requested lines produces exactly the quote `QuoteFor` describes. Its total is ≥ 0, its subtotal is the sum of its line amounts, and it has no more lines than were requested |
| `Services.ShippingExamples` | api/app/services.py:5-8 | "Bogota"/express costs what "bogota"/express costs, 16000. Unknown city "Pasto" by express costs 20000. Unknown method "drone" in medellin costs 10000 |
| `Services.CouponExamples` | api/app/services.py:10-20 | HOLA10 on 100000 gives discount 10000. RM-20K on 15000 gives 15000. `enviofree` gives discount 0 and shipping 0 with code ENVIOFREE. NOPE changes nothing |
| `Services.StockExamples` | api/app/services.py:32-35 | 3 requested with stock 1 gives qty 1 and the warning `Stock insuficiente para Camiseta (solicitado 3, stock 1).`. 0 requested with stock 10 gives qty 1 and no warning |
| `Services.EndToEndExample` | api/app/services.py:22-49 | 2 units at 5000 with stock 10, to cali by standard and without a coupon, give subtotal 10000, discount 0, shipping 11000 and total 21000, with no warnings and no coupon |
| `Repository.Filtered` | api/app/repository.py:25-30 | a product survives exactly when it is in the cache, matches the category (if a non-empty one is given) and matches the query (if a non-empty one is given). The survivors keep the cache's order |
| `Repository.Filter` | api/app/repository.py:27 | the list comprehension `[p for p in items if f(p)]`: an element is in the result exactly when it is in the input and passes, and the result is no longer than the input |
| `Repository.FilterAppend` | api/app/repository.py:27 | filtering `a + b` is filtering `a` followed by filtering `b` |
| `Repository.FilterSingle` | api/app/repository.py:27 | a one-element list keeps its element exactly when it passes; with `FilterAppend` this fixes the result of every filter, order and repeated elements included |
| `Repository.MatchesCategory` | api/app/repository.py:27 | the product's category (missing read as `""`) and the argument have the same length and agree character by character after ASCII lower-casing |
| `Repository.MatchesQuery` | api/app/repository.py:29-30 | the lower-cased query occurs at some position of the lower-cased name or of the lower-cased category (missing read as `""`) |
| `Repository.FilteredAppend` | api/app/repository.py:25-30 | the two filters applied to `a + b` give the filtered `a` followed by the filtered `b` |
| `Repository.FilteredAt` | api/app/repository.py:25-30 | each catalog position is listed exactly when its product passes both filters, so the listing keeps every passing position in catalog order |
| `Repository.FilteredKeepsDuplicates` | api/app/repository.py:25-30 | a passing product listed twice in the catalog is listed twice |
| `Repository.ClampIndex` | api/app/repository.py:31 | Python's slice-bound adjustment against length `n`: a bound in `0..n` is kept, a negative bound counts from the end, and anything beyond is clipped to 0 or `n` |
| `Repository.PySlice` | api/app/repository.py:31 | Python's `s[start:stop]`: with `0 ≤ start ≤ stop ≤ |s|` it is `s[start..stop]`; in general it is the run of `s` from the adjusted start to the adjusted stop, empty when they cross |
| `Repository.SliceAtMostLimit` | api/app/repository.py:31 | a Python slice `s[offset:offset+limit]` with `limit ≥ 0` holds at most `limit` elements, whatever the offset's sign |
| `Repository.ProductsRepo.constructor` | api/app/repository.py:7-16 | the repository's cache is the loaded product list |
| `Repository.ProductsRepo.List` | api/app/repository.py:23-31 | the page holds at most `limit` products when `limit ≥ 0`. It is an order-preserving subsequence of the cache, and every product on it passes the given filters |
| `Repository.ProductsRepo.ListDefaults` | api/app/repository.py:23-24 | a listing without `limit` and `offset` (defaults 50 and 0) is the first 50 filtered products, or all of them when fewer pass |
| `Repository.ProductsRepo.Get` | api/app/repository.py:33-37 | returns none exactly when no cached product has the id. Otherwise it returns the first cached product with that id |
| `Repository.ListWithoutFilters` | api/app/repository.py:25-31 | without filters and with non-negative offset and limit, the page is `cache[offset : offset + limit]` clipped to the cache |
| `Repository.ListPagesFiltered` | api/app/repository.py:26-31 | filtering comes before paging: the page is the run of filtered products starting at position `offset`, of length `min(limit, remaining)` |
| `Repository.CategoryFilterExact` | api/app/repository.py:26-27 | with only a category, a product is kept exactly when its lower-cased category (missing read as `""`) equals the lower-cased argument |
| `Repository.QueryFilterExact` | api/app/repository.py:28-30 | with only a query, a product is kept exactly when the lower-cased query occurs in its lower-cased name or in its lower-cased category |
| `Repository.NegativeLimitDropsLast` | api/app/repository.py:31 | Python slice rules apply to negative bounds: offset 0 with limit −1 returns all but the last product |
| `CartStore.IndexOf` | frontend/src/store/cart.ts:27 | −1 exactly when no item has the id; otherwise the position of the first item with that id |
| `CartStore.WithQty` | frontend/src/store/cart.ts:29 | `{...p, qty}`: the product's id, name, price and image with the given quantity |
| `CartStore.WithoutId` | frontend/src/store/cart.ts:32 | keeps exactly the items whose id differs, and is no longer than the input |
| `CartStore.WithoutIdAppend` | frontend/src/store/cart.ts:32 | removing an id from `a + b` is removing it from `a` followed by removing it from `b` |
| `CartStore.WithoutIdAt` | frontend/src/store/cart.ts:32 | each item is kept or dropped by its own id alone, so the kept items keep their order |
| `CartStore.TenPercentOff` | frontend/src/store/cart.ts:43 | the result is the integer nearest to 9/10 of the subtotal, with halves rounded up |
| `CartStore.TotalFor` | frontend/src/store/cart.ts:41-44 | the total is the subtotal unless the coupon is exactly `HOLA10`; with that coupon it is `Math.round(sub * 0.9)` (`TenPercentOff`), which lies between 0 and the subtotal for a non-negative subtotal |
| `CartStore.NormalizeCoupon` | frontend/src/store/cart.ts:38 | nothing is stored exactly when the code is missing or trims to empty. Otherwise the stored code is the trimmed code, and it is non-empty |
| `CartStore.NormalizeCouponIdempotent` | frontend/src/store/cart.ts:38 | storing an already stored coupon again changes nothing |
| `CartStore.SumAmounts` | frontend/src/store/cart.ts:40 | the reduce of price × qty over the items, which is non-negative when no price and no quantity is |
| `CartStore.SumAmountsAppend` | frontend/src/store/cart.ts:29 | appending an item adds its price × qty to the subtotal |
| `CartStore.SumAmountsUpdate` | frontend/src/store/cart.ts:28 | replacing one item changes the subtotal by the difference of the two amounts |
| `CartStore.SumAmountsWithout` | frontend/src/store/cart.ts:32 | with unique ids, removing an id lowers the subtotal by exactly that item's amount (0 if absent) |
| `CartStore.WithoutIdKeepsUnique` | frontend/src/store/cart.ts:32 | removing an id keeps the ids unique |
| `CartStore.Cart.constructor` | frontend/src/store/cart.ts:22-23 | a new cart is empty, has no coupon and has unique ids |
| `CartStore.Cart.Add` | frontend/src/store/cart.ts:24-31 | qty defaults to 1. A present id has its qty raised by `qty`, keeping its stored name and price, and nothing else changes. A new id is appended as `{...p, qty}`. Ids stay unique, the coupon is kept, and the subtotal rises by the stored price × qty |
| `CartStore.Cart.Remove` | frontend/src/store/cart.ts:32 | the items become `WithoutId` of the old items: the old items without that id, in their order (`WithoutIdAt`). Ids stay unique, the coupon is kept, and the subtotal falls by the removed item's amount |
| `CartStore.Cart.SetQty` | frontend/src/store/cart.ts:33-37 | each item with the id gets qty `max(1, qty)`. Every other item, the length and the coupon are unchanged, and ids stay unique |
| `CartStore.Cart.SetCoupon` | frontend/src/store/cart.ts:38 | the coupon becomes the trimmed code, or nothing when the code is missing or blank. The items are unchanged |
| `CartStore.Cart.Clear` | frontend/src/store/cart.ts:39 | no items and no coupon |
| `CartStore.Cart.Subtotal` | frontend/src/store/cart.ts:40 | the sum of price × qty over the items, which is non-negative when prices and quantities are |
| `CartStore.Cart.Total` | frontend/src/store/cart.ts:41-44 | is `TotalFor` of the current subtotal and stored coupon: the subtotal unless the coupon is exactly `HOLA10`, with that coupon `Math.round(subtotal * 0.9)` and between 0 and a non-negative subtotal |
| `CartStore.LowercaseCouponStoredAsGiven` | frontend/src/store/cart.ts:38 | `hola10` is stored as `hola10`: the cart does not change the case |
| `CartStore.LowercaseCouponEarnsNothing` | frontend/src/store/cart.ts:43 | a stored `hola10` earns no discount: the comparison is case-sensitive, unlike the API's upper-cased lookup |
| `CartStore.PaddedCouponIsTrimmed` | frontend/src/store/cart.ts:38 | ` HOLA10 ` is stored as `HOLA10`, and then a subtotal of 100000 totals 90000 |

## Left out

- HTTP routing, CORS, ETag/304 handling and the payment-link template (`api/app/main.py`): request plumbing around the engine.
- `api/app/repository_supabase.py`: a REST client doing network I/O.
- `ProductsRepoJSON._load` and `etag`: file reading, JSON parsing and MD5 hashing. The constructor takes the already loaded product list as a parameter.
- The environment-variable reads at the top of `api/app/config.py`.
- The React components and the authentication hook, and the zustand `persist` middleware (browser storage) around the cart.
- Product fields that no modelled operation reads (club, league, season, variant, sizes, tags, rating, sku), and the `PaymentLinkOut` record.
- Pydantic's type coercion. Only the `qty > 0` rule is modelled (`ParseQuoteItem`). The engine's `int(it["qty"])` is the identity on the integer field.
- The truthiness test on a catalog product (`if not prod`) is always true for a found product, and a coupon entry always has a kind. An empty coupon dictionary, which Python would treat as "not found", cannot be represented.
- `Services.ApplyCoupon`: computes the percent discount exactly, as the integer `subtotal × value / 100` truncated toward zero. The source divides in floating point before truncating, and the two can differ once `subtotal × value` exceeds 2^53.
- `CartStore.TenPercentOff`: rounds nine tenths of the subtotal exactly. The source rounds the floating-point product `sub * 0.9`, which can differ from the exact value for large subtotals or at exact halves.
- TypeScript numbers (ids, prices, quantities) are modelled as unbounded integers, so fractional or NaN quantities are not represented.
- `Text.Lower` and `Text.Upper` map only the ASCII letters. Python's full Unicode case mapping, which can change a string's length, is not modelled.
- `Text.Trim` removes ASCII white space, the no-break space and the byte-order mark. The other Unicode space separators and line terminators that JavaScript's `trim` also removes are not modelled.
- The cart's copy-then-overwrite of the items array is modelled as a new sequence value. Aliasing between the old and the new array is not represented.
