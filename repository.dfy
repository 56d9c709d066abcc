/** The file-backed product catalog: an in-memory list of products that can be
    filtered by category and by a free-text query, paged, and searched by id. */
module Repository {
  import opened Optional
  import opened Text
  import opened Models

  // ---------------------------------------------------------------------------
  // Sequence helpers: filtering, Python slicing, subsequences

  /** The elements of `s` that satisfy `f`, in their order in `s`. */
  function Filter<T(!new)>(f: T -> bool, s: seq<T>): (r: seq<T>)
    ensures |r| <= |s|
    ensures forall x :: x in r <==> x in s && f(x)
  {
    if s == [] then []
    else if f(s[0]) then [s[0]] + Filter(f, s[1..])
    else Filter(f, s[1..])
  }

  /** `idx` lists, in increasing order, positions of `b` that hold the
      elements of `a` one by one. */
  ghost predicate Embeds<T>(a: seq<T>, b: seq<T>, idx: seq<int>) {
    && |idx| == |a|
    && (forall k :: 0 <= k < |idx| ==> 0 <= idx[k] < |b| && b[idx[k]] == a[k])
    && (forall k, l :: 0 <= k < l < |idx| ==> idx[k] < idx[l])
  }

  /** `a` is `b` with some elements left out and the rest in their order. */
  ghost predicate IsSubsequence<T>(a: seq<T>, b: seq<T>) {
    exists idx :: Embeds(a, b, idx)
  }

  /** Filtering distributes over concatenation. */
  lemma {:induction false} FilterAppend<T(!new)>(f: T -> bool, a: seq<T>, b: seq<T>)
    ensures Filter(f, a + b) == Filter(f, a) + Filter(f, b)
  {
    if a == [] {
      assert a + b == b;
    } else {
      var ab := a + b;
      assert ab[0] == a[0] && ab[1..] == a[1..] + b;
      FilterAppend(f, a[1..], b);
      if f(a[0]) {
        assert Filter(f, ab) == [a[0]] + Filter(f, ab[1..]);
        assert Filter(f, a) == [a[0]] + Filter(f, a[1..]);
      } else {
        assert Filter(f, ab) == Filter(f, ab[1..]);
        assert Filter(f, a) == Filter(f, a[1..]);
      }
    }
  }


  lemma {:induction false} FilterEmbeds<T(!new)>(f: T -> bool, s: seq<T>) returns (idx: seq<int>)
    ensures Embeds(Filter(f, s), s, idx)
  {
    if s == [] {
      idx := [];
    } else {
      var tail := Filter(f, s[1..]);
      var rest := FilterEmbeds(f, s[1..]);
      var shifted := seq(|rest|, k requires 0 <= k < |rest| => rest[k] + 1);
      forall k | 0 <= k < |shifted| ensures 1 <= shifted[k] < |s| && s[shifted[k]] == tail[k] {
        assert s[1..][rest[k]] == tail[k];
      }
      if f(s[0]) {
        idx := [0] + shifted;
        ShiftedEmbeds(s[0], tail, s, shifted);
      } else {
        idx := shifted;
      }
    }
  }

  lemma ShiftedEmbeds<T>(x: T, tail: seq<T>, s: seq<T>, shifted: seq<int>)
    requires s != [] && s[0] == x
    requires Embeds(tail, s, shifted)
    requires forall k :: 0 <= k < |shifted| ==> 1 <= shifted[k]
    ensures Embeds([x] + tail, s, [0] + shifted)
  {
    var a, idx := [x] + tail, [0] + shifted;
    forall k | 0 <= k < |idx| ensures 0 <= idx[k] < |s| && s[idx[k]] == a[k] {
      if k > 0 {
        assert idx[k] == shifted[k - 1] && a[k] == tail[k - 1];
      }
    }
  }

  lemma EmbedsTransitive<T>(a: seq<T>, b: seq<T>, c: seq<T>, ab: seq<int>, bc: seq<int>) returns (ac: seq<int>)
    requires Embeds(a, b, ab) && Embeds(b, c, bc)
    ensures Embeds(a, c, ac)
  {
    ac := seq(|ab|, k requires 0 <= k < |ab| => bc[ab[k]]);
  }

  /** Python's adjustment of a slice bound against a length `n`: a negative
      bound counts from the end, and the result is clipped to `0..n`. */
  function ClampIndex(i: int, n: nat): (k: nat)
    ensures 0 <= i <= n ==> k == i
    ensures i < 0 && 0 <= i + n ==> k == i + n
    ensures i + n < 0 ==> k == 0
    ensures n < i ==> k == n
  {
    if i < 0 then (if i + n < 0 then 0 else i + n)
    else if i > n then n
    else i
  }

  /** Python's `s[start:stop]`: both bounds are adjusted as `ClampIndex` says
      and the elements between them are taken, none when they cross. */
  function PySlice<T>(s: seq<T>, start: int, stop: int): (r: seq<T>)
    ensures 0 <= start <= stop <= |s| ==> r == s[start..stop]
    ensures |r| == if ClampIndex(start, |s|) < ClampIndex(stop, |s|) then ClampIndex(stop, |s|) - ClampIndex(start, |s|) else 0
    ensures forall k :: 0 <= k < |r| ==> r[k] == s[ClampIndex(start, |s|) + k]
  {
    var i, j := ClampIndex(start, |s|), ClampIndex(stop, |s|);
    if i < j then s[i..j] else []
  }

  lemma SliceEmbeds<T>(s: seq<T>, start: int, stop: int) returns (idx: seq<int>)
    ensures Embeds(PySlice(s, start, stop), s, idx)
  {
    var i, j := ClampIndex(start, |s|), ClampIndex(stop, |s|);
    idx := if i < j then seq(j - i, k requires 0 <= k < j - i => i + k) else [];
  }

  /** A page of `limit` elements from `offset` never holds more than `limit`
      elements, whatever the sign of `offset`. */
  lemma SliceAtMostLimit<T>(s: seq<T>, offset: int, limit: int)
    requires limit >= 0
    ensures |PySlice(s, offset, offset + limit)| <= limit
  {
  }

  // ---------------------------------------------------------------------------
  // Filters

  /** A product's category, with a missing one read as the empty string. */
  function CategoryOf(p: Product): string {
    p.category.GetOr("")
  }

  /** The category filter: the categories agree up to case, character by
      character. */
  function MatchesCategory(p: Product, category: string): (b: bool)
    ensures b <==> (|CategoryOf(p)| == |category|
      && forall i :: 0 <= i < |category| ==> LowerChar(CategoryOf(p)[i]) == LowerChar(category[i]))
  {
    Lower(CategoryOf(p)) == Lower(category)
  }

  /** The query filter: the query occurs, up to case, in the name or in the
      category. */
  function MatchesQuery(p: Product, q: string): (b: bool)
    ensures b <==> ((exists k :: OccursAt(Lower(p.name), Lower(q), k))
      || (exists k :: OccursAt(Lower(CategoryOf(p)), Lower(q), k)))
  {
    Contains(Lower(p.name), Lower(q)) || Contains(Lower(CategoryOf(p)), Lower(q))
  }

  /** A product passes the category filter when a non-empty category is
      given, and the query filter when a non-empty query is given. */
  predicate Passes(p: Product, q: Option<string>, category: Option<string>) {
    && (category.Some? && category.value != "" ==> MatchesCategory(p, category.value))
    && (q.Some? && q.value != "" ==> MatchesQuery(p, q.value))
  }

  /** The products that pass the category filter (when a non-empty category is
      given) and then the query filter (when a non-empty query is given). */
  function Filtered(items: seq<Product>, q: Option<string>, category: Option<string>): (r: seq<Product>)
    ensures forall p :: p in r <==> p in items && Passes(p, q, category)
    ensures IsSubsequence(r, items)
  {
    var byCategory :=
      if category.Some? && category.value != "" then Filter(p => MatchesCategory(p, category.value), items)
      else items;
    var r :=
      if q.Some? && q.value != "" then Filter(p => MatchesQuery(p, q.value), byCategory)
      else byCategory;
    FilteredEmbeds(items, byCategory, r, q, category);
    r
  }

  lemma FilteredEmbeds(items: seq<Product>, byCategory: seq<Product>, r: seq<Product>, q: Option<string>, category: Option<string>)
    requires byCategory ==
      if category.Some? && category.value != "" then Filter(p => MatchesCategory(p, category.value), items)
      else items
    requires r ==
      if q.Some? && q.value != "" then Filter(p => MatchesQuery(p, q.value), byCategory)
      else byCategory
    ensures IsSubsequence(r, items)
  {
    var same := seq(|items|, k requires 0 <= k < |items| => k);
    assert Embeds(items, items, same);
    var e1 := same;
    if category.Some? && category.value != "" {
      e1 := FilterEmbeds(p => MatchesCategory(p, category.value), items);
    }
    var e2 := seq(|byCategory|, k requires 0 <= k < |byCategory| => k);
    assert Embeds(byCategory, byCategory, e2);
    if q.Some? && q.value != "" {
      e2 := FilterEmbeds(p => MatchesQuery(p, q.value), byCategory);
    }
    var e := EmbedsTransitive(r, byCategory, items, e2, e1);
  }

  /** Filtering the catalog distributes over concatenation. */
  lemma FilteredAppend(a: seq<Product>, b: seq<Product>, q: Option<string>, category: Option<string>)
    ensures Filtered(a + b, q, category) == Filtered(a, q, category) + Filtered(b, q, category)
  {
    var byCategory := a + b;
    if category.Some? && category.value != "" {
      FilterAppend(p => MatchesCategory(p, category.value), a, b);
      byCategory := Filter(p => MatchesCategory(p, category.value), a) + Filter(p => MatchesCategory(p, category.value), b);
    }
    if q.Some? && q.value != "" {
      var ca := if category.Some? && category.value != "" then Filter(p => MatchesCategory(p, category.value), a) else a;
      var cb := if category.Some? && category.value != "" then Filter(p => MatchesCategory(p, category.value), b) else b;
      FilterAppend(p => MatchesQuery(p, q.value), ca, cb);
    }
  }

  /** Each catalog position is listed exactly when that product passes the
      filters, so a product that appears twice and passes is listed twice, and
      the listed products keep the catalog's order. */
  lemma FilteredAt(items: seq<Product>, q: Option<string>, category: Option<string>, i: int)
    requires 0 <= i < |items|
    ensures Filtered(items, q, category) ==
      Filtered(items[..i], q, category)
      + (if Passes(items[i], q, category) then [items[i]] else [])
      + Filtered(items[i + 1..], q, category)
  {
    var front, x, back := items[..i], items[i], items[i + 1..];
    var mid := if Passes(x, q, category) then [x] else [];
    calc {
      Filtered(items, q, category);
      { assert items == front + ([x] + back); }
      Filtered(front + ([x] + back), q, category);
      { FilteredAppend(front, [x] + back, q, category); }
      Filtered(front, q, category) + Filtered([x] + back, q, category);
      { FilteredAppend([x], back, q, category); FilteredSingle(x, q, category); }
      Filtered(front, q, category) + (mid + Filtered(back, q, category));
      Filtered(front, q, category) + mid + Filtered(back, q, category);
    }
  }

  lemma FilteredSingle(x: Product, q: Option<string>, category: Option<string>)
    ensures Filtered([x], q, category) == if Passes(x, q, category) then [x] else []
  {
    var byCategory := [x];
    if category.Some? && category.value != "" {
      FilterSingle(p => MatchesCategory(p, category.value), x);
      byCategory := if MatchesCategory(x, category.value) then [x] else [];
    }
    if q.Some? && q.value != "" && byCategory == [x] {
      FilterSingle(p => MatchesQuery(p, q.value), x);
    }
  }

  /** A one-element list keeps its element exactly when it passes. */
  lemma FilterSingle<T(!new)>(f: T -> bool, x: T)
    ensures Filter(f, [x]) == if f(x) then [x] else []
  {
    assert [x][1..] == [];
  }

  /** A page of a subsequence of `cache` is a subsequence of `cache` made of
      elements of that subsequence. */
  lemma PageOfFiltered(cache: seq<Product>, items: seq<Product>, offset: int, limit: int)
    requires IsSubsequence(items, cache)
    ensures IsSubsequence(PySlice(items, offset, offset + limit), cache)
    ensures forall p :: p in PySlice(items, offset, offset + limit) ==> p in items
    ensures limit >= 0 ==> |PySlice(items, offset, offset + limit)| <= limit
  {
    var r := PySlice(items, offset, offset + limit);
    var e1 :| Embeds(items, cache, e1);
    var e2 := SliceEmbeds(items, offset, offset + limit);
    var e := EmbedsTransitive(r, items, cache, e2, e1);
    forall p | p in r ensures p in items {
      var k :| 0 <= k < |r| && r[k] == p;
      assert items[e2[k]] == p;
    }
    if limit >= 0 {
      SliceAtMostLimit(items, offset, limit);
    }
  }

  // ---------------------------------------------------------------------------
  // The repository

  /** The page size and start of a listing that names neither. */
  const DefaultLimit := 50
  const DefaultOffset := 0

  class ProductsRepo {
    /** The products loaded from the catalog file, in file order. */
    var cache: seq<Product>

    /** A repository over an already loaded catalog. */
    constructor (products: seq<Product>)
      ensures cache == products
    {
      cache := products;
    }

    /** The page of filtered products that starts `offset` filtered products
        in and holds at most `limit` of them (Python slice rules apply to
        negative bounds). It keeps the catalog's order and every product on it
        passes the filters. */
    function List(q: Option<string>, category: Option<string>, limit: int, offset: int): (r: seq<Product>)
      reads this
      ensures limit >= 0 ==> |r| <= limit
      ensures IsSubsequence(r, cache)
      ensures forall p :: p in r ==> Passes(p, q, category)
    {
      var items := Filtered(cache, q, category);
      var r := PySlice(items, offset, offset + limit);
      PageOfFiltered(cache, items, offset, limit);
      r
    }

    /** A listing called without `limit` and `offset`: the first 50 filtered
        products, or all of them when fewer pass. */
    function ListDefaults(q: Option<string>, category: Option<string>): (r: seq<Product>)
      reads this
      ensures |r| <= DefaultLimit
      ensures var f := Filtered(cache, q, category);
        r == f[..if |f| < DefaultLimit then |f| else DefaultLimit]
    {
      var f := Filtered(cache, q, category);
      SliceWindow(f, DefaultOffset, DefaultLimit);
      assert PySlice(f, DefaultOffset, DefaultOffset + DefaultLimit) == f[..if |f| < DefaultLimit then |f| else DefaultLimit];
      List(q, category, DefaultLimit, DefaultOffset)
    }

    /** The first product in the catalog whose id is `pid`, or none. */
    method Get(pid: string) returns (r: Option<Product>)
      ensures r.None? <==> forall k :: 0 <= k < |cache| ==> cache[k].id != pid
      ensures r.Some? ==> exists k :: (0 <= k < |cache| && cache[k] == r.value && r.value.id == pid
        && forall j :: 0 <= j < k ==> cache[j].id != pid)
    {
      for i := 0 to |cache|
        invariant forall j :: 0 <= j < i ==> cache[j].id != pid
      {
        if cache[i].id == pid {
          return Some(cache[i]);
        }
      }
      return None;
    }
  }

  /** Without filters, a page with a non-negative offset and limit is the plain
      slice of the catalog. */
  lemma ListWithoutFilters(repo: ProductsRepo, limit: int, offset: int)
    requires offset >= 0 && limit >= 0
    ensures var n := |repo.cache|;
      repo.List(None, None, limit, offset) ==
        repo.cache[(if offset < n then offset else n)..(if offset + limit < n then offset + limit else n)]
  {
  }

  /** Filtering comes before paging: with a non-negative offset and limit the
      page is the run of filtered products that starts at position `offset`,
      as long as the limit and the remaining filtered products allow. */
  lemma ListPagesFiltered(repo: ProductsRepo, q: Option<string>, category: Option<string>, limit: int, offset: int)
    requires offset >= 0 && limit >= 0
    ensures var f := Filtered(repo.cache, q, category);
      var r := repo.List(q, category, limit, offset);
      && |r| == (if offset >= |f| then 0 else if limit < |f| - offset then limit else |f| - offset)
      && forall k :: 0 <= k < |r| ==> offset + k < |f| && r[k] == f[offset + k]
  {
    var f := Filtered(repo.cache, q, category);
    assert repo.List(q, category, limit, offset) == PySlice(f, offset, offset + limit);
    SliceWindow(f, offset, limit);
  }

  /** A slice with non-negative bounds is the window that starts at the
      offset and ends at the limit or at the end of the sequence. */
  lemma SliceWindow<T>(f: seq<T>, offset: int, limit: int)
    requires offset >= 0 && limit >= 0
    ensures var r := PySlice(f, offset, offset + limit);
      && |r| == (if offset >= |f| then 0 else if limit < |f| - offset then limit else |f| - offset)
      && forall k :: 0 <= k < |r| ==> offset + k < |f| && r[k] == f[offset + k]
  {
  }

  /** With only a (non-empty) category, a product is listed in full-catalog
      pages exactly when it is in the catalog and its category, with a missing
      one read as empty, equals the requested one up to case. */
  lemma CategoryFilterExact(items: seq<Product>, category: string, p: Product)
    requires category != ""
    ensures p in Filtered(items, None, Some(category)) <==>
      p in items && Lower(p.category.GetOr("")) == Lower(category)
  {
  }

  /** With only a (non-empty) query, a product passes exactly when it is in
      the catalog and the lower-cased query occurs in its lower-cased name or
      in its lower-cased category. */
  lemma QueryFilterExact(items: seq<Product>, q: string, p: Product)
    requires q != ""
    ensures p in Filtered(items, Some(q), None) <==>
      p in items
      && ((exists k :: OccursAt(Lower(p.name), Lower(q), k))
          || (exists k :: OccursAt(Lower(p.category.GetOr("")), Lower(q), k)))
  {
  }

  /** A product listed twice in the catalog that passes the filters is
      listed twice. */
  lemma FilteredKeepsDuplicates(p: Product, q: Option<string>, category: Option<string>)
    requires Passes(p, q, category)
    ensures Filtered([p, p], q, category) == [p, p]
  {
    calc {
      Filtered([p, p], q, category);
      { assert [p, p] == [p] + [p]; }
      Filtered([p] + [p], q, category);
      { FilteredAppend([p], [p], q, category); }
      Filtered([p], q, category) + Filtered([p], q, category);
      { FilteredSingle(p, q, category); }
      [p] + [p];
    }
  }

  /** Python slice rules reach the page when its bounds are negative: a limit
      of -1 from offset 0 drops the last product instead of giving none. */
  lemma NegativeLimitDropsLast(a: Product, b: Product, c: Product)
    ensures PySlice([a, b, c], 0, 0 + -1) == [a, b]
  {
  }
}
