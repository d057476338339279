/** The sequence the product list view shows: the catalogue filtered by the
    selected category, then cut to the window of the current page. */
module ProductList {
  import opened JsArray

  datatype Category = Category(id: int, name: string)

  /** A catalogue record; its price plays no part in the view computation. */
  datatype Product = Product(id: int, title: string, price: int, category: Category)

  /** The `selectedCategory` property, whose type is `number | string`. */
  datatype SelectedCategory = Number(value: int) | Text(text: string)

  /** The sentinel that selects every category. */
  const AllCategories: SelectedCategory := Text("all")

  datatype Pagination = Pagination(page: int, limit: int)

  /** `product.category.id === selectedCategory`: strict equality never holds
      between the numeric id and a string. */
  predicate Matches(p: Product, sel: SelectedCategory): (b: bool)
    ensures sel.Text? ==> !b
  {
    sel.Number? && p.category.id == sel.value
  }

  // ---------------------------------------------------------------------
  // Category filter
  // ---------------------------------------------------------------------

  /** `r` can be obtained from `s` by deleting elements, keeping the order of the rest. */
  ghost predicate SubsequenceOf<T>(r: seq<T>, s: seq<T>)
    decreases |s|
  {
    if r == [] then true
    else if s == [] then false
    else (r[0] == s[0] && SubsequenceOf(r[1..], s[1..])) || SubsequenceOf(r, s[1..])
  }

  /** What `filter` promises: the kept products, in their original order, are
      exactly the matching ones, each as often as it occurs in the input. */
  ghost predicate IsCategoryFilter(r: seq<Product>, ps: seq<Product>, sel: SelectedCategory)
  {
    && SubsequenceOf(r, ps)
    && (forall i :: 0 <= i < |r| ==> Matches(r[i], sel))
    && (forall p :: multiset(r)[p] == if Matches(p, sel) then multiset(ps)[p] else 0)
  }

  /** `products.filter(product => product.category.id === selectedCategory)`. */
  function KeepMatching(ps: seq<Product>, sel: SelectedCategory): (r: seq<Product>)
    ensures |r| <= |ps|
    ensures SubsequenceOf(r, ps)
    ensures forall i :: 0 <= i < |r| ==> Matches(r[i], sel)
    ensures forall p :: multiset(r)[p] == if Matches(p, sel) then multiset(ps)[p] else 0
    decreases |ps|
  {
    if ps == [] then []
    else
      var rest := KeepMatching(ps[1..], sel);
      assert ps == [ps[0]] + ps[1..];
      assert multiset(ps) == multiset{ps[0]} + multiset(ps[1..]);
      if Matches(ps[0], sel) then
        assert ([ps[0]] + rest)[1..] == rest;
        assert multiset([ps[0]] + rest) == multiset{ps[0]} + multiset(rest);
        [ps[0]] + rest
      else
        rest
  }

  /** `filteredProducts`: the whole catalogue for the sentinel "all", otherwise
      the products of the selected category. */
  function FilterByCategory(ps: seq<Product>, sel: SelectedCategory): (r: seq<Product>)
    ensures sel == AllCategories ==> r == ps
    ensures sel != AllCategories ==> IsCategoryFilter(r, ps, sel)
  {
    if sel == AllCategories then ps else KeepMatching(ps, sel)
  }

  /** A string other than "all" never equals a numeric id, so it selects nothing. */
  lemma OtherTextSelectsNothing(ps: seq<Product>, text: string)
    requires text != "all"
    ensures FilterByCategory(ps, Text(text)) == []
  {
  }

  lemma {:induction false} SubsequenceMultiset<T>(r: seq<T>, s: seq<T>)
    requires SubsequenceOf(r, s)
    ensures multiset(r) <= multiset(s)
    decreases |s|
  {
    if r != [] {
      assert s == [s[0]] + s[1..];
      if r[0] == s[0] && SubsequenceOf(r[1..], s[1..]) {
        SubsequenceMultiset(r[1..], s[1..]);
        assert r == [r[0]] + r[1..];
      } else {
        SubsequenceMultiset(r, s[1..]);
      }
    }
  }

  /** The filter is determined by its specification: any sequence meeting
      IsCategoryFilter is the one KeepMatching computes. */
  lemma {:induction false} CategoryFilterIsUnique(r: seq<Product>, ps: seq<Product>, sel: SelectedCategory)
    requires IsCategoryFilter(r, ps, sel)
    ensures r == KeepMatching(ps, sel)
    decreases |ps|
  {
    if ps == [] {
    } else {
      var x, rest := ps[0], ps[1..];
      assert ps == [x] + rest;
      assert multiset(ps) == multiset{x} + multiset(rest);
      if r == [] {
        assert IsCategoryFilter(r, rest, sel);
        CategoryFilterIsUnique(r, rest, sel);
      } else if Matches(x, sel) {
        // Skipping x would leave one occurrence of x too few.
        if !(r[0] == x && SubsequenceOf(r[1..], rest)) {
          SubsequenceMultiset(r, rest);
          assert false;
        }
        assert r == [x] + r[1..];
        assert multiset(r) == multiset{x} + multiset(r[1..]);
        forall i | 0 <= i < |r[1..]| ensures Matches(r[1..][i], sel) {
          assert r[1..][i] == r[i + 1];
        }
        assert IsCategoryFilter(r[1..], rest, sel);
        CategoryFilterIsUnique(r[1..], rest, sel);
      } else {
        // x does not match, so r cannot start with it.
        assert Matches(r[0], sel);
        assert SubsequenceOf(r, rest);
        forall p ensures multiset(r)[p] == if Matches(p, sel) then multiset(rest)[p] else 0 {
          if Matches(p, sel) {
            assert p != x;
          }
        }
        assert IsCategoryFilter(r, rest, sel);
        CategoryFilterIsUnique(r, rest, sel);
      }
    }
  }

  // ---------------------------------------------------------------------
  // Page window
  // ---------------------------------------------------------------------

  /** `startIndex = (pagination.page - 1) * pagination.limit`. */
  function StartIndex(p: Pagination): (r: int)
    ensures p.page == 1 ==> r == 0
    ensures p.limit == 0 ==> r == 0
  {
    (p.page - 1) * p.limit
  }

  /** `endIndex = pagination.page * pagination.limit`. */
  function EndIndex(p: Pagination): (r: int)
    ensures p.page == 1 ==> r == p.limit
    ensures p.limit == 0 ==> r == 0
  {
    p.page * p.limit
  }

  /** A window is exactly `limit` wide. */
  lemma WindowWidth(p: Pagination)
    ensures EndIndex(p) - StartIndex(p) == p.limit
  {
  }

  /** Page p ends where page p + 1 starts. */
  lemma ConsecutivePagesAdjacent(p: Pagination)
    ensures EndIndex(p) == StartIndex(Pagination(p.page + 1, p.limit))
  {
  }

  lemma WindowNonNegative(p: Pagination)
    requires p.page >= 1 && p.limit >= 0
    ensures 0 <= StartIndex(p) <= EndIndex(p)
  {
  }

  /** What slicing out a window of width `limit` that starts inside or past
      the end of `filtered` yields. */
  lemma SliceWindow(filtered: seq<Product>, start: int, limit: int)
    requires 0 <= start && 0 <= limit
    ensures var r := Slice(filtered, start, start + limit);
      && |r| <= limit
      && (forall i :: 0 <= i < |r| ==> start + i < |filtered| && r[i] == filtered[start + i])
      && (start >= |filtered| ==> r == [])
      && (start < |filtered| ==> |r| == Min(limit, |filtered| - start))
  {
  }

  /** `filtered.slice(startIndex, endIndex)` for one page. */
  function PageOf(filtered: seq<Product>, p: Pagination): (r: seq<Product>)
    ensures multiset(r) <= multiset(filtered)
    ensures p.limit == 0 ==> r == []
  {
    assert p.limit == 0 ==> StartIndex(p) == 0 == EndIndex(p);
    Slice(filtered, StartIndex(p), EndIndex(p))
  }

  /** For a page number from 1 up and a non-negative limit, a page is the run
      of at most `limit` filtered products that starts at `startIndex`: as
      long as the filtered list is, up to `limit`, and empty past the end. */
  lemma PageIsWindow(filtered: seq<Product>, p: Pagination)
    requires p.page >= 1 && p.limit >= 0
    ensures var r := PageOf(filtered, p);
      && |r| <= p.limit
      && (forall i :: 0 <= i < |r| ==> StartIndex(p) + i < |filtered| && r[i] == filtered[StartIndex(p) + i])
      && (StartIndex(p) >= |filtered| ==> r == [])
      && (StartIndex(p) < |filtered| ==> |r| == Min(p.limit, |filtered| - StartIndex(p)))
  {
    WindowNonNegative(p);
    WindowWidth(p);
    SliceWindow(filtered, StartIndex(p), p.limit);
  }

  /** The products the list renders, in rendering order. */
  function VisibleProducts(products: seq<Product>, sel: SelectedCategory, p: Pagination): (r: seq<Product>)
    ensures p.limit == 0 ==> r == []
    ensures multiset(r) <= multiset(FilterByCategory(products, sel))
  {
    PageOf(FilterByCategory(products, sel), p)
  }

  /** Every rendered product comes from the catalogue and, unless "all" is
      selected, belongs to the selected category. */
  lemma VisibleProductsBelong(products: seq<Product>, sel: SelectedCategory, p: Pagination, q: Product)
    requires q in VisibleProducts(products, sel, p)
    ensures q in products
    ensures sel == AllCategories || Matches(q, sel)
  {
    var filtered := FilterByCategory(products, sel);
    assert q in multiset(filtered);
    if sel != AllCategories {
      var k :| 0 <= k < |filtered| && filtered[k] == q;
      SubsequenceMultiset(filtered, products);
      assert q in multiset(products);
    }
  }

  /** A prefix followed by the window that starts where it ends is a longer prefix. */
  lemma PrefixThenWindow(filtered: seq<Product>, start: int, end: int)
    requires 0 <= start <= end
    ensures filtered[..Min(start, |filtered|)] + Slice(filtered, start, end) == filtered[..Min(end, |filtered|)]
  {
    SliceClipped(filtered, start, end);
    var x, y := Min(start, |filtered|), Min(end, |filtered|);
    assert filtered[..x] + filtered[x..y] == filtered[..y];
  }

  /** Pages 1..k one after another, as a reader paging through the list sees them. */
  function FirstPages(filtered: seq<Product>, limit: int, k: nat): (r: seq<Product>)
  {
    if k == 0 then [] else FirstPages(filtered, limit, k - 1) + PageOf(filtered, Pagination(k, limit))
  }

  /** The first k pages are the first k * limit filtered products: no product
      is skipped or repeated between pages. */
  lemma {:induction false} FirstPagesArePrefix(filtered: seq<Product>, limit: nat, k: nat)
    ensures FirstPages(filtered, limit, k) == filtered[..Min(k * limit, |filtered|)]
  {
    if k > 0 {
      var p := Pagination(k, limit);
      var a, b := StartIndex(p), EndIndex(p);
      WindowNonNegative(p);
      FirstPagesArePrefix(filtered, limit, k - 1);
      assert FirstPages(filtered, limit, k - 1) == filtered[..Min(a, |filtered|)];
      PrefixThenWindow(filtered, a, b);
      assert FirstPages(filtered, limit, k) == FirstPages(filtered, limit, k - 1) + PageOf(filtered, p);
    }
  }

  /** Once the pages reach past the end, together they are the whole filtered list. */
  lemma PagesTileFiltered(filtered: seq<Product>, limit: nat, k: nat)
    requires k * limit >= |filtered|
    ensures FirstPages(filtered, limit, k) == filtered
  {
    FirstPagesArePrefix(filtered, limit, k);
    assert filtered[..|filtered|] == filtered;
  }
}
