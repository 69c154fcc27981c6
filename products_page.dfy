/** The catalog page: its filter state and handlers, the query it sends, the
    page-number strip of the pager, and the client-side sort of the fetched
    page. */
module ProductsPage {
  import opened Common
  import opened Paging
  import opened ProductModel

  /** The consecutive integers from `lo` to `hi`, empty when `hi < lo`. */
  function Range(lo: int, hi: int): (r: seq<int>)
    ensures |r| == if hi < lo then 0 else hi - lo + 1
    ensures forall i :: 0 <= i < |r| ==> r[i] == lo + i
  {
    if hi < lo then [] else seq(hi - lo + 1, i => lo + i)
  }

  /** The page numbers the pager shows: none for a single page, otherwise the
      pages from two before to two after the current one, clipped to the
      existing pages. */
  function PageWindow(totalPages: int, page: int): (r: seq<int>)
    ensures |r| <= 5
    ensures forall i :: 0 <= i < |r| ==> 1 <= r[i] <= totalPages
  {
    if totalPages <= 1 then [] else Range(Max(1, page - 2), Min(totalPages, page + 2))
  }

  /** `pageNumbers`: an unknown page count counts as 0. */
  method PageNumbers(pages: Option<int>, page: int) returns (range: seq<int>)
    ensures range == PageWindow(pages.GetOr(0), page)
  {
    var totalPages := pages.GetOr(0);
    if totalPages <= 1 {
      return [];
    }
    range := [];
    var start := Max(1, page - 2);
    var end := Min(totalPages, page + 2);
    var i := start;
    while i <= end
      invariant start <= i <= Max(start, end + 1)
      invariant range == Range(start, i - 1)
    {
      range := range + [i];
      i := i + 1;
    }
  }

  /** The strip holds at most five pages, each an existing page, ascending by
      one; for a current page that exists, it holds that page, with the two
      neighbours on each side that exist. */
  lemma PageWindowShape(totalPages: int, page: int)
    ensures var r := PageWindow(totalPages, page);
      && |r| <= 5
      && (forall i :: 0 <= i < |r| ==> 1 <= r[i] <= totalPages)
      && (forall i :: 0 <= i < |r| - 1 ==> r[i + 1] == r[i] + 1)
    ensures 1 < totalPages && 1 <= page <= totalPages ==>
      forall p :: (p in PageWindow(totalPages, page) <==> 1 <= p <= totalPages && page - 2 <= p <= page + 2)
  {
    var r := PageWindow(totalPages, page);
    if 1 < totalPages && 1 <= page <= totalPages {
      forall p | 1 <= p <= totalPages && page - 2 <= p <= page + 2
        ensures p in r
      {
        assert r[p - Max(1, page - 2)] == p;
      }
    }
  }

  /** Two examples of the strip: page 1 of 10 shows 1 to 3, page 6 of 10 shows
      4 to 8. */
  lemma PageWindowExamples()
    ensures PageWindow(10, 1) == [1, 2, 3]
    ensures PageWindow(10, 6) == [4, 5, 6, 7, 8]
    ensures PageWindow(1, 1) == []
  {
  }

  /** The fetch request's parameters. */
  datatype QueryParams = QueryParams(page: int, limit: int, search: Option<string>, category: Option<string>)

  /** `fetchProducts` parameters: always the page and a limit of 10; search
      and category only when not empty. */
  function Params(page: int, search: string, category: string): (q: QueryParams)
    ensures q.page == page && q.limit == 10
    ensures q.search.Some? <==> search != ""
    ensures q.category.Some? <==> category != ""
  {
    QueryParams(page, 10,
      if search != "" then Some(search) else None,
      if category != "" then Some(category) else None)
  }

  /** The server reads an absent parameter as the empty filter, so the
      filters it applies are exactly the page's state. */
  lemma ParamsCarryFilters(page: int, search: string, category: string)
    ensures Params(page, search, category).search.GetOr("") == search
    ensures Params(page, search, category).category.GetOr("") == category
  {
  }

  /** The Reset button is disabled exactly when no filter or sort is set. */
  predicate ResetDisabled(search: string, category: string, sortBy: string) {
    search == "" && category == "" && sortBy == "featured"
  }

  /** Comparators passed to `sort`: negative puts `a` first, positive puts `b`
      first. */
  function PriceAscending(a: Product, b: Product): int {
    a.price - b.price
  }

  function PriceDescending(a: Product, b: Product): int {
    b.price - a.price
  }

  /** Inserts `x` in front of the first element it does not sort after; equal
      elements keep `x` first. */
  function InsertWith(x: Product, t: seq<Product>, cmp: (Product, Product) -> int): (r: seq<Product>)
    ensures multiset(r) == multiset(t) + multiset{x}
    decreases |t|
  {
    if t == [] || cmp(x, t[0]) <= 0 then [x] + t
    else
      assert t == [t[0]] + t[1..];
      [t[0]] + InsertWith(x, t[1..], cmp)
  }

  /** A stable sort under `cmp`: the order `Array.prototype.sort` produces for a
      comparator that orders consistently. */
  function SortWith(s: seq<Product>, cmp: (Product, Product) -> int): (r: seq<Product>)
    ensures multiset(r) == multiset(s) && |r| == |s|
    decreases |s|
  {
    if s == [] then []
    else
      assert s == [s[0]] + s[1..];
      var r := InsertWith(s[0], SortWith(s[1..], cmp), cmp);
      assert |r| == |multiset(r)|;
      r
  }

  /** Sorted non-decreasing under `key`. */
  predicate SortedBy(s: seq<Product>, key: Product -> int) {
    forall i, j :: 0 <= i < j < |s| ==> key(s[i]) <= key(s[j])
  }

  lemma {:induction false} InsertSorted(x: Product, t: seq<Product>, cmp: (Product, Product) -> int, key: Product -> int)
    requires forall a, b :: cmp(a, b) == key(a) - key(b)
    requires SortedBy(t, key)
    ensures SortedBy(InsertWith(x, t, cmp), key)
    decreases |t|
  {
    if t == [] {
    } else if cmp(x, t[0]) <= 0 {
      assert forall j :: 0 <= j < |t| ==> key(x) <= key(t[j]) by {
        assert forall j :: 0 < j < |t| ==> key(t[0]) <= key(t[j]);
      }
      SortedByCons(x, t, key);
    } else {
      InsertSorted(x, t[1..], cmp, key);
      var rest := InsertWith(x, t[1..], cmp);
      forall j | 0 <= j < |rest|
        ensures key(t[0]) <= key(rest[j])
      {
        assert rest[j] in multiset(rest);
        assert rest[j] == x || rest[j] in multiset(t[1..]);
        if rest[j] != x {
          var k :| 0 <= k < |t[1..]| && t[1..][k] == rest[j];
          assert t[k + 1] == rest[j];
        }
      }
      SortedByCons(t[0], rest, key);
    }
  }

  /** An element whose key is at most every key of a sorted sequence can go
      in front. */
  lemma SortedByCons(h: Product, rest: seq<Product>, key: Product -> int)
    requires forall j :: 0 <= j < |rest| ==> key(h) <= key(rest[j])
    requires SortedBy(rest, key)
    ensures SortedBy([h] + rest, key)
  {
    var r := [h] + rest;
    forall i, j | 0 <= i < j < |r|
      ensures key(r[i]) <= key(r[j])
    {
      assert r[j] == rest[j - 1];
      if i > 0 {
        assert r[i] == rest[i - 1];
      }
    }
  }

  /** Sorting with a comparator that compares an integer key sorts by that key. */
  lemma {:induction false} SortSorted(s: seq<Product>, cmp: (Product, Product) -> int, key: Product -> int)
    requires forall a, b :: cmp(a, b) == key(a) - key(b)
    ensures SortedBy(SortWith(s, cmp), key)
    decreases |s|
  {
    if s != [] {
      SortSorted(s[1..], cmp, key);
      InsertSorted(s[0], SortWith(s[1..], cmp), cmp, key);
    }
  }

  function Price(p: Product): int {
    p.price
  }

  function NegPrice(p: Product): int {
    -p.price
  }

  /** `sortedProducts`: a sorted copy of the fetched page under the chosen
      order; names compare with the supplied `localeCompare`; 'featured' and any
      other choice keep the fetched order. */
  function SortedProducts(products: seq<Product>, sortBy: string, localeCompare: (string, string) -> int): (r: seq<Product>)
    ensures multiset(r) == multiset(products) && |r| == |products|
    ensures sortBy == "price-low" ==> forall i, j :: 0 <= i < j < |r| ==> r[i].price <= r[j].price
    ensures sortBy == "price-high" ==> forall i, j :: 0 <= i < j < |r| ==> r[i].price >= r[j].price
    ensures sortBy !in ["price-low", "price-high", "name-asc", "name-desc"] ==> r == products
  {
    if sortBy == "price-low" then
      SortSorted(products, PriceAscending, Price);
      SortWith(products, PriceAscending)
    else if sortBy == "price-high" then
      SortSorted(products, PriceDescending, NegPrice);
      SortWith(products, PriceDescending)
    else if sortBy == "name-asc" then
      SortWith(products, (a: Product, b: Product) => localeCompare(a.name, b.name))
    else if sortBy == "name-desc" then
      SortWith(products, (a: Product, b: Product) => localeCompare(b.name, a.name))
    else products
  }

  /** The catalog page's state. `products` and `pagination` hold the last
      page fetched. */
  class CatalogPage {
    var search: string
    var selectedCategory: string
    var sortBy: string
    var page: int
    var products: seq<Product>
    var pagination: Option<Pagination>
    var error: string

    ghost predicate Valid()
      reads this
    {
      page >= 1
    }

    constructor ()
      ensures Valid()
      ensures search == "" && selectedCategory == "" && sortBy == "featured" && page == 1
      ensures products == [] && pagination == None && error == ""
    {
      search := "";
      selectedCategory := "";
      sortBy := "featured";
      page := 1;
      products := [];
      pagination := None;
      error := "";
    }

    /** The request the page sends for its current state. */
    function Query(): (q: QueryParams)
      reads this
      ensures q.page == page && q.limit == 10
      ensures q.search.GetOr("") == search && q.category.GetOr("") == selectedCategory
    {
      Params(page, search, selectedCategory)
    }

    /** `handleSearch`: a new search text goes back to page 1. */
    method HandleSearch(text: string)
      modifies this
      ensures Valid()
      ensures search == text && page == 1
      ensures selectedCategory == old(selectedCategory) && sortBy == old(sortBy)
      ensures products == old(products) && pagination == old(pagination) && error == old(error)
    {
      search := text;
      page := 1;
    }

    /** `handleCategoryChange`: a new category goes back to page 1. */
    method HandleCategoryChange(value: string)
      modifies this
      ensures Valid()
      ensures selectedCategory == value && page == 1
      ensures search == old(search) && sortBy == old(sortBy)
      ensures products == old(products) && pagination == old(pagination) && error == old(error)
    {
      selectedCategory := value;
      page := 1;
    }

    /** The sort select's `onChange`: only the order changes. */
    method SetSortBy(value: string)
      requires Valid()
      modifies this
      ensures Valid()
      ensures sortBy == value
      ensures search == old(search) && selectedCategory == old(selectedCategory) && page == old(page)
      ensures products == old(products) && pagination == old(pagination) && error == old(error)
    {
      sortBy := value;
    }

    /** `clearFilters`: everything back to its initial value, after which
        Reset is disabled. */
    method ClearFilters()
      modifies this
      ensures Valid()
      ensures search == "" && selectedCategory == "" && sortBy == "featured" && page == 1
      ensures ResetDisabled(search, selectedCategory, sortBy)
      ensures products == old(products) && pagination == old(pagination) && error == old(error)
    {
      search := "";
      selectedCategory := "";
      sortBy := "featured";
      page := 1;
    }

    /** The clear button inside the search field. */
    method ClearSearch()
      modifies this
      ensures Valid()
      ensures search == "" && page == 1
      ensures selectedCategory == old(selectedCategory) && sortBy == old(sortBy)
      ensures products == old(products) && pagination == old(pagination) && error == old(error)
    {
      search := "";
      page := 1;
    }

    /** A page-number button; the pager only offers pages of the strip. */
    method GoToPage(pageNumber: int)
      requires pageNumber >= 1
      modifies this
      ensures Valid() && page == pageNumber
      ensures search == old(search) && selectedCategory == old(selectedCategory) && sortBy == old(sortBy)
      ensures products == old(products) && pagination == old(pagination) && error == old(error)
    {
      page := pageNumber;
    }

    /** Previous, disabled on page 1. */
    method Previous()
      requires Valid()
      modifies this
      ensures Valid()
      ensures page == if old(page) == 1 then 1 else old(page) - 1
      ensures search == old(search) && selectedCategory == old(selectedCategory) && sortBy == old(sortBy)
      ensures products == old(products) && pagination == old(pagination) && error == old(error)
    {
      if page != 1 {
        page := page - 1;
      }
    }

    /** Next, shown only when the server reported more than one page, and
        disabled on the last of them. */
    method Next()
      requires Valid() && pagination.Some? && pagination.value.pages > 1
      modifies this
      ensures Valid()
      ensures page == if old(page) == old(pagination).value.pages then old(page) else old(page) + 1
      ensures search == old(search) && selectedCategory == old(selectedCategory) && sortBy == old(sortBy)
      ensures products == old(products) && pagination == old(pagination) && error == old(error)
    {
      if page != pagination.value.pages {
        page := page + 1;
      }
    }

    /** `fetchProducts`, given the response: a success replaces the page of
        products and the counts; a failure keeps them and sets the message. */
    method ReceiveProducts(response: Result<(seq<Product>, Pagination), AppError>)
      modifies this
      ensures response.Success? ==>
        products == response.value.0 && pagination == Some(response.value.1) && error == ""
      ensures response.Failure? ==>
        products == old(products) && pagination == old(pagination) && error == "Failed to load products"
      ensures search == old(search) && selectedCategory == old(selectedCategory)
      ensures sortBy == old(sortBy) && page == old(page)
    {
      error := "";
      if response.Success? {
        products := response.value.0;
        pagination := Some(response.value.1);
      } else {
        error := "Failed to load products";
      }
    }
  }
}
