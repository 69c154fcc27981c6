/** The product catalog: the product collection with its create, update and
    delete operations, and the search, lookup and category queries over it. */
module ProductService {
  import opened Common
  import opened Text
  import opened Paging
  import opened ProductModel

  /** A product table as the database holds it: every record is stored under its
      own id, conforms to the schema, and has its own creation index. */
  ghost predicate WellFormed(products: map<Id, Product>) {
    && (forall id :: id in products ==> products[id].id == id && Conforms(products[id]))
    && (forall a, b :: a in products && b in products && a != b ==>
          products[a].createdAt != products[b].createdAt)
  }

  /** Storing a new conforming record with the next creation index keeps the
      table well formed and every index below the advanced clock. */
  lemma WellFormedInsert(products: map<Id, Product>, clock: nat, key: Id, p: Product)
    requires WellFormed(products) && key !in products && p.id == key && Conforms(p)
    requires forall id :: id in products ==> products[id].createdAt < clock
    requires p.createdAt == clock
    ensures var stored := products[key := p];
      WellFormed(stored) && forall id :: id in stored ==> stored[id].createdAt < clock + 1
  {
  }

  lemma WellFormedReplace(products: map<Id, Product>, key: Id, q: Product)
    requires WellFormed(products) && key in products && q.id == key && Conforms(q)
    requires q.createdAt == products[key].createdAt
    ensures WellFormed(products[key := q])
  {
  }

  lemma WellFormedRemove(products: map<Id, Product>, id: Id)
    requires WellFormed(products)
    ensures WellFormed(products - {id})
  {
  }

  /** The product collection. `clock` hands out creation indices. */
  class ProductStore {
    var products: map<Id, Product>
    var clock: nat

    ghost predicate Valid()
      reads this
    {
      && WellFormed(products)
      && forall id :: id in products ==> products[id].createdAt < clock
    }

    constructor ()
      ensures Valid() && products == map[] && clock == 0
    {
      products := map[];
      clock := 0;
    }

    /** `createProduct`: casts the fields through the schema and stores the
        new record under a fresh id, or stores nothing on a validation error. */
    method Create(input: ProductInput, freshId: Id) returns (r: Result<Product, AppError>)
      requires Valid() && freshId !in products
      modifies this
      ensures Valid()
      ensures r == NewProduct(input, freshId, old(clock))
      ensures r.Success? ==> products == old(products)[freshId := r.value] && clock == old(clock) + 1
      ensures r.Failure? ==> products == old(products) && clock == old(clock)
    {
      r := NewProduct(input, freshId, clock);
      if r.Success? {
        Insert(r.value);
      }
    }

    /** Saves a new conforming record stamped with the current clock and
        advances the clock. */
    method Insert(p: Product)
      requires Valid() && p.id !in products && Conforms(p) && p.createdAt == clock
      modifies this
      ensures Valid()
      ensures products == old(products)[p.id := p] && clock == old(clock) + 1
    {
      WellFormedInsert(products, clock, p.id, p);
      products := products[p.id := p];
      clock := clock + 1;
    }

    /** `updateProduct`: with update validators on, a field that breaks its
        constraint fails before the lookup; an unknown id fails with 404;
        otherwise the supplied fields are replaced and the new record returned. */
    method Update(id: Id, input: ProductInput) returns (r: Result<Product, AppError>)
      requires Valid()
      modifies this
      ensures Valid() && clock == old(clock)
      ensures !UpdateInputOk(input) ==> r == Failure(UpdateValidationFailed) && products == old(products)
      ensures UpdateInputOk(input) && id !in old(products) ==>
        r == Failure(ProductNotFound) && products == old(products)
      ensures UpdateInputOk(input) && id in old(products) ==>
        var q := ApplyUpdate(old(products)[id], input);
        r == Success(q) && products == old(products)[id := q]
    {
      if !UpdateInputOk(input) {
        r := Failure(UpdateValidationFailed);
      } else if id !in products {
        r := Failure(ProductNotFound);
      } else {
        var q := ApplyUpdate(products[id], input);
        WellFormedReplace(products, id, q);
        products := products[id := q];
        r := Success(q);
      }
    }

    /** `product.save()` after a stock change: the record keeps every other
        field. A stock that is not negative passes the schema's `min: 0`. */
    method SaveStock(id: Id, stock: int)
      requires Valid() && id in products && stock >= 0
      modifies this
      ensures Valid() && clock == old(clock)
      ensures products == old(products)[id := old(products)[id].(stock := stock)]
    {
      WellFormedReplace(products, id, products[id].(stock := stock));
      products := products[id := products[id].(stock := stock)];
    }

    /** `deleteProduct`: an unknown id fails with 404; otherwise the record is
        removed and returned. Afterwards the id is absent either way, so a second
        delete of it fails. */
    method Delete(id: Id) returns (r: Result<Product, AppError>)
      requires Valid()
      modifies this
      ensures Valid() && clock == old(clock)
      ensures id !in products
      ensures id !in old(products) ==> r == Failure(ProductNotFound) && products == old(products)
      ensures id in old(products) ==> r == Success(old(products)[id]) && products == old(products) - {id}
    {
      if id !in products {
        r := Failure(ProductNotFound);
      } else {
        r := Success(products[id]);
        WellFormedRemove(products, id);
        products := products - {id};
      }
    }
  }

  /** `getProductById`. */
  function FindProduct(products: map<Id, Product>, id: Id): (r: Result<Product, AppError>)
    ensures r.Failure? <==> id !in products
    ensures r.Failure? ==> r.error == ProductNotFound
    ensures r.Success? ==> r.value == products[id]
  {
    if id in products then Success(products[id]) else Failure(ProductNotFound)
  }

  /** The query filter: an empty search or category is absent; the search text
      matches case-insensitively inside the name or the description; the
      category must match exactly. */
  predicate Matches(p: Product, search: string, category: string) {
    && (search == "" || ContainsIgnoringCase(p.name, search) || ContainsIgnoringCase(p.description, search))
    && (category == "" || p.category == category)
  }

  ghost function MatchingProducts(products: map<Id, Product>, search: string, category: string): set<Product> {
    set p | p in products.Values && Matches(p, search, category)
  }

  function CreatedAt(p: Product): int {
    p.createdAt
  }

  datatype ProductPage = ProductPage(products: seq<Product>, pagination: Pagination)

  /** `getProducts`: the matching products, newest first, cut to the requested
      page; page and limit default to 1 and 10. */
  ghost function ListProducts(products: map<Id, Product>, search: string, category: string,
                              page: Option<Positive>, limit: Option<Positive>): (r: ProductPage)
    ensures |r.products| <= limit.GetOr(10)
    ensures r.pagination.total == |MatchingProducts(products, search, category)|
    ensures forall i :: 0 <= i < |r.products| ==>
      r.products[i] in products.Values && Matches(r.products[i], search, category)
  {
    var pg := page.GetOr(1);
    var lim := limit.GetOr(10);
    var ordered := NewestFirst(MatchingProducts(products, search, category), CreatedAt);
    var w := Window(ordered, Skip(pg, lim), lim);
    NewestFirstPageMembers(MatchingProducts(products, search, category), CreatedAt, Skip(pg, lim), lim);
    MatchingMembers(products, search, category, w);
    ProductPage(w, Paginate(|ordered|, pg, lim))
  }

  /** Products drawn from the matching set are stored and match. */
  lemma MatchingMembers(products: map<Id, Product>, search: string, category: string, w: seq<Product>)
    requires forall i :: 0 <= i < |w| ==> w[i] in MatchingProducts(products, search, category)
    ensures forall i :: 0 <= i < |w| ==> w[i] in products.Values && Matches(w[i], search, category)
  {
  }

  /** Creation indices are distinct among the matching products. */
  lemma MatchingDistinctCreation(products: map<Id, Product>, search: string, category: string)
    requires WellFormed(products)
    ensures var s := MatchingProducts(products, search, category);
      forall x, y :: x in s && y in s && x != y ==> CreatedAt(x) != CreatedAt(y)
  {
    var s := MatchingProducts(products, search, category);
    forall x, y | x in s && y in s && x != y
      ensures CreatedAt(x) != CreatedAt(y)
    {
      var a :| a in products && products[a] == x;
      var b :| b in products && products[b] == y;
    }
  }

  /** A matching product is a stored product, under its own id, that matches. */
  lemma MatchingStored(products: map<Id, Product>, search: string, category: string, p: Product)
    requires WellFormed(products) && p in MatchingProducts(products, search, category)
    ensures p.id in products && products[p.id] == p && Matches(p, search, category)
  {
    var a :| a in products && products[a] == p;
  }

  /** The counts of a listing: at most `limit` products, the total counting
      every match independently of the page, `pages` the ceiling of total over
      limit, and page and limit echoed back. */
  lemma ListProductsCounts(products: map<Id, Product>, search: string, category: string,
                           page: Option<Positive>, limit: Option<Positive>)
    ensures var r := ListProducts(products, search, category, page, limit);
      && |r.products| <= limit.GetOr(10)
      && r.pagination.total == |MatchingProducts(products, search, category)|
      && r.pagination.page == page.GetOr(1) && r.pagination.limit == limit.GetOr(10)
      && r.pagination.pages == PageCount(r.pagination.total, limit.GetOr(10))
  {
  }

  /** Every listed product is a stored product, under its own id, that matches
      the search and category filter. */
  lemma ListProductsMatch(products: map<Id, Product>, search: string, category: string,
                          page: Option<Positive>, limit: Option<Positive>)
    requires WellFormed(products)
    ensures var r := ListProducts(products, search, category, page, limit);
      forall i :: 0 <= i < |r.products| ==>
        && r.products[i].id in products && products[r.products[i].id] == r.products[i]
        && Matches(r.products[i], search, category)
  {
    var s := MatchingProducts(products, search, category);
    var r := ListProducts(products, search, category, page, limit);
    var skip := Skip(page.GetOr(1), limit.GetOr(10));
    assert r.products == Window(NewestFirst(s, CreatedAt), skip, limit.GetOr(10));
    NewestFirstPageMembers(s, CreatedAt, skip, limit.GetOr(10));
    forall i | 0 <= i < |r.products|
      ensures r.products[i].id in products && products[r.products[i].id] == r.products[i]
      ensures Matches(r.products[i], search, category)
    {
      MatchingStored(products, search, category, r.products[i]);
    }
  }

  /** A listed page is in strictly decreasing creation order. */
  lemma ListProductsNewestFirst(products: map<Id, Product>, search: string, category: string,
                                page: Option<Positive>, limit: Option<Positive>)
    requires WellFormed(products)
    ensures var r := ListProducts(products, search, category, page, limit);
      forall i, j :: 0 <= i < j < |r.products| ==> r.products[i].createdAt > r.products[j].createdAt
  {
    var s := MatchingProducts(products, search, category);
    var skip := Skip(page.GetOr(1), limit.GetOr(10));
    assert ListProducts(products, search, category, page, limit).products
      == Window(NewestFirst(s, CreatedAt), skip, limit.GetOr(10));
    MatchingDistinctCreation(products, search, category);
    NewestProductsOrdered(s, skip, limit.GetOr(10));
  }

  /** `ListProductsNewestFirst` for the window at `skip` of a set of products
      with distinct creation indices. */
  lemma NewestProductsOrdered(s: set<Product>, skip: nat, limit: nat)
    requires forall x, y :: x in s && y in s && x != y ==> CreatedAt(x) != CreatedAt(y)
    ensures var w := Window(NewestFirst(s, CreatedAt), skip, limit);
      forall i, j :: 0 <= i < j < |w| ==> w[i].createdAt > w[j].createdAt
  {
    NewestFirstPageOrder(s, CreatedAt, skip, limit);
    ByCreation(Window(NewestFirst(s, CreatedAt), skip, limit), CreatedAt);
  }

  /** An order by the `CreatedAt` key is an order by creation index. */
  lemma ByCreation(w: seq<Product>, key: Product -> int)
    requires key == CreatedAt
    requires forall i, j :: 0 <= i < j < |w| ==> key(w[i]) > key(w[j])
    ensures forall i, j :: 0 <= i < j < |w| ==> w[i].createdAt > w[j].createdAt
  {
  }

  /** A page after the last one is empty. */
  lemma ListProductsPastEnd(products: map<Id, Product>, search: string, category: string,
                            page: Positive, limit: Option<Positive>)
    requires page > ListProducts(products, search, category, Some(page), limit).pagination.pages
    ensures ListProducts(products, search, category, Some(page), limit).products == []
  {
    var ordered := NewestFirst(MatchingProducts(products, search, category), CreatedAt);
    PageBeyondLastIsEmpty(ordered, page, limit.GetOr(10));
  }

  /** Nothing is lost to pagination: every stored product that matches appears
      on exactly one page among the first `pages`. */
  lemma ListProductsComplete(products: map<Id, Product>, search: string, category: string,
                             limit: Positive, id: Id)
    requires id in products && Matches(products[id], search, category)
    ensures var pages := ListProducts(products, search, category, None, Some(limit)).pagination.pages;
      exists page: Positive ::
        (page <= pages && products[id] in ListProducts(products, search, category, Some(page), Some(limit)).products)
  {
    var s := MatchingProducts(products, search, category);
    assert products[id] in s;
    var page := MemberPage(s, CreatedAt, limit, products[id]);
    assert products[id] in ListProducts(products, search, category, Some(page), Some(limit)).products;
  }

  /** Search semantics in terms of occurrences: a non-empty search matches a
      product exactly when its lower-cased text occurs at some position of the
      lower-cased name or description. */
  lemma SearchMatchesOccurrence(p: Product, search: string)
    requires search != ""
    ensures Matches(p, search, "") <==>
      (exists i :: OccursAt(Lower(p.name), Lower(search), i))
      || (exists i :: OccursAt(Lower(p.description), Lower(search), i))
  {
    ContainsIff(Lower(p.name), Lower(search));
    ContainsIff(Lower(p.description), Lower(search));
  }

  /** A smallest string of a finite non-empty set, in character order. */
  lemma {:induction false} MinStringExists(s: set<string>)
    requires s != {}
    ensures exists m :: m in s && forall y :: y in s && y != m ==> StrLt(m, y)
  {
    var m := MinString(s);
  }

  /** The least string of a non-empty set, in character order. */
  lemma {:induction false} MinString(s: set<string>) returns (m: string)
    requires s != {}
    ensures m in s && forall y :: y in s && y != m ==> StrLt(m, y)
    decreases |s|
  {
    var x :| x in s;
    if s == {x} {
      m := x;
    } else {
      m := MinString(s - {x});
      StrLtTotal(x, m);
      if StrLt(x, m) {
        forall y | y in s && y != x
          ensures StrLt(x, y)
        {
          if y != m {
            StrLtTransitive(x, m, y);
          }
        }
        m := x;
      }
    }
  }

  /** `Array.prototype.sort()` applied to distinct strings: each element once,
      ascending in character order. */
  ghost function SortedStrings(s: set<string>): (r: seq<string>)
    ensures |r| == |s|
    ensures forall x :: x in r <==> x in s
    ensures forall i, j :: 0 <= i < j < |r| ==> StrLt(r[i], r[j])
    decreases |s|
  {
    if s == {} then []
    else
      MinStringExists(s);
      var m :| m in s && forall y :: y in s && y != m ==> StrLt(m, y);
      var rest := SortedStrings(s - {m});
      assert forall j :: 0 <= j < |rest| ==> rest[j] in s - {m};
      SortedCons(m, rest);
      [m] + rest
  }

  /** A string below every element of a sorted sequence can go in front. */
  lemma SortedCons(m: string, rest: seq<string>)
    requires forall j :: 0 <= j < |rest| ==> StrLt(m, rest[j])
    requires forall i, j :: 0 <= i < j < |rest| ==> StrLt(rest[i], rest[j])
    ensures forall i, j :: 0 <= i < j < |[m] + rest| ==> StrLt(([m] + rest)[i], ([m] + rest)[j])
  {
    var r := [m] + rest;
    forall i, j | 0 <= i < j < |r|
      ensures StrLt(r[i], r[j])
    {
      if i == 0 {
        assert r[j] == rest[j - 1];
      } else {
        assert r[i] == rest[i - 1] && r[j] == rest[j - 1];
      }
    }
  }

  /** `getCategories`: the distinct categories in use, sorted. */
  ghost function Categories(products: map<Id, Product>): (r: seq<string>)
    ensures forall i, j :: 0 <= i < j < |r| ==> StrLt(r[i], r[j])
  {
    SortedStrings(set p | p in products.Values :: p.category)
  }

  /** Every category in use is listed exactly once and nothing else is. */
  lemma CategoriesExactlyOnce(products: map<Id, Product>)
    ensures var r := Categories(products);
      && (forall c :: c in r <==> exists id :: id in products && products[id].category == c)
      && (forall i, j :: 0 <= i < j < |r| ==> r[i] != r[j])
  {
    var r := Categories(products);
    forall c | c in r
      ensures exists id :: id in products && products[id].category == c
    {
      var p :| p in products.Values && p.category == c;
      var id :| id in products && products[id] == p;
    }
    forall c | exists id :: id in products && products[id].category == c
      ensures c in r
    {
      var id :| id in products && products[id].category == c;
      assert products[id] in products.Values;
    }
    forall i, j | 0 <= i < j < |r|
      ensures r[i] != r[j]
    {
      StrLtIrreflexive(r[i]);
    }
  }

  /** The order is by character code, not case-folded: "Books" sorts before
      "electronics" because 'B' precedes 'e'. */
  lemma CategoriesCaseSensitive()
    ensures SortedStrings({"electronics", "Books"}) == ["Books", "electronics"]
  {
    var s: set<string> := {"electronics", "Books"};
    var r := SortedStrings(s);
    assert "electronics" != "Books";
    assert |s| == 2;
    assert StrLt("Books", "electronics");
    StrLtAsymmetric("Books", "electronics");
    assert r[0] in s && r[1] in s && r[0] != r[1] by {
      StrLtIrreflexive(r[0]);
    }
  }
}
