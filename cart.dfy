/** The checkout page's cart: a list of product lines with at most one line per
    product, the product records fetched for them, and the total shown. */
module Cart {
  import opened Common
  import opened Text
  import opened ProductModel

  datatype CartLine = CartLine(productId: Id, quantity: int)

  /** No two lines of the cart name the same product. */
  predicate UniqueIds(cart: seq<CartLine>) {
    forall i, j :: 0 <= i < j < |cart| ==> cart[i].productId != cart[j].productId
  }

  predicate InCart(cart: seq<CartLine>, id: Id) {
    exists i :: 0 <= i < |cart| && cart[i].productId == id
  }

  /** The cart update of `addToCart`: a product already in the cart has the
      added amount put on its line; a new product gets a line at the end. */
  function AddLine(cart: seq<CartLine>, id: Id, quantity: int): (r: seq<CartLine>)
    ensures InCart(r, id)
    ensures !InCart(cart, id) ==> r == cart + [CartLine(id, quantity)]
  {
    if InCart(cart, id) then
      var r := seq(|cart|, i requires 0 <= i < |cart| =>
        if cart[i].productId == id then cart[i].(quantity := cart[i].quantity + quantity) else cart[i]);
      InCartSameIds(cart, r, id);
      r
    else
      assert (cart + [CartLine(id, quantity)])[|cart|].productId == id;
      cart + [CartLine(id, quantity)]
  }

  lemma InCartSameIds(cart: seq<CartLine>, r: seq<CartLine>, id: Id)
    requires InCart(cart, id) && |r| == |cart|
    requires forall i :: 0 <= i < |r| ==> r[i].productId == cart[i].productId
    ensures InCart(r, id)
  {
    var i :| 0 <= i < |cart| && cart[i].productId == id;
    assert r[i].productId == id;
  }

  /** `removeFromCart`: the lines of other products, in their order. */
  function RemoveLine(cart: seq<CartLine>, id: Id): (r: seq<CartLine>)
    ensures !InCart(r, id)
    ensures |r| <= |cart|
    ensures forall line :: line in r <==> line in cart && line.productId != id
    decreases |cart|
  {
    if cart == [] then []
    else if cart[0].productId == id then RemoveLine(cart[1..], id)
    else [cart[0]] + RemoveLine(cart[1..], id)
  }

  /** The cart update of `updateQuantity` for a positive quantity: the line of
      that product gets the new quantity. */
  function SetQuantity(cart: seq<CartLine>, id: Id, quantity: int): (r: seq<CartLine>)
    ensures |r| == |cart|
    ensures forall i :: 0 <= i < |r| ==> r[i].productId == cart[i].productId
  {
    seq(|cart|, i requires 0 <= i < |cart| =>
      if cart[i].productId == id then cart[i].(quantity := quantity) else cart[i])
  }

  /** `updateQuantity`: a quantity of zero or less removes the line. */
  function WithQuantity(cart: seq<CartLine>, id: Id, quantity: int): (r: seq<CartLine>)
    ensures quantity <= 0 ==> r == RemoveLine(cart, id)
    ensures quantity > 0 ==> r == SetQuantity(cart, id, quantity)
  {
    if quantity <= 0 then RemoveLine(cart, id) else SetQuantity(cart, id, quantity)
  }

  /** What one line adds to the total: price times quantity when the product
      is known, nothing otherwise. */
  function Contribution(line: CartLine, products: map<Id, Product>): int {
    if line.productId in products then products[line.productId].price * line.quantity else 0
  }

  /** `calculateTotal`. */
  function CartTotal(cart: seq<CartLine>, products: map<Id, Product>): int
    decreases |cart|
  {
    if cart == [] then 0 else Contribution(cart[0], products) + CartTotal(cart[1..], products)
  }

  /** With positive quantities and prices that are not negative, the total is
      not negative. */
  lemma {:induction false} CartTotalNonNegative(cart: seq<CartLine>, products: map<Id, Product>)
    requires forall i :: 0 <= i < |cart| ==> cart[i].quantity >= 1
    requires forall id :: id in products ==> products[id].price >= 0
    ensures CartTotal(cart, products) >= 0
    decreases |cart|
  {
    if cart != [] {
      assert forall i :: 0 <= i < |cart| - 1 ==> cart[1..][i] == cart[i + 1];
      CartTotalNonNegative(cart[1..], products);
    }
  }

  /** The quantity field's value as `updateQuantity` receives it: the integer
      `parseInt` reads, or 1 when it reads nothing or reads 0. */
  function QuantityFromInput(text: string): (q: int)
    ensures q != 0
    ensures ParseInt(text).Some? && ParseInt(text).value != 0 ==> q == ParseInt(text).value
    ensures ParseInt(text).None? || ParseInt(text) == Some(0) ==> q == 1
  {
    match ParseInt(text)
    case None => 1
    case Some(n) => if n == 0 then 1 else n
  }

  /** Typing a non-zero integer gives that integer; typing 0 or clearing the
      field gives 1; so the field never removes a line by itself unless a
      negative number is typed. */
  lemma QuantityInputCases(n: int)
    ensures QuantityFromInput(IntToString(n)) == if n == 0 then 1 else n
    ensures QuantityFromInput("") == 1
  {
    ParseIntRoundTrip(n, "");
    assert IntToString(n) + "" == IntToString(n);
  }

  /** With unique ids, adding to a product already in the cart changes exactly
      its line, by the added amount. */
  lemma {:induction false} AddToExistingLine(cart: seq<CartLine>, k: nat, quantity: int)
    requires UniqueIds(cart) && k < |cart|
    ensures AddLine(cart, cart[k].productId, quantity) == cart[k := cart[k].(quantity := cart[k].quantity + quantity)]
  {
    var id := cart[k].productId;
    assert InCart(cart, id);
  }

  /** With unique ids, setting the quantity of a product in the cart changes
      exactly its line; for a product not in the cart nothing changes. */
  lemma SetQuantityOneLine(cart: seq<CartLine>, id: Id, quantity: int)
    requires UniqueIds(cart)
    ensures !InCart(cart, id) ==> SetQuantity(cart, id, quantity) == cart
    ensures forall k :: 0 <= k < |cart| && cart[k].productId == id ==>
      SetQuantity(cart, id, quantity) == cart[k := cart[k].(quantity := quantity)]
  {
  }

  /** The lines after the first name other products than `id` when the whole
      cart has no line for `id`, or when ids are unique and the first line is
      the one for `id`. */
  lemma NoLineInTail(cart: seq<CartLine>, id: Id)
    requires |cart| > 0
    requires !InCart(cart, id) || (UniqueIds(cart) && cart[0].productId == id)
    ensures !InCart(cart[1..], id)
  {
    forall i | 0 <= i < |cart| - 1
      ensures cart[1..][i].productId != id
    {
      assert cart[1..][i] == cart[i + 1];
    }
  }

  /** Removing a product that has no line leaves the cart as it is. */
  lemma {:induction false} RemoveAbsent(cart: seq<CartLine>, id: Id)
    requires !InCart(cart, id)
    ensures RemoveLine(cart, id) == cart
    decreases |cart|
  {
    if cart != [] {
      assert cart[0].productId != id;
      NoLineInTail(cart, id);
      RemoveAbsent(cart[1..], id);
      assert cart == [cart[0]] + cart[1..];
    }
  }

  /** With unique ids, removing the product of line `k` takes out exactly that
      line and keeps the others in their order. */
  lemma {:induction false} RemoveAt(cart: seq<CartLine>, id: Id, k: nat)
    requires UniqueIds(cart) && k < |cart| && cart[k].productId == id
    ensures RemoveLine(cart, id) == cart[..k] + cart[k + 1..]
    decreases k
  {
    if k == 0 {
      NoLineInTail(cart, id);
      RemoveAbsent(cart[1..], id);
    } else {
      var tail := cart[1..];
      assert tail[k - 1].productId == id;
      UniqueTail(cart);
      RemoveAt(tail, id, k - 1);
      assert cart[0].productId != id by {
        assert cart[0].productId != cart[k].productId;
      }
      assert RemoveLine(cart, id) == [cart[0]] + RemoveLine(tail, id);
      ConsWithoutAt(cart, k);
    }
  }

  /** Dropping position `k > 0` of a sequence is keeping its head and dropping
      position `k - 1` of its tail. */
  lemma ConsWithoutAt<T>(s: seq<T>, k: nat)
    requires 0 < k < |s|
    ensures [s[0]] + (s[1..][..k - 1] + s[1..][k..]) == s[..k] + s[k + 1..]
  {
    assert [s[0]] + s[1..][..k - 1] == s[..k];
    assert s[1..][k..] == s[k + 1..];
  }

  lemma UniqueTail(cart: seq<CartLine>)
    requires UniqueIds(cart) && |cart| > 0
    ensures UniqueIds(cart[1..])
  {
    forall i, j | 0 <= i < j < |cart| - 1
      ensures cart[1..][i].productId != cart[1..][j].productId
    {
      assert cart[1..][i] == cart[i + 1] && cart[1..][j] == cart[j + 1];
    }
  }

  /** Removal keeps ids unique. */
  lemma {:induction false} RemoveKeepsUnique(cart: seq<CartLine>, id: Id)
    requires UniqueIds(cart)
    ensures UniqueIds(RemoveLine(cart, id))
    decreases |cart|
  {
    if cart != [] {
      RemoveKeepsUnique(cart[1..], id);
      var rest := RemoveLine(cart[1..], id);
      if cart[0].productId != id {
        forall j | 0 <= j < |rest|
          ensures rest[j].productId != cart[0].productId
        {
          assert rest[j] in cart[1..];
        }
      }
    }
  }

  /** Adding, removing and setting a quantity all keep one line per product. */
  lemma CartOperationsKeepUnique(cart: seq<CartLine>, id: Id, quantity: int)
    requires UniqueIds(cart)
    ensures UniqueIds(AddLine(cart, id, quantity))
    ensures UniqueIds(RemoveLine(cart, id))
    ensures UniqueIds(WithQuantity(cart, id, quantity))
  {
    RemoveKeepsUnique(cart, id);
  }

  lemma {:induction false} CartTotalAppend(a: seq<CartLine>, b: seq<CartLine>, products: map<Id, Product>)
    ensures CartTotal(a + b, products) == CartTotal(a, products) + CartTotal(b, products)
    decreases |a|
  {
    if a == [] {
      assert a + b == b;
    } else {
      assert (a + b)[1..] == a[1..] + b;
      CartTotalAppend(a[1..], b, products);
    }
  }

  /** Changing one line changes the total by the difference of the two lines'
      contributions. */
  lemma {:induction false} CartTotalUpdate(cart: seq<CartLine>, k: nat, line: CartLine, products: map<Id, Product>)
    requires k < |cart|
    ensures CartTotal(cart[k := line], products)
      == CartTotal(cart, products) - Contribution(cart[k], products) + Contribution(line, products)
    decreases |cart|
  {
    if k > 0 {
      assert cart[k := line][1..] == cart[1..][k - 1 := line];
      CartTotalUpdate(cart[1..], k - 1, line, products);
    }
  }

  /** Adding `quantity` of a known product raises the total by its price times
      `quantity`, whether it merges or appends. */
  lemma AddLineTotal(cart: seq<CartLine>, id: Id, quantity: int, products: map<Id, Product>)
    requires UniqueIds(cart) && id in products
    ensures CartTotal(AddLine(cart, id, quantity), products)
      == CartTotal(cart, products) + products[id].price * quantity
  {
    if InCart(cart, id) {
      var k :| 0 <= k < |cart| && cart[k].productId == id;
      AddToExistingLine(cart, k, quantity);
      CartTotalUpdate(cart, k, cart[k].(quantity := cart[k].quantity + quantity), products);
    } else {
      CartTotalAppend(cart, [CartLine(id, quantity)], products);
    }
  }

  /** Setting the quantity of line `k` replaces its contribution by the one
      at the new quantity. */
  lemma SetQuantityTotal(cart: seq<CartLine>, k: nat, quantity: int, products: map<Id, Product>)
    requires UniqueIds(cart) && k < |cart|
    ensures CartTotal(SetQuantity(cart, cart[k].productId, quantity), products)
      == CartTotal(cart, products) - Contribution(cart[k], products) + Contribution(cart[k].(quantity := quantity), products)
  {
    SetQuantityOneLine(cart, cart[k].productId, quantity);
    CartTotalUpdate(cart, k, cart[k].(quantity := quantity), products);
  }

  /** Removing a line takes its contribution off the total. */
  lemma RemoveLineTotal(cart: seq<CartLine>, k: nat, products: map<Id, Product>)
    requires UniqueIds(cart) && k < |cart|
    ensures CartTotal(RemoveLine(cart, cart[k].productId), products)
      == CartTotal(cart, products) - Contribution(cart[k], products)
  {
    var before, after := cart[..k], cart[k + 1..];
    RemoveAt(cart, cart[k].productId, k);
    SplitAt(cart, k);
    CartTotalAppend(before, [cart[k]] + after, products);
    CartTotalCons(cart[k], after, products);
    CartTotalAppend(before, after, products);
  }

  lemma SplitAt<T>(s: seq<T>, k: nat)
    requires k < |s|
    ensures s == s[..k] + ([s[k]] + s[k + 1..])
  {
    assert s == s[..k] + s[k..];
    assert s[k..] == [s[k]] + s[k + 1..];
  }

  lemma CartTotalCons(line: CartLine, rest: seq<CartLine>, products: map<Id, Product>)
    ensures CartTotal([line] + rest, products) == Contribution(line, products) + CartTotal(rest, products)
  {
    assert ([line] + rest)[1..] == rest;
  }

  /** Lines whose product is not known add nothing: the total only counts
      known products. */
  lemma {:induction false} UnknownLinesAddNothing(cart: seq<CartLine>, products: map<Id, Product>)
    requires forall i :: 0 <= i < |cart| ==> cart[i].productId !in products
    ensures CartTotal(cart, products) == 0
    decreases |cart|
  {
    if cart != [] {
      UnknownLinesAddNothing(cart[1..], products);
    }
  }

  /** The checkout page's cart state. */
  class CheckoutPage {
    var cart: seq<CartLine>
    var products: map<Id, Product>
    var error: string

    ghost predicate Valid()
      reads this
    {
      UniqueIds(cart)
    }

    constructor ()
      ensures Valid() && cart == [] && products == map[] && error == ""
    {
      cart := [];
      products := map[];
      error := "";
    }

    /** `addToCart`, given the outcome of fetching the product: on success the
        cart takes the line and the product map the record; on failure only the
        error message is set. */
    method AddToCart(productId: Id, quantity: int, fetched: Result<Product, AppError>)
      requires Valid()
      modifies this
      ensures Valid()
      ensures fetched.Failure? ==>
        cart == old(cart) && products == old(products) && error == "Failed to add product to cart"
      ensures fetched.Success? ==>
        && cart == AddLine(old(cart), productId, quantity)
        && products == old(products)[productId := fetched.value]
        && error == old(error)
    {
      if fetched.Failure? {
        error := "Failed to add product to cart";
        return;
      }
      CartOperationsKeepUnique(cart, productId, quantity);
      cart := AddLine(cart, productId, quantity);
      products := products[productId := fetched.value];
    }

    /** `removeFromCart`. */
    method RemoveFromCart(productId: Id)
      requires Valid()
      modifies this
      ensures Valid()
      ensures cart == RemoveLine(old(cart), productId)
      ensures products == old(products) && error == old(error)
    {
      CartOperationsKeepUnique(cart, productId, 1);
      cart := RemoveLine(cart, productId);
    }

    /** `updateQuantity`: zero or less delegates to removal. */
    method UpdateQuantity(productId: Id, quantity: int)
      requires Valid()
      modifies this
      ensures Valid()
      ensures cart == WithQuantity(old(cart), productId, quantity)
      ensures products == old(products) && error == old(error)
    {
      if quantity <= 0 {
        RemoveFromCart(productId);
        return;
      }
      CartOperationsKeepUnique(cart, productId, quantity);
      cart := SetQuantity(cart, productId, quantity);
    }

    /** The quantity field's change handler. */
    method QuantityChanged(productId: Id, text: string)
      requires Valid()
      modifies this
      ensures Valid()
      ensures cart == WithQuantity(old(cart), productId, QuantityFromInput(text))
      ensures products == old(products) && error == old(error)
    {
      UpdateQuantity(productId, QuantityFromInput(text));
    }
  }
}
