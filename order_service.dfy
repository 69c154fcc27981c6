/** Order placement and the order queries: the stock loop of `createOrder`, the
    paginated listings, the owner-or-admin lookup and the status update. */
module OrderService {
  import opened Common
  import opened Paging
  import opened ProductModel
  import opened ProductService

  /** The five order states. Any state may be set from any other. */
  datatype Status = Pending | Processing | Shipped | Delivered | Cancelled

  /** The accepted status names, in the order the whitelist lists them. */
  const StatusNames: seq<string> := ["pending", "processing", "shipped", "delivered", "cancelled"]

  function StatusName(s: Status): (name: string)
    ensures name in StatusNames
  {
    match s
    case Pending => "pending"
    case Processing => "processing"
    case Shipped => "shipped"
    case Delivered => "delivered"
    case Cancelled => "cancelled"
  }

  /** The whitelist check: a name is accepted exactly when it is one of the five,
      and then it names that status. */
  function ParseStatus(name: string): (r: Option<Status>)
    ensures r.Some? <==> name in StatusNames
    ensures r.Some? ==> StatusName(r.value) == name
  {
    if name == "pending" then Some(Pending)
    else if name == "processing" then Some(Processing)
    else if name == "shipped" then Some(Shipped)
    else if name == "delivered" then Some(Delivered)
    else if name == "cancelled" then Some(Cancelled)
    else None
  }

  /** Names and statuses correspond one to one. */
  lemma StatusRoundTrip(s: Status, name: string)
    ensures ParseStatus(StatusName(s)) == Some(s)
    ensures ParseStatus(name) == Some(s) <==> name == StatusName(s)
  {
  }

  /** One requested line of an order. */
  datatype LineRequest = LineRequest(productId: Id, quantity: int)

  /** One line of a placed order: the product, the quantity and the unit price
      read when the line was processed. */
  datatype OrderItem = OrderItem(product: Id, quantity: int, price: int)

  datatype Address = Address(street: string, city: string, state: string, zipCode: string)

  datatype Order = Order(
    id: Id,
    user: Id,
    items: seq<OrderItem>,
    totalAmount: int,
    shippingAddress: Address,
    status: Status,
    createdAt: nat)

  const EmptyOrder := AppError(400, "Order must have at least one item")
  const OrderNotFound := AppError(404, "Order not found")
  const AccessDenied := AppError(403, "Access denied")
  const InvalidStatus := AppError(400, "Invalid order status")

  /** The sum of quantity times unit price over the lines. */
  function ItemsTotal(items: seq<OrderItem>): (r: int)
    ensures (forall i :: 0 <= i < |items| ==> items[i].quantity >= 0 && items[i].price >= 0) ==> r >= 0
  {
    if items == [] then 0
    else ItemsTotal(items[..|items| - 1]) + items[|items| - 1].quantity * items[|items| - 1].price
  }

  lemma ItemsTotalAppend(items: seq<OrderItem>, line: OrderItem)
    ensures ItemsTotal(items + [line]) == ItemsTotal(items) + line.quantity * line.price
  {
    assert (items + [line])[..|items|] == items;
  }

  /** The total quantity the lines request of one product. */
  function QtySum(lines: seq<LineRequest>, id: Id): int {
    if lines == [] then 0
    else (if lines[0].productId == id then lines[0].quantity else 0) + QtySum(lines[1..], id)
  }

  /** The error one line raises against the current stock, if any: an unknown
      product gives 404 naming the requested id, a stock below the quantity gives
      400 naming the product. */
  function LineCheck(products: map<Id, Product>, line: LineRequest): (r: Option<AppError>)
    ensures r.None? <==> line.productId in products && products[line.productId].stock >= line.quantity
    ensures line.productId !in products ==>
      r == Some(AppError(404, "Product " + line.productId + " not found"))
    ensures line.productId in products && products[line.productId].stock < line.quantity ==>
      r == Some(AppError(400, "Insufficient stock for " + products[line.productId].name))
  {
    if line.productId !in products then Some(AppError(404, "Product " + line.productId + " not found"))
    else if products[line.productId].stock < line.quantity then
      Some(AppError(400, "Insufficient stock for " + products[line.productId].name))
    else None
  }

  /** Where a run of the stock loop ends: every line processed, with the stock,
      the order lines and the running total; or stopped at a failing line, with
      the stock as the earlier lines left it. */
  datatype Outcome =
    | Completed(products: map<Id, Product>, items: seq<OrderItem>, total: int)
    | Stopped(products: map<Id, Product>, error: AppError)

  /** The stock once `line`'s quantity is taken off the product it names. */
  function Taken(products: map<Id, Product>, line: LineRequest): map<Id, Product>
    requires line.productId in products
  {
    products[line.productId := products[line.productId].(stock := products[line.productId].stock - line.quantity)]
  }

  /** The order line recorded for `line`: product, quantity and the product's
      current price. */
  function Priced(products: map<Id, Product>, line: LineRequest): OrderItem
    requires line.productId in products
  {
    OrderItem(line.productId, line.quantity, products[line.productId].price)
  }

  /** What `line` adds to the running total. */
  function Cost(products: map<Id, Product>, line: LineRequest): int
    requires line.productId in products
  {
    products[line.productId].price * line.quantity
  }

  /** The stock loop, one line at a time: each line is checked against the
      stock as the earlier lines left it, its price is snapshotted, and its
      quantity is taken off the stock before the next line is read. */
  function Run(products: map<Id, Product>, lines: seq<LineRequest>, items: seq<OrderItem>, total: int): (r: Outcome)
    ensures r.Completed? ==> |r.items| == |items| + |lines|
    ensures r.Stopped? ==> lines != [] && (r.error.status == 404 || r.error.status == 400)
    decreases |lines|
  {
    if lines == [] then Completed(products, items, total)
    else
      match LineCheck(products, lines[0])
      case Some(e) => Stopped(products, e)
      case None =>
        Run(Taken(products, lines[0]), lines[1..], items + [Priced(products, lines[0])], total + Cost(products, lines[0]))
  }

  /** One step of the loop: a failing first line stops the run with its error
      and the stock unchanged; a passing one is recorded and its quantity taken
      off before the rest are read. */
  lemma RunHead(products: map<Id, Product>, lines: seq<LineRequest>, items: seq<OrderItem>, total: int)
    requires lines != []
    ensures LineCheck(products, lines[0]).Some? ==>
      Run(products, lines, items, total) == Stopped(products, LineCheck(products, lines[0]).value)
    ensures LineCheck(products, lines[0]).None? ==>
      Run(products, lines, items, total)
        == Run(Taken(products, lines[0]), lines[1..], items + [Priced(products, lines[0])], total + Cost(products, lines[0]))
  {
  }

  /** `RunHead` at position `i` of the requested lines. */
  lemma RunAt(products: map<Id, Product>, requests: seq<LineRequest>, i: nat, items: seq<OrderItem>, total: int)
    requires i < |requests|
    ensures LineCheck(products, requests[i]).Some? ==>
      Run(products, requests[i..], items, total) == Stopped(products, LineCheck(products, requests[i]).value)
    ensures LineCheck(products, requests[i]).None? ==>
      Run(products, requests[i..], items, total)
        == Run(Taken(products, requests[i]), requests[i + 1..],
               items + [Priced(products, requests[i])], total + Cost(products, requests[i]))
  {
    assert requests[i..][0] == requests[i] && requests[i..][1..] == requests[i + 1..];
    RunHead(products, requests[i..], items, total);
  }

  /** The loop's step, stated over the states before and after it: `line`
      is the `i`th requested line and `p` the product it names. */
  lemma RunStep(before: map<Id, Product>, after: map<Id, Product>, requests: seq<LineRequest>, i: nat,
                line: LineRequest, p: Product, stock: int,
                items: seq<OrderItem>, total: int, items': seq<OrderItem>, total': int)
    requires i < |requests| && requests[i] == line
    requires line.productId in before && before[line.productId] == p && p.stock >= line.quantity
    requires stock == p.stock - line.quantity && after == before[line.productId := p.(stock := stock)]
    requires items' == items + [OrderItem(line.productId, line.quantity, p.price)]
    requires total' == total + p.price * line.quantity
    ensures Run(before, requests[i..], items, total) == Run(after, requests[i + 1..], items', total')
  {
    RunAt(before, requests, i, items, total);
  }

  /** The running total is the sum over the lines recorded so far. */
  lemma {:induction false} RunTotal(products: map<Id, Product>, lines: seq<LineRequest>, items: seq<OrderItem>, total: int)
    requires total == ItemsTotal(items)
    ensures var o := Run(products, lines, items, total);
      o.Completed? ==> o.total == ItemsTotal(o.items)
    decreases |lines|
  {
    if lines != [] && LineCheck(products, lines[0]).None? {
      ItemsTotalAppend(items, Priced(products, lines[0]));
      RunTotal(Taken(products, lines[0]), lines[1..], items + [Priced(products, lines[0])], total + Cost(products, lines[0]));
    }
  }

  /** A completed run records one order line per requested line, in request
      order, each with the requested product and quantity and the price the
      product had when the run started (a run changes stock, never prices). */
  lemma {:induction false} RunSnapshots(products: map<Id, Product>, lines: seq<LineRequest>, items: seq<OrderItem>, total: int)
    ensures var o := Run(products, lines, items, total);
      o.Completed? ==>
        && |o.items| == |items| + |lines|
        && o.items[..|items|] == items
        && forall k :: 0 <= k < |lines| ==>
             lines[k].productId in products
             && o.items[|items| + k] == OrderItem(lines[k].productId, lines[k].quantity, products[lines[k].productId].price)
    decreases |lines|
  {
    if lines != [] && LineCheck(products, lines[0]).None? {
      var items' := items + [Priced(products, lines[0])];
      RunSnapshots(Taken(products, lines[0]), lines[1..], items', total + Cost(products, lines[0]));
      var o := Run(products, lines, items, total);
      if o.Completed? {
        assert o.items[..|items'|] == items';
        assert o.items[..|items|] == items'[..|items|];
        forall k | 0 <= k < |lines|
          ensures lines[k].productId in products
          ensures o.items[|items| + k] == OrderItem(lines[k].productId, lines[k].quantity, products[lines[k].productId].price)
        {
          if k == 0 {
            assert o.items[|items|] == o.items[..|items'|][|items|];
          } else {
            assert lines[k] == lines[1..][k - 1];
          }
        }
      }
    }
  }

  /** A completed run takes from each product exactly the sum of the quantities
      naming it, changes no other field and adds or removes no product. */
  lemma RunStock(products: map<Id, Product>, lines: seq<LineRequest>, items: seq<OrderItem>, total: int)
    ensures var o := Run(products, lines, items, total);
      o.Completed? ==>
        && o.products.Keys == products.Keys
        && forall id :: id in products ==>
             o.products[id] == products[id].(stock := products[id].stock - QtySum(lines, id))
  {
    RunKeepsFields(products, lines, items, total);
    RunStockLevels(products, lines, items, total);
  }

  /** Two records of one product that differ at most in stock. */
  predicate SameButStock(a: Product, b: Product) {
    && a.id == b.id && a.name == b.name && a.description == b.description
    && a.price == b.price && a.category == b.category && a.image == b.image
    && a.createdAt == b.createdAt
  }

  /** A run adds or removes no product and changes nothing but stock. */
  lemma {:induction false} RunKeepsFields(products: map<Id, Product>, lines: seq<LineRequest>, items: seq<OrderItem>, total: int)
    ensures var after := Run(products, lines, items, total).products;
      && after.Keys == products.Keys
      && forall id :: id in products ==> SameButStock(after[id], products[id])
    decreases |lines|
  {
    if lines == [] || LineCheck(products, lines[0]).Some? {
      RunEndsHere(products, lines, items, total);
    } else {
      RunKeepsFields(Taken(products, lines[0]), lines[1..], items + [Priced(products, lines[0])], total + Cost(products, lines[0]));
      RunGoesOn(products, lines, items, total);
      TakenKeepsFields(products, lines[0]);
    }
  }

  /** Taking a line off the stock adds or removes no product and changes
      nothing but stock. */
  lemma TakenKeepsFields(products: map<Id, Product>, line: LineRequest)
    requires line.productId in products
    ensures var after := Taken(products, line);
      && after.Keys == products.Keys
      && forall id :: id in products ==> SameButStock(after[id], products[id])
  {
  }

  /** A completed run lowers each product's stock by the sum of the quantities
      naming it. */
  lemma {:induction false} RunStockLevels(products: map<Id, Product>, lines: seq<LineRequest>, items: seq<OrderItem>, total: int)
    ensures var o := Run(products, lines, items, total);
      o.Completed? ==>
        && o.products.Keys == products.Keys
        && forall id :: id in products ==> o.products[id].stock == products[id].stock - QtySum(lines, id)
    decreases |lines|
  {
    if lines != [] && LineCheck(products, lines[0]).None? {
      RunStockLevels(Taken(products, lines[0]), lines[1..], items + [Priced(products, lines[0])], total + Cost(products, lines[0]));
      RunGoesOn(products, lines, items, total);
    }
  }

  /** A run never takes a stock below zero, because a line is only taken when
      the stock covers it. */
  lemma {:induction false} RunStockNonNegative(products: map<Id, Product>, lines: seq<LineRequest>, items: seq<OrderItem>, total: int)
    requires forall id :: id in products ==> products[id].stock >= 0
    ensures var after := Run(products, lines, items, total).products;
      forall id :: id in after ==> after[id].stock >= 0
    decreases |lines|
  {
    if lines == [] || LineCheck(products, lines[0]).Some? {
      RunEndsHere(products, lines, items, total);
    } else {
      RunStockNonNegative(Taken(products, lines[0]), lines[1..], items + [Priced(products, lines[0])], total + Cost(products, lines[0]));
      RunGoesOn(products, lines, items, total);
    }
  }

  /** A run with no line left, or whose next line fails, leaves the stock as
      it is. */
  lemma RunEndsHere(products: map<Id, Product>, lines: seq<LineRequest>, items: seq<OrderItem>, total: int)
    requires lines == [] || LineCheck(products, lines[0]).Some?
    ensures Run(products, lines, items, total).products == products
  {
  }

  /** A run whose next line passes goes on from the stock with that line
      taken. */
  lemma RunGoesOn(products: map<Id, Product>, lines: seq<LineRequest>, items: seq<OrderItem>, total: int)
    requires lines != [] && LineCheck(products, lines[0]).None?
    ensures Run(products, lines, items, total)
      == Run(Taken(products, lines[0]), lines[1..], items + [Priced(products, lines[0])], total + Cost(products, lines[0]))
  {
  }

  /** Every state a run passes through is a well-formed product table; in
      particular no stock ever goes below zero. */
  lemma RunKeepsWellFormed(products: map<Id, Product>, lines: seq<LineRequest>, items: seq<OrderItem>, total: int)
    requires WellFormed(products)
    ensures WellFormed(Run(products, lines, items, total).products)
  {
    RunKeepsFields(products, lines, items, total);
    RunStockNonNegative(products, lines, items, total);
  }

  /** Lines naming the same product together never take more than its stock
      at the start: on success each product's requested quantities sum to at
      most its starting stock. */
  lemma {:induction false} StockCoversRequests(products: map<Id, Product>, lines: seq<LineRequest>, items: seq<OrderItem>, total: int)
    requires forall id :: id in products ==> products[id].stock >= 0
    requires Run(products, lines, items, total).Completed?
    ensures forall id :: id in products ==> QtySum(lines, id) <= products[id].stock
    decreases |lines|
  {
    if lines != [] {
      var line := lines[0];
      RunGoesOn(products, lines, items, total);
      StockCoversRequests(Taken(products, line), lines[1..], items + [Priced(products, line)], total + Cost(products, line));
    }
  }

  /** A stopped run stopped at some line `k`: the lines before it completed
      (their stock taken and kept), line `k` raised the error against the stock
      they left, and the lines after it were never read. */
  lemma RunStopped(products: map<Id, Product>, lines: seq<LineRequest>, items: seq<OrderItem>, total: int)
    ensures var o := Run(products, lines, items, total);
      o.Stopped? ==>
        exists k :: 0 <= k < |lines| && Run(products, lines[..k], items, total).Completed?
          && Run(products, lines[..k], items, total).products == o.products
          && LineCheck(o.products, lines[k]) == Some(o.error)
  {
    if Run(products, lines, items, total).Stopped? {
      var k := StoppedAt(products, lines, items, total);
    }
  }

  /** The line at which a stopped run stopped. */
  lemma {:induction false} StoppedAt(products: map<Id, Product>, lines: seq<LineRequest>, items: seq<OrderItem>, total: int)
    returns (k: nat)
    requires Run(products, lines, items, total).Stopped?
    ensures k < |lines|
    ensures Run(products, lines[..k], items, total).Completed?
    ensures Run(products, lines[..k], items, total).products == Run(products, lines, items, total).products
    ensures LineCheck(Run(products, lines, items, total).products, lines[k]) == Some(Run(products, lines, items, total).error)
    decreases |lines|
  {
    var line := lines[0];
    if LineCheck(products, line).Some? {
      k := 0;
      assert lines[..0] == [];
    } else {
      var j := StoppedAt(Taken(products, line), lines[1..], items + [Priced(products, line)], total + Cost(products, line));
      k := j + 1;
      assert lines[..k][0] == line && lines[..k][1..] == lines[1..][..j];
      assert lines[1..][j] == lines[k];
      RunGoesOn(products, lines[..k], items, total);
    }
  }

  /** The sequence of two orders on one product with stock 5: the first takes
      3 and leaves 2; the second asks for 4 and is refused, leaving 2. */
  lemma TwoOrdersOnOneProduct()
    ensures var mouse := Product("p1", "Mouse", "Wireless mouse", 2500, "electronics", 5, "", 0);
      var first := Run(map["p1" := mouse], [LineRequest("p1", 3)], [], 0);
      && first == Completed(map["p1" := mouse.(stock := 2)], [OrderItem("p1", 3, 2500)], 7500)
      && Run(first.products, [LineRequest("p1", 4)], [], 0)
         == Stopped(map["p1" := mouse.(stock := 2)], AppError(400, "Insufficient stock for Mouse"))
  {
  }

  /** Two lines on one product within one order: with stock 5, lines of 3 and
      3 stop at the second line, and the first line's decrement stays. */
  lemma RepeatedProductStopsPartWay()
    ensures var mouse := Product("p1", "Mouse", "Wireless mouse", 2500, "electronics", 5, "", 0);
      Run(map["p1" := mouse], [LineRequest("p1", 3), LineRequest("p1", 3)], [], 0)
      == Stopped(map["p1" := mouse.(stock := 2)], AppError(400, "Insufficient stock for Mouse"))
  {
    var mouse := Product("p1", "Mouse", "Wireless mouse", 2500, "electronics", 5, "", 0);
    var lines := [LineRequest("p1", 3), LineRequest("p1", 3)];
    assert lines[1..] == [LineRequest("p1", 3)];
  }

  /** Every stored order is under its own id, has at least one line, carries
      the sum of its lines as its total, and has its own creation index. */
  ghost predicate OrdersWellFormed(orders: map<Id, Order>) {
    && (forall id :: id in orders ==>
          orders[id].id == id && |orders[id].items| >= 1 && orders[id].totalAmount == ItemsTotal(orders[id].items))
    && (forall a, b :: a in orders && b in orders && a != b ==> orders[a].createdAt != orders[b].createdAt)
  }

  /** The loop of `createOrder`: the lines are processed in order, each one
      checked against the stock as the earlier lines left it, priced, and
      taken off the stock and saved before the next is read. The first failing
      line ends the loop with its error; otherwise the recorded lines and their
      total come back. Either way the stock is what the run leaves. */
  method TakeStock(ps: ProductStore, requests: seq<LineRequest>) returns (r: Result<(seq<OrderItem>, int), AppError>)
    requires ps.Valid()
    modifies ps
    ensures ps.Valid() && ps.clock == old(ps.clock)
    ensures match Run(old(ps.products), requests, [], 0)
      case Stopped(stock, e) => r == Failure(e) && ps.products == stock
      case Completed(stock, lines, total) => r == Success((lines, total)) && ps.products == stock
  {
    ghost var outcome := Run(ps.products, requests, [], 0);
    var totalAmount := 0;
    var orderItems: seq<OrderItem> := [];
    var i := 0;
    while i < |requests|
      invariant 0 <= i <= |requests|
      invariant ps.Valid() && ps.clock == old(ps.clock)
      invariant outcome == Run(ps.products, requests[i..], orderItems, totalAmount)
    {
      var item := requests[i];
      ghost var before, itemsBefore, totalBefore := ps.products, orderItems, totalAmount;
      if item.productId !in ps.products {
        RunAt(before, requests, i, orderItems, totalAmount);
        return Failure(AppError(404, "Product " + item.productId + " not found"));
      }
      var product := ps.products[item.productId];
      if product.stock < item.quantity {
        RunAt(before, requests, i, orderItems, totalAmount);
        return Failure(AppError(400, "Insufficient stock for " + product.name));
      }
      totalAmount := totalAmount + product.price * item.quantity;
      orderItems := orderItems + [OrderItem(item.productId, item.quantity, product.price)];
      var stock := product.stock - item.quantity;
      ghost var after := before[item.productId := product.(stock := stock)];
      ps.SaveStock(item.productId, stock);
      RunStep(before, after, requests, i, item, product, stock, itemsBefore, totalBefore, orderItems, totalAmount);
      i := i + 1;
    }
    assert requests[i..] == [];
    r := Success((orderItems, totalAmount));
  }

  /** Storing a new order with at least one line, the sum of its lines as its
      total and the next creation index keeps the collection well formed. */
  lemma StoreKeepsValid(orders: map<Id, Order>, clock: nat, order: Order)
    requires OrdersWellFormed(orders) && forall id :: id in orders ==> orders[id].createdAt < clock
    requires order.id !in orders && |order.items| >= 1 && order.totalAmount == ItemsTotal(order.items)
    requires order.createdAt == clock
    ensures var stored := orders[order.id := order];
      OrdersWellFormed(stored) && forall id :: id in stored ==> stored[id].createdAt < clock + 1
  {
  }

  /** The order collection. `clock` hands out creation indices. */
  class OrderStore {
    var orders: map<Id, Order>
    var clock: nat

    ghost predicate Valid()
      reads this
    {
      && OrdersWellFormed(orders)
      && forall id :: id in orders ==> orders[id].createdAt < clock
    }

    constructor ()
      ensures Valid() && orders == map[] && clock == 0
    {
      orders := map[];
      clock := 0;
    }

    /** `createOrder`: a missing or empty item list fails before anything is
        read. Otherwise the lines are processed in order against the product
        store, each one checked, priced and taken off the stock and saved before
        the next; the first failing line ends the request with the stock as the
        earlier lines left it and no order; if every line passes, a pending
        order with the recorded lines and their total is stored. */
    method CreateOrder(ps: ProductStore, userId: Id, items: Option<seq<LineRequest>>, address: Address, freshId: Id)
      returns (r: Result<Order, AppError>)
      requires Valid() && ps.Valid() && freshId !in orders
      modifies this, ps
      ensures Valid() && ps.Valid() && ps.clock == old(ps.clock)
      ensures items.None? || items.value == [] ==>
        r == Failure(EmptyOrder) && ps.products == old(ps.products)
        && orders == old(orders) && clock == old(clock)
      ensures items.Some? && items.value != [] ==>
        match Run(old(ps.products), items.value, [], 0)
        case Stopped(stock, e) =>
          r == Failure(e) && ps.products == stock && orders == old(orders) && clock == old(clock)
        case Completed(stock, lines, total) =>
          && r == Success(Order(freshId, userId, lines, total, address, Pending, old(clock)))
          && ps.products == stock
          && orders == old(orders)[freshId := r.value] && clock == old(clock) + 1
    {
      if items.None? || |items.value| == 0 {
        return Failure(EmptyOrder);
      }
      var taken := TakeStock(ps, items.value);
      if taken.Failure? {
        return Failure(taken.error);
      }
      var (orderItems, totalAmount) := taken.value;
      RunTotal(old(ps.products), items.value, [], 0);
      RunSnapshots(old(ps.products), items.value, [], 0);
      var order := Order(freshId, userId, orderItems, totalAmount, address, Pending, clock);
      StoreKeepsValid(orders, clock, order);
      orders := orders[freshId := order];
      clock := clock + 1;
      r := Success(order);
    }

    /** `updateOrderStatus`: a name outside the whitelist fails with 400 before
        any lookup; an unknown order fails with 404; otherwise only the status
        of that order changes. */
    method UpdateStatus(orderId: Id, status: string) returns (r: Result<Order, AppError>)
      requires Valid()
      modifies this
      ensures Valid() && clock == old(clock)
      ensures ParseStatus(status).None? ==> r == Failure(InvalidStatus) && orders == old(orders)
      ensures ParseStatus(status).Some? && orderId !in old(orders) ==>
        r == Failure(OrderNotFound) && orders == old(orders)
      ensures ParseStatus(status).Some? && orderId in old(orders) ==>
        var updated := old(orders)[orderId].(status := ParseStatus(status).value);
        r == Success(updated) && orders == old(orders)[orderId := updated]
    {
      var s := ParseStatus(status);
      if s.None? {
        return Failure(InvalidStatus);
      }
      if orderId !in orders {
        return Failure(OrderNotFound);
      }
      var updated := orders[orderId].(status := s.value);
      orders := orders[orderId := updated];
      r := Success(updated);
    }
  }

  /** `getOrderById`: an unknown order gives 404; a requester who is neither an
      admin nor the owner gets 403; anyone else gets the order. */
  function OrderById(orders: map<Id, Order>, orderId: Id, userId: Id, role: string): (r: Result<Order, AppError>)
    ensures r.Success? <==> orderId in orders && (role == "admin" || orders[orderId].user == userId)
    ensures r.Success? ==> r.value == orders[orderId]
    ensures orderId !in orders ==> r == Failure(OrderNotFound)
    ensures orderId in orders && r.Failure? ==> r == Failure(AccessDenied)
  {
    if orderId !in orders then Failure(OrderNotFound)
    else if role != "admin" && orders[orderId].user != userId then Failure(AccessDenied)
    else Success(orders[orderId])
  }

  function OrderCreatedAt(o: Order): int {
    o.createdAt
  }

  /** What a listing returns: one page of orders and the counts. */
  datatype OrderPage = OrderPage(orders: seq<Order>, pagination: Pagination)

  /** Newest first, then the page window; `page` and `limit` default to 1 and 10
      and the total counts every match. */
  ghost function ListOrders(matching: set<Order>, page: Option<Positive>, limit: Option<Positive>): (r: OrderPage)
    ensures |r.orders| <= limit.GetOr(10) && r.pagination.total == |matching|
    ensures forall i :: 0 <= i < |r.orders| ==> r.orders[i] in matching
  {
    var pg := page.GetOr(1);
    var lim := limit.GetOr(10);
    var ordered := NewestFirst(matching, OrderCreatedAt);
    NewestFirstPageMembers(matching, OrderCreatedAt, Skip(pg, lim), lim);
    OrderPage(Window(ordered, Skip(pg, lim), lim), Paginate(|ordered|, pg, lim))
  }

  ghost function OwnOrders(orders: map<Id, Order>, userId: Id): set<Order> {
    set o | o in orders.Values && o.user == userId
  }

  /** An empty status is no filter; any other must equal the order's status
      name. */
  ghost function OrdersWithStatus(orders: map<Id, Order>, status: string): set<Order> {
    set o | o in orders.Values && (status == "" || StatusName(o.status) == status)
  }

  /** `getUserOrders`. */
  ghost function UserOrders(orders: map<Id, Order>, userId: Id, page: Option<Positive>, limit: Option<Positive>): (r: OrderPage)
    ensures forall i :: 0 <= i < |r.orders| ==> r.orders[i] in orders.Values && r.orders[i].user == userId
    ensures r.pagination.total == |OwnOrders(orders, userId)|
  {
    ListOrders(OwnOrders(orders, userId), page, limit)
  }

  /** `getAllOrders`. */
  ghost function AllOrders(orders: map<Id, Order>, page: Option<Positive>, limit: Option<Positive>, status: string): (r: OrderPage)
    ensures forall i :: 0 <= i < |r.orders| ==>
      r.orders[i] in orders.Values && (status == "" || StatusName(r.orders[i].status) == status)
    ensures r.pagination.total == |OrdersWithStatus(orders, status)|
  {
    ListOrders(OrdersWithStatus(orders, status), page, limit)
  }

  /** The counts of a listing: at most `limit` orders on the page, the total
      counting every match, and `pages` its ceiling over `limit`. */
  lemma ListOrdersCounts(matching: set<Order>, page: Option<Positive>, limit: Option<Positive>)
    ensures var r := ListOrders(matching, page, limit);
      && |r.orders| <= limit.GetOr(10)
      && r.pagination.total == |matching|
      && r.pagination.page == page.GetOr(1) && r.pagination.limit == limit.GetOr(10)
      && r.pagination.pages == PageCount(|matching|, limit.GetOr(10))
  {
  }

  /** The page is in strictly decreasing creation order when creation indices
      are distinct. */
  lemma ListOrdersNewestFirst(matching: set<Order>, page: Option<Positive>, limit: Option<Positive>)
    requires forall x, y :: x in matching && y in matching && x != y ==> x.createdAt != y.createdAt
    ensures var r := ListOrders(matching, page, limit);
      forall i, j :: 0 <= i < j < |r.orders| ==> r.orders[i].createdAt > r.orders[j].createdAt
  {
    var skip, lim := Skip(page.GetOr(1), limit.GetOr(10)), limit.GetOr(10);
    assert ListOrders(matching, page, limit).orders == Window(NewestFirst(matching, OrderCreatedAt), skip, lim);
    ListOrdersOrdered(matching, skip, lim);
  }

  /** `ListOrdersNewestFirst` for the window at `skip`. */
  lemma ListOrdersOrdered(matching: set<Order>, skip: nat, limit: nat)
    requires forall x, y :: x in matching && y in matching && x != y ==> x.createdAt != y.createdAt
    ensures var w := Window(NewestFirst(matching, OrderCreatedAt), skip, limit);
      forall i, j :: 0 <= i < j < |w| ==> w[i].createdAt > w[j].createdAt
  {
    assert forall x, y :: x in matching && y in matching && x != y ==> OrderCreatedAt(x) != OrderCreatedAt(y);
    NewestFirstPageOrder(matching, OrderCreatedAt, skip, limit);
    ByCreation(Window(NewestFirst(matching, OrderCreatedAt), skip, limit), OrderCreatedAt);
  }

  /** An order by the `OrderCreatedAt` key is an order by creation index. */
  lemma ByCreation(w: seq<Order>, key: Order -> int)
    requires key == OrderCreatedAt
    requires forall i, j :: 0 <= i < j < |w| ==> key(w[i]) > key(w[j])
    ensures forall i, j :: 0 <= i < j < |w| ==> w[i].createdAt > w[j].createdAt
  {
  }

  lemma StoredOrdersDistinctCreation(orders: map<Id, Order>, s: set<Order>)
    requires OrdersWellFormed(orders) && s <= orders.Values
    ensures forall x, y :: x in s && y in s && x != y ==> x.createdAt != y.createdAt
  {
    forall x, y | x in s && y in s && x != y
      ensures x.createdAt != y.createdAt
    {
      var a :| a in orders && orders[a] == x;
      var b :| b in orders && orders[b] == y;
    }
  }

  /** A user's listing holds only stored orders of that user, newest first. */
  lemma UserOrdersOnlyOwn(orders: map<Id, Order>, userId: Id, page: Option<Positive>, limit: Option<Positive>)
    requires OrdersWellFormed(orders)
    ensures var r := UserOrders(orders, userId, page, limit);
      && (forall i :: 0 <= i < |r.orders| ==>
            r.orders[i].user == userId && r.orders[i].id in orders && orders[r.orders[i].id] == r.orders[i])
      && (forall i, j :: 0 <= i < j < |r.orders| ==> r.orders[i].createdAt > r.orders[j].createdAt)
  {
    var s := OwnOrders(orders, userId);
    StoredOrdersDistinctCreation(orders, s);
    ListOrdersNewestFirst(s, page, limit);
    var r := UserOrders(orders, userId, page, limit);
    forall i | 0 <= i < |r.orders|
      ensures r.orders[i].user == userId && r.orders[i].id in orders && orders[r.orders[i].id] == r.orders[i]
    {
      var a :| a in orders && orders[a] == r.orders[i];
    }
  }

  /** Every order of the user appears on some page among the first `pages`. */
  lemma UserOrdersComplete(orders: map<Id, Order>, userId: Id, limit: Positive, orderId: Id)
    requires orderId in orders && orders[orderId].user == userId
    ensures var pages := UserOrders(orders, userId, None, Some(limit)).pagination.pages;
      exists page: Positive ::
        (page <= pages && orders[orderId] in UserOrders(orders, userId, Some(page), Some(limit)).orders)
  {
    var s := OwnOrders(orders, userId);
    assert orders[orderId] in s;
    var page := MemberPage(s, OrderCreatedAt, limit, orders[orderId]);
    assert orders[orderId] in UserOrders(orders, userId, Some(page), Some(limit)).orders;
  }

  /** The admin listing with a status lists only stored orders in that
      status, newest first. */
  lemma AllOrdersFilter(orders: map<Id, Order>, page: Option<Positive>, limit: Option<Positive>, status: string)
    requires OrdersWellFormed(orders)
    ensures var r := AllOrders(orders, page, limit, status);
      && (forall i :: 0 <= i < |r.orders| ==>
            r.orders[i] in orders.Values && (status == "" || StatusName(r.orders[i].status) == status))
      && (forall i, j :: 0 <= i < j < |r.orders| ==> r.orders[i].createdAt > r.orders[j].createdAt)
  {
    var s := OrdersWithStatus(orders, status);
    StoredOrdersDistinctCreation(orders, s);
    ListOrdersNewestFirst(s, page, limit);
  }

  /** With no status the admin listing draws on every stored order; a status
      name outside the whitelist matches nothing, so its total is 0. */
  lemma AllOrdersStatusFilter(orders: map<Id, Order>, page: Option<Positive>, limit: Option<Positive>, status: string)
    ensures status == "" ==> OrdersWithStatus(orders, status) == orders.Values
    ensures status != "" && ParseStatus(status).None? ==> AllOrders(orders, page, limit, status).pagination.total == 0
  {
    if status != "" && ParseStatus(status).None? {
      assert OrdersWithStatus(orders, status) == {};
    }
  }
}
