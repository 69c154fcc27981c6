# Product and order management: a Dafny model

This project models the core of a small shop built on Express, MongoDB and
React. It covers the backend services and the request checks:

- the product catalog: create, update, delete, look up, search with
  pagination, and list the categories;
- order placement: the stock loop of `createOrder`;
- the order queries: own orders, all orders, one order;
- the status whitelist;
- the request validators, the authentication middleware and the final error
  handler.

It also covers three pieces of the frontend:

- the checkout cart;
- the catalog page's filter, sort and pager state;
- the keyboard and mouse state machine of the custom select box.

The modules follow the source files:

| module | file | source |
|---|---|---|
| `Common` | common.dfy | shared `Option`, `Result` and the `{ status, message }` error shape |
| `Text` | text.dfy | the JavaScript string operations the code relies on: `trim`, case-insensitive search, `sort()` order, `parseInt`, `split` |
| `Paging` | paging.dfy | skip/limit pagination and newest-first order, shared by products and orders |
| `ProductModel` | product.dfy | backend/src/models/Product.js |
| `ProductService` | product_service.dfy | backend/src/services/productService.js |
| `OrderService` | order_service.dfy | backend/src/services/orderService.js |
| `Validators` | validators.dfy | backend/src/validators/orderValidators.js, aiValidators.js |
| `Auth` | auth.dfy | backend/src/middlewares/authMiddleware.js |
| `ErrorHandler` | error_handler.dfy | backend/src/middlewares/errorHandler.js |
| `Cart` | cart.dfy | frontend/src/pages/CreateOrder.jsx |
| `ProductsPage` | products_page.dfy | frontend/src/pages/Products.jsx |
| `SelectBox` | select.dfy | frontend/src/components/Select.jsx |

## How the model is built

The database is modelled as a state that changes in place:

- A collection is a `map` from id to record, held in a class (`ProductStore`,
  `OrderStore`).
- Each store has a `clock` that hands out creation indices. These indices
  stand for the `createdAt` timestamps that newest-first sorting uses.
- `createOrder` is a method with a `while` loop over the requested lines. The
  loop checks each line and saves the reduced stock through
  `ProductStore.SaveStock`.
- The method is proved against the pure function `OrderService.Run`, which
  processes the same lines one at a time. The lemmas about `Run` state what
  the loop achieves: the total, the price snapshots, the stock taken, and the
  line where it stops.

Listings are specified as functions of the stored set:

- the records that match the filter,
- sorted newest first,
- cut to the `skip`/`limit` window,
- returned with the counts.

Other modelling choices:

- The React pages are classes whose fields are the components' state
  variables. The handlers are methods.
- The Select component is the class `SelectBox.Select`.
- Prices are integer cents. Quantities and stock are integers.
- An error is `AppError(status, message)`. Status 0 stands for an error that
  carries no `status` property.

Two things in the source needed a decision:

- backend/src/services/productService.js still holds unresolved merge-conflict
  markers. Both sides of each conflict behave the same way, and the model
  follows that shared behaviour.
- Mongoose schema validation errors reach the error handler without a status.
  So a product that breaks its schema is answered with 500, not 400.
  `ProductModel.ValidationFailed` carries status 0 for this reason.

## Model

| member | source | states |
|---|---|---|
| Text.Trim | backend/src/models/Product.js:5-10 | the trimmed text has no white space at either end; it is empty exactly when the input is all white space |
| Text.TrimIsSlice | backend/src/models/Product.js:5-10 | what trimming keeps is a slice of the input, with only white space cut off before and after it |
| Text.TrimFixedPoints | backend/src/validators/orderValidators.js:18-33 | trimming leaves exactly the already-trimmed strings unchanged, so a second trim changes nothing |
| Text.ContainsIff | backend/src/services/productService.js:77-80 | substring search answers true exactly when the search text occurs at some position |
| Text.StrLtTransitive | backend/src/services/productService.js:146 | the character order that stands for `sort()`'s string comparison is transitive |
| Text.StrLtTotal | backend/src/services/productService.js:146 | any two different strings are ordered one way or the other |
| Text.ParseInt | frontend/src/pages/CreateOrder.jsx:148 | `parseInt` on text without a hexadecimal prefix gives no number exactly when no decimal digit follows the leading white space and sign |
| Text.ParseIntRoundTrip | frontend/src/pages/CreateOrder.jsx:148 | reading back the decimal text of any integer gives that integer, even when non-digit text follows |
| Text.Split | backend/src/middlewares/authMiddleware.js:12 | splitting gives at least one field, and no field contains the separator |
| Text.JoinSplit | backend/src/middlewares/authMiddleware.js:12 | joining the fields with the separator gives back the original header |
| Text.SplitSecondField | backend/src/middlewares/authMiddleware.js:12 | the second field is the text between the first and the second separator |
| Paging.PageCount | backend/src/services/productService.js:118 | the page count covers the total, one page fewer would not, and it is 0 exactly for an empty result |
| Paging.Window | backend/src/services/productService.js:101-104 | skip/limit returns at most `limit` entries: the ones starting at position `skip`, in order |
| Paging.Paginate | backend/src/services/productService.js:114-119 | the pagination object echoes the page, limit and total, and its page count covers the total |
| Paging.PageBeyondLastIsEmpty | backend/src/services/productService.js:97-104 | a page after the last one is empty, not an error |
| Paging.EveryEntryOnOnePage | backend/src/services/productService.js:97-104 | every entry of an ordered result lies on exactly one page, which is `i / limit + 1` |
| Paging.EveryMemberListed | backend/src/services/orderService.js:59-66 | every member of a listed set appears on some page among the first `pages` |
| Paging.WindowKeepsOrder | backend/src/services/productService.js:101-104 | a window of a strictly ordered result keeps that strict order |
| Paging.NewestFirst | backend/src/services/productService.js:102 | the newest-first ordering holds each element of the set exactly once, in non-increasing key order |
| Paging.NewestFirstStrict | backend/src/services/orderService.js:64 | with distinct creation keys the newest-first order is strict |
| ProductModel.NewProduct | backend/src/models/Product.js:3-13 | creation succeeds exactly when the required texts are non-blank and price and stock are not negative; texts are trimmed, stock defaults to 0, image to "" |
| ProductModel.ApplyUpdate | backend/src/services/productService.js:33-41 | supplied fields are replaced (texts trimmed), undefined ones kept; id and creation time stay; a conforming record stays conforming |
| ProductService.WellFormedInsert | backend/src/models/Product.js:3-13 | storing a new conforming product with the newest creation index keeps the table well formed |
| ProductService.WellFormedReplace | backend/src/services/productService.js:33-41 | replacing a record with a conforming one of the same creation time keeps the table well formed |
| ProductService.WellFormedRemove | backend/src/services/productService.js:56-57 | removing a record keeps the table well formed |
| ProductService.ProductStore.Create | backend/src/services/productService.js:20-30 | on success the new record is stored under the fresh id and the clock advances; on failure nothing changes |
| ProductService.ProductStore.Insert | backend/src/services/productService.js:21-28 | saving a new conforming record stamped with the clock stores it under its id and advances the clock |
| ProductService.ProductStore.Update | backend/src/services/productService.js:33-50 | an invalid field fails without change; an unknown id fails with 404; otherwise the record becomes the updated one and is returned |
| ProductService.ProductStore.SaveStock | backend/src/services/orderService.js:40-41 | saving a stock change replaces only that product's stock |
| ProductService.ProductStore.Delete | backend/src/services/productService.js:56-64 | an unknown id fails with 404 and changes nothing; otherwise exactly that record is removed and returned |
| ProductService.FindProduct | backend/src/services/productService.js:130-138 | lookup fails with 404 exactly when the id is not stored, and otherwise returns the stored record |
| ProductService.ListProducts | backend/src/services/productService.js:68-119 | a listing holds at most `limit` products, each a stored product that matches the search and category, and its total counts every match |
| ProductService.ListProductsCounts | backend/src/services/productService.js:105-119 | a listing holds at most `limit` products; its total counts all matches; its page count covers the total |
| ProductService.ListProductsMatch | backend/src/services/productService.js:68-106 | every listed product is a stored product, under its own id, that matches the search and category |
| ProductService.ListProductsNewestFirst | backend/src/services/productService.js:101-104 | a listed page is in strictly decreasing creation order |
| ProductService.ListProductsPastEnd | backend/src/services/productService.js:97-104 | a page after the last one lists no products |
| ProductService.ListProductsComplete | backend/src/services/productService.js:101-119 | every stored product that matches appears on some page among the first `pages` |
| ProductService.SearchMatchesOccurrence | backend/src/services/productService.js:77-80 | a search matches a product exactly when the text occurs, ignoring case, in its name or its description |
| ProductService.SortedStrings | backend/src/services/productService.js:146 | sorting distinct strings gives each exactly once, in strictly increasing character order |
| ProductService.Categories | backend/src/services/productService.js:144-147 | the categories come in strictly increasing character order, so none is listed twice |
| ProductService.CategoriesExactlyOnce | backend/src/services/productService.js:144-147 | every category in use is listed exactly once, and nothing else is listed |
| ProductService.CategoriesCaseSensitive | backend/src/services/productService.js:146 | the order is by character code: "Books" sorts before "electronics" |
| OrderService.StatusName | backend/src/services/orderService.js:135 | every status has one of the five whitelisted names |
| OrderService.ParseStatus | backend/src/services/orderService.js:135-140 | a name is accepted exactly when it is on the whitelist, and it names the status it parses to |
| OrderService.StatusRoundTrip | backend/src/services/orderService.js:135 | names and statuses correspond one to one |
| OrderService.LineCheck | backend/src/services/orderService.js:17-28 | a line passes exactly when its product exists with enough stock; otherwise it fails with 404 "Product … not found" or 400 "Insufficient stock for …" |
| OrderService.Run | backend/src/services/orderService.js:12-42 | a completed run records one line per requested line; a run stops only at some line, with a 404 or 400 error |
| OrderService.ItemsTotal | backend/src/services/orderService.js:30-31 | with quantities and prices that are not negative, the total is not negative |
| OrderService.RunTotal | backend/src/services/orderService.js:30-31 | the order total is the sum of price times quantity over the recorded lines |
| OrderService.RunSnapshots | backend/src/services/orderService.js:33-37 | a completed run records one line per requested line, in order, at the price the product had when the run began |
| OrderService.RunStock | backend/src/services/orderService.js:40-41 | a completed run takes from each product exactly the sum of the quantities requested for it, and no product appears or disappears |
| OrderService.RunStockLevels | backend/src/services/orderService.js:40-41 | a completed run lowers each product's stock by the sum of the quantities naming it |
| OrderService.RunKeepsFields | backend/src/services/orderService.js:40-41 | a run adds or removes no product and changes nothing but stock |
| OrderService.RunStockNonNegative | backend/src/services/orderService.js:24-41 | a run never takes a stock below zero, because a line is only taken when its stock covers it |
| OrderService.RunKeepsWellFormed | backend/src/services/orderService.js:24-41 | every product table a run passes through is well formed |
| OrderService.StockCoversRequests | backend/src/services/orderService.js:24-28 | when an order completes, the lines naming one product together never ask for more than its stock |
| OrderService.RunStopped | backend/src/services/orderService.js:16-28 | a stopped run stopped at some line whose check fails, after the lines before it completed with the stock saved so far |
| OrderService.TwoOrdersOnOneProduct | backend/src/services/orderService.js:24-41 | with stock 5, an order of 3 leaves 2, and a following order of 4 is refused |
| OrderService.RepeatedProductStopsPartWay | backend/src/services/orderService.js:24-41 | two lines of one product, 3 and 3 against stock 5, fail on the second line, with the first line's stock (5 - 3 = 2) already saved |
| OrderService.TakeStock | backend/src/services/orderService.js:12-42 | the loop over the requested lines ends exactly as the stock run does: the first failing line's error with the stock the earlier lines left, or the recorded lines and their total with every line's stock taken |
| OrderService.OrderStore.CreateOrder | backend/src/services/orderService.js:5-55 | a missing or empty item list fails with 400 and changes nothing; otherwise the outcome, product table, order and total are those of the stock loop, and the order starts as pending |
| OrderService.OrderStore.UpdateStatus | backend/src/services/orderService.js:134-157 | a name off the whitelist fails with 400; an unknown order with 404; otherwise only the status changes |
| OrderService.OrderById | backend/src/services/orderService.js:82-101 | an order is returned exactly when it exists and the requester is an admin or its owner; else 404 or 403 |
| OrderService.ListOrders | backend/src/services/orderService.js:59-78 | a listing holds at most `limit` orders, each one of the matches, and its total counts every match |
| OrderService.ListOrdersCounts | backend/src/services/orderService.js:70-78 | an order listing holds at most `limit` orders, its total counts all matches, its page count covers the total |
| OrderService.ListOrdersNewestFirst | backend/src/services/orderService.js:61-66 | with distinct creation indices, a listed page is in strictly decreasing creation order |
| OrderService.UserOrders | backend/src/services/orderService.js:58-78 | a user's listing holds only stored orders of that user, and its total counts all of that user's orders |
| OrderService.UserOrdersOnlyOwn | backend/src/services/orderService.js:62-67 | a user's listing holds only stored orders of that user, newest first |
| OrderService.UserOrdersComplete | backend/src/services/orderService.js:58-78 | every order of the user appears on some page among the first `pages` |
| OrderService.AllOrders | backend/src/services/orderService.js:104-119 | the admin listing holds only stored orders, in the requested status when one is given, and its total counts every such order |
| OrderService.AllOrdersFilter | backend/src/services/orderService.js:104-119 | the admin listing holds only stored orders, in the requested status when one is given, newest first |
| OrderService.AllOrdersStatusFilter | backend/src/services/orderService.js:104-119 | an empty status draws on every stored order; a name off the whitelist matches none, so the total is 0 |
| Validators.MongoIdShape | backend/src/validators/orderValidators.js:8-12 | 24 hex digits pass the object-id check, and nothing of another length does |
| Validators.IntegerQuantityCheck | backend/src/validators/orderValidators.js:13-17 | a JSON integer passes the quantity check exactly when it is at least 1 |
| Validators.PerItem | backend/src/validators/orderValidators.js:8-17 | a wildcard validator adds its message once per rejected item, in item order, and adds none exactly when no item is rejected |
| Validators.ProductIdErrors | backend/src/validators/orderValidators.js:8-12 | the product-id chain only reports "Product ID is required for each item" and "Invalid product ID format" |
| Validators.QuantityErrors | backend/src/validators/orderValidators.js:13-17 | the quantity chain only reports "Quantity is required for each item" and "Quantity must be at least 1" |
| Validators.ProductIdErrorsEmpty | backend/src/validators/orderValidators.js:8-12 | the product-id chain adds no message exactly when every item's id is an object id |
| Validators.QuantityErrorsEmpty | backend/src/validators/orderValidators.js:13-17 | the quantity chain adds no message exactly when every item's quantity is an integer of at least 1 |
| Validators.ProductIdMessagesByValidator | backend/src/validators/orderValidators.js:8-12 | the chain runs validator by validator: every "required" message comes before every "invalid format" message, whatever the item order |
| Validators.ProductIdMessagesExample | backend/src/validators/orderValidators.js:8-12 | items with ids "abc" then "" give "required" (for the second item), then "invalid format" twice |
| Validators.Required | backend/src/validators/orderValidators.js:18-33 | a required field adds its message exactly when its trimmed text is empty |
| Validators.AddressErrors | backend/src/validators/orderValidators.js:18-33 | the address chains add at most four messages, each one of the four address messages |
| Validators.CreateOrderFirstMessage | backend/src/validators/orderValidators.js:5-12 | the first message is "Order must have at least one item" exactly when the item list is missing or empty |
| Validators.CreateOrderAccepted | backend/src/validators/orderValidators.js:5-33 | a create-order body passes exactly when it has items, all ids and quantities pass, and every address field is non-blank |
| Validators.SanitizedAddress | backend/src/validators/orderValidators.js:18-33 | the address passed on is trimmed, and for an accepted body no field is empty |
| Validators.ValidatedOrderHasItems | backend/src/validators/orderValidators.js:5-7 | a body that passes always carries at least one item |
| Validators.UpdateStatusErrors | backend/src/validators/orderValidators.js:37-43 | at most two messages, and none exactly when the status is one of the five whitelisted names |
| Validators.UpdateStatusAgreesWithService | backend/src/validators/orderValidators.js:37-43 | a status passes exactly when the service's whitelist accepts it; an empty one gets both messages |
| Validators.AiQueryErrors | backend/src/validators/aiValidators.js:5-14 | at most three messages; a query passes exactly when the trimmed question has 5 to 500 characters and a product id that is not left out (null included) is an object id |
| Validators.OptionalSkipsOnlyAbsent | backend/src/validators/aiValidators.js:11-14 | `optional()` skips only a product id that is left out; a null one is checked as the empty string and draws "Invalid product ID format" |
| Validators.AiQueryBlankQuestion | backend/src/validators/aiValidators.js:5-10 | a question of only white space gets both question messages |
| Auth.BearerToken | backend/src/middlewares/authMiddleware.js:8-12 | there is a token exactly when the header starts with "Bearer "; it is the text after that up to the next space |
| Auth.BearerEmptyToken | backend/src/middlewares/authMiddleware.js:8-12 | nothing after the scheme, or a second space right after it, leaves an empty token rather than none |
| Auth.BearerTokenEmpty | backend/src/middlewares/authMiddleware.js:8-12 | every header that starts with the scheme and ends there, or has a second space right after it, carries the empty token |
| Auth.BearerTokenIsRest | backend/src/middlewares/authMiddleware.js:8-12 | every header that starts with the scheme and has no further space carries the whole rest of the header as its token |
| Auth.BearerRejected | backend/src/middlewares/authMiddleware.js:8-12 | the scheme is case-sensitive and needs its space, and a missing header has no token |
| Auth.Authentication | backend/src/middlewares/authMiddleware.js:5-25 | the request proceeds exactly when the token verifies to a stored user; otherwise 401 with "Missing token", "Invalid or expired token" or "User not found" |
| Auth.RoleCheck | backend/src/middlewares/authMiddleware.js:28-35 | the request proceeds exactly when there is a user with the required role; otherwise 403 |
| Auth.AdminGate | backend/src/middlewares/authMiddleware.js:5-35 | an admin route is reached exactly when the token verifies to a stored user whose role is "admin" |
| Auth.Exchange.Authenticate | backend/src/middlewares/authMiddleware.js:5-25 | on success the user is attached and `next` runs once; on failure the 401 reply is sent and `next` does not run |
| Auth.Exchange.AuthorizeRole | backend/src/middlewares/authMiddleware.js:28-35 | with the role, `next` runs once; without it, the 403 reply is sent; the user is untouched |
| Auth.AdminRoute | backend/src/middlewares/authMiddleware.js:5-35 | the two middlewares in sequence let a request through exactly as the admin gate says, and leave a reply exactly when they do not |
| ErrorHandler.Handle | backend/src/middlewares/errorHandler.js:1-11 | the reply status is the error's own or 500; the message is its own or "Internal server error"; success is false; the stack is present exactly in development |
| ErrorHandler.ServiceErrorsReachClient | backend/src/middlewares/errorHandler.js:2-3 | the services' errors keep their 404, 403 and 400 statuses and messages; a schema validation failure becomes 500 |
| Cart.AddLine | frontend/src/pages/CreateOrder.jsx:35-45 | the product has a line afterwards; a product not yet in the cart gets one new line at the end with the given quantity |
| Cart.RemoveLine | frontend/src/pages/CreateOrder.jsx:53-55 | the product has no line afterwards, and every other line is kept |
| Cart.SetQuantity | frontend/src/pages/CreateOrder.jsx:62-66 | the cart keeps its length and the product of every line |
| Cart.WithQuantity | frontend/src/pages/CreateOrder.jsx:57-67 | a quantity of zero or less removes the line; otherwise the quantity is set |
| Cart.QuantityFromInput | frontend/src/pages/CreateOrder.jsx:145-149 | the quantity is the parsed integer, or 1 when parsing fails or gives 0 |
| Cart.QuantityInputCases | frontend/src/pages/CreateOrder.jsx:145-149 | typing the decimal text of a non-zero integer gives that integer; typing 0 or clearing the field gives 1 |
| Cart.AddToExistingLine | frontend/src/pages/CreateOrder.jsx:36-43 | adding to a product already in the cart changes exactly that line's quantity |
| Cart.SetQuantityOneLine | frontend/src/pages/CreateOrder.jsx:62-66 | setting a quantity changes exactly the product's one line |
| Cart.RemoveAbsent | frontend/src/pages/CreateOrder.jsx:53-55 | removing a product with no line leaves the cart as it is |
| Cart.RemoveAt | frontend/src/pages/CreateOrder.jsx:53-55 | removing the product of line `k` takes out exactly that line |
| Cart.RemoveKeepsUnique | frontend/src/pages/CreateOrder.jsx:53-55 | removal keeps one line per product |
| Cart.CartOperationsKeepUnique | frontend/src/pages/CreateOrder.jsx:30-67 | adding, removing and setting quantities all keep one line per product |
| Cart.CartTotalNonNegative | frontend/src/pages/CreateOrder.jsx:69-74 | with positive quantities and prices that are not negative, the total is not negative |
| Cart.CartTotalAppend | frontend/src/pages/CreateOrder.jsx:69-74 | the total of two carts joined is the sum of their totals |
| Cart.CartTotalUpdate | frontend/src/pages/CreateOrder.jsx:69-74 | changing one line changes the total by the difference of the two lines' contributions |
| Cart.AddLineTotal | frontend/src/pages/CreateOrder.jsx:30-74 | adding a quantity of a known product raises the total by price times that quantity |
| Cart.SetQuantityTotal | frontend/src/pages/CreateOrder.jsx:57-74 | setting a line's quantity replaces its contribution by the new one |
| Cart.RemoveLineTotal | frontend/src/pages/CreateOrder.jsx:53-74 | removing a line takes its contribution off the total |
| Cart.UnknownLinesAddNothing | frontend/src/pages/CreateOrder.jsx:69-74 | lines of products not yet fetched add nothing to the total |
| Cart.CheckoutPage.AddToCart | frontend/src/pages/CreateOrder.jsx:30-51 | a fetched product is added to the cart and remembered; a failed fetch only sets the error message |
| Cart.CheckoutPage.RemoveFromCart | frontend/src/pages/CreateOrder.jsx:53-55 | the cart loses the product's line and keeps one line per product |
| Cart.CheckoutPage.UpdateQuantity | frontend/src/pages/CreateOrder.jsx:57-67 | the cart becomes the one with the quantity set or the line removed |
| Cart.CheckoutPage.QuantityChanged | frontend/src/pages/CreateOrder.jsx:145-149 | typing in the quantity field sets the quantity read from the text |
| ProductsPage.PageWindow | frontend/src/pages/Products.jsx:101-111 | the strip shows at most five page numbers, each an existing page |
| ProductsPage.PageNumbers | frontend/src/pages/Products.jsx:101-111 | the loop builds exactly the page strip: none for one page, else the pages from `page - 2` to `page + 2` clipped to the existing ones |
| ProductsPage.PageWindowShape | frontend/src/pages/Products.jsx:101-111 | the strip holds at most five pages, each existing, ascending by one; for an existing current page it holds exactly the existing pages within two of it |
| ProductsPage.PageWindowExamples | frontend/src/pages/Products.jsx:101-111 | page 1 of 10 shows pages 1 to 3, and page 6 of 10 shows pages 4 to 8 |
| ProductsPage.Params | frontend/src/pages/Products.jsx:41-43 | the request always carries the page and limit 10; search and category only when non-empty |
| ProductsPage.ParamsCarryFilters | frontend/src/pages/Products.jsx:41-43 | the server reads back exactly the page's search and category |
| ProductsPage.SortWith | frontend/src/pages/Products.jsx:85-99 | sorting gives a permutation of the fetched page |
| ProductsPage.SortSorted | frontend/src/pages/Products.jsx:85-99 | sorting with a comparator on an integer key orders by that key |
| ProductsPage.SortedProducts | frontend/src/pages/Products.jsx:85-99 | the sorted page is a permutation of the fetched page; it is ascending by price for price-low, descending for price-high, and unchanged for featured |
| ProductsPage.CatalogPage.Query | frontend/src/pages/Products.jsx:37-53 | the request carries the current page, limit 10, and exactly the search and category the page holds |
| ProductsPage.CatalogPage.HandleSearch | frontend/src/pages/Products.jsx:55-58 | a new search text goes back to page 1 |
| ProductsPage.CatalogPage.HandleCategoryChange | frontend/src/pages/Products.jsx:60-63 | a new category goes back to page 1 |
| ProductsPage.CatalogPage.SetSortBy | frontend/src/pages/Products.jsx:195 | only the sort order changes |
| ProductsPage.CatalogPage.ClearFilters | frontend/src/pages/Products.jsx:78-83 | everything returns to its initial value, after which Reset is disabled |
| ProductsPage.CatalogPage.ClearSearch | frontend/src/pages/Products.jsx:151-155 | the search is cleared and the page goes back to 1 |
| ProductsPage.CatalogPage.GoToPage | frontend/src/pages/Products.jsx:258 | a page-number button moves to that page |
| ProductsPage.CatalogPage.Previous | frontend/src/pages/Products.jsx:248-249 | Previous moves one page back, and does nothing on page 1 |
| ProductsPage.CatalogPage.Next | frontend/src/pages/Products.jsx:245-272 | shown only when the stored pagination reports more than one page; moves one page on, and does nothing on the last page the stored pagination reports |
| ProductsPage.CatalogPage.ReceiveProducts | frontend/src/pages/Products.jsx:37-53 | a success replaces the products and pagination; a failure sets "Failed to load products" |
| SelectBox.SelectedIndex | frontend/src/components/Select.jsx:23-27 | the first option holding the value, or -1 exactly when none does |
| SelectBox.ShownChoice | frontend/src/components/Select.jsx:23-27 | the trigger shows the selected option, or a placeholder with value "" |
| SelectBox.HighlightFor | frontend/src/components/Select.jsx:29-31 | the highlight is on an option holding the value, or on 0 when none does |
| SelectBox.KeyStep | frontend/src/components/Select.jsx:85-131 | disabled ignores keys; arrows open and keep the highlight in range; Home and End jump to the ends; Escape closes; Enter and Space open the list or pick the highlighted option; other keys do nothing |
| SelectBox.ArrowsUndoEachOther | frontend/src/components/Select.jsx:89-99 | away from the ends, ArrowDown and ArrowUp undo each other |
| SelectBox.ArrowsStopAtEnds | frontend/src/components/Select.jsx:89-99 | the highlight sticks at the first and the last option |
| SelectBox.PressDownReaches | frontend/src/components/Select.jsx:89-93 | pressing ArrowDown `k` times from `h` highlights option `min(h + k, n - 1)` |
| SelectBox.Select.constructor | frontend/src/components/Select.jsx:29-31 | a new select box is closed, with the highlight from the selection effect |
| SelectBox.Select.ReceiveValue | frontend/src/components/Select.jsx:29-31 | a new value moves the highlight only when the selected index changes |
| SelectBox.Select.HandleSelect | frontend/src/components/Select.jsx:78-83 | the choice is reported only when it differs from the current value, and the list closes either way |
| SelectBox.Select.HandleKeyDown | frontend/src/components/Select.jsx:85-131 | the new state is the one the key step gives, and a pick is reported as a selection |
| SelectBox.Select.ToggleClick | frontend/src/components/Select.jsx:142 | a click toggles the list, unless the select box is disabled |
| SelectBox.Select.MouseEnter | frontend/src/components/Select.jsx:191 | the pointer highlights the option it enters |
| SelectBox.Select.OptionClick | frontend/src/components/Select.jsx:192 | clicking an option selects it |

## Left out

- Order.js and User.js are not part of this model. The Order and User
  schemas are left out, and with them the checks `Order.create` runs and the
  `populate` steps that attach product and user documents to an order.
- productValidators.js is not part of this model. Product fields reach the
  services unchecked except by the schema.
- Concurrency is left out. The model runs one request at a time, so two
  requests that interleave cannot lose a stock update.
- A failed `createOrder` keeps the stock already saved for earlier lines,
  as the source does. The model has no transactions to roll them back.
- OrderService.OrderById: answers 403 to a non-admin when the order's owner
  no longer exists. The source populates the owner, gets null, and fails
  with a TypeError reading `order.user._id`, which the error handler turns
  into 500. Deleted users are not modelled.
- ProductModel.NewProduct: a schema failure is the fixed error
  "Product validation failed" with no status. Mongoose appends the failing
  paths and their messages (": name: Path `name` is required."), which are
  not modelled; only the prefix and the resulting 500 are claimed.
- ProductService.ProductStore.Create: fails with the error of
  ProductModel.NewProduct, so its message carries the same prefix and lacks
  the list of failing paths.
- ProductService.ProductStore.Update: fails with the fixed error
  "Validation failed". Mongoose's update validators append the failing
  paths and their messages, which are not modelled.
- Malformed ids are left out. MongoDB raises a cast error for an id that is
  not 24 hex digits. Here such an id is simply not found.
- Page and limit values below 1 are left out; `page` and `limit` are
  positive integers that default to 1 and 10. A page of 0 or less gives a
  negative skip, which the database rejects. A limit of 0 means no limit to
  the database, and the page count becomes `total / 0`: Infinity, or NaN
  when nothing matches.
- Search is modelled as a literal substring match with ASCII case folding.
  The source passes the text to MongoDB as a regular expression with the
  `i` option, so regular-expression syntax and Unicode case folding are not
  captured.
- Prices, stock and quantities are integers. Floating-point arithmetic in
  totals is left out.
- JSON numbers that are not integers, and integers of 10^21 or more (which
  JavaScript prints in exponent form), are left out of the validators.
- Text.ParseInt: reads decimal digits only. JavaScript's `parseInt`
  without a radix reads text starting with "0x" or "0X" (after the sign) as
  hexadecimal: "0x1A" gives 26 and "0xg" gives NaN. The quantity field is a
  number input, whose value holds no such text.
- ProductService.SortedStrings: orders strings by code point. JavaScript's
  `sort()` compares UTF-16 code units, which disagree with code points only
  between characters above U+FFFF and characters from U+E000 to U+FFFF.
  Text.StrLt and ProductService.Categories share this order.
- Validators.AiQueryErrors: counts characters as Dafny `char`s. The
  length check of the validator library counts code points and, in newer
  versions, ignores variation selectors.
- Validators.AiQueryErrors: a field holds nothing, null, a string or an
  integer. Booleans (checked as "true" or "false"), objects and arrays as
  field values are not modelled, here or in Validators.CreateOrderErrors and
  Validators.UpdateStatusErrors.
- Validators.CreateOrderErrors: an `items` value that is not an array is
  modelled as missing. The source also runs the per-item chains over the
  values of an `items` object, which may add item messages after
  "Order must have at least one item".
- JWT signing and verification are left out. They are a function from
  token to user id. The user lookup is a map.
- A lookup that throws inside `authenticate` is left out. It ends in
  "Invalid or expired token", as a failed verification does.
- Console logging is left out. So are the loading flags and the network
  calls of the pages, which become parameters carrying the response.
- The `name-asc` and `name-desc` sorts use `localeCompare`, which is a
  parameter here.
- ProductsPage.SortedProducts: proves only that the name sorts give a
  permutation of the page, because locale order is not modelled.
- The React effects that seed the cart from navigation state and that fetch
  data on mount are left out.
- Select box rendering is left out: positioning, scrolling the highlighted
  option into view, and closing on a click outside.
- SelectBox.Select: the options and the disabled flag are fixed when the
  select box is created. A parent that passes new options is not modelled.
- The AI service, the auth routes, token generation and admin seeding are
  outside the modelled core.
- Server start-up, database connection, environment loading, routes,
  controllers and the `validateRequest` wrapper are left out. The wrapper
  answers 400 "Validation failed" whenever a validator reported a message.
