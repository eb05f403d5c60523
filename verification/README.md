# Cart and stock bookkeeping of an e-commerce backend

This is a Dafny model of the product routes of a small REST backend for a shop. Its core is
four cart handlers: add-to-cart, increase-cart, decrease-cart and remove-from-cart. Each one
changes two records in step:

- the user's cart, which maps a product id to a quantity and also carries two aggregate
  fields, `count` and `total`;
- the product's `stocks` counter.

add-to-cart, increase-cart and remove-from-cart each check a guard: the product exists, there
is enough stock, or the item is in the cart. A failed guard answers with an error before
anything is written. decrease-cart checks no guard at all. decrease-cart and remove-from-cart
fail on a missing product only after the cart has been saved, when they read the product's
`stocks`. Otherwise each handler updates the cart entry, `count`, `total` and `stocks` with
integer arithmetic.

Files:

- `cart.dfy` (module `Cart`) holds the model of the handlers.
  - `Add`, `Increase`, `Decrease` and `Remove` are pure functions. Each maps the pair of records
    (`Shop`) and a request to a status and the records afterwards (`Reply`).
  - Class `Store` holds the records as fields. Its methods `AddToCart`, `IncreaseCart`,
    `DecreaseCart` and `RemoveFromCart` change those fields in place, in the order the handlers
    do. Each method is proved to leave exactly the state the matching function describes.
  - The lemmas show three things. Each handler keeps the bookkeeping invariant `Valid`:
    `count` is the sum of the quantities, `total` is their value at the prices the callers
    pass, and, with this one cart drawing on the stock table, neither a stock nor a
    product's units in the cart plus on the shelf go below zero. Each successful handler keeps
    "units in the cart plus units in stock" constant for its product. And add/remove and
    increase/decrease undo each other.
- `tally.dfy` (module `Tally`) defines the weighted sums over a cart and the lemmas that say
  how a sum changes when one entry changes.
- `catalog.dfy` (module `Catalog`) holds the category listing, where `"all"` means no filter,
  and the admin check in front of a product delete.

Where the code behaves differently from what a shop backend is usually expected to do, the
model follows the code:

- decrease-cart and remove-from-cart save the cart before they read the product's `stocks`.
  When the product does not exist, the cart change is already stored when the handler fails.
  `Decrease` and `Remove` return `Failed(MissingProduct)` together with that changed cart.
  They do not claim that a failure writes nothing.
- remove-from-cart tests the entry for JavaScript falsiness. A zero entry is refused as "not in
  cart", just like a missing one. A negative entry is accepted.
- add-to-cart with quantity 0 creates a zero entry that remove-from-cart then refuses
  (`AddZeroThenRemove`).
- increase-cart reads `stocks` of a missing product before any write, so it fails with no
  change.

## Model

| member | source | states |
|---|---|---|
| `Cart.Add` | routes/productRoutes.js:113-152 | Succeeds exactly when the product exists and `quantity <= stocks`. A missing product gives ProductNotFound and an over-large quantity gives InsufficientStock, each with the records unchanged. On success the entry becomes the old entry (or 0) plus `quantity`, `count` grows by `quantity`, `total` by `quantity*price`, and the stock left is at least 0. Cart-plus-stock for the product is conserved and no other product's entry or stock changes. |
| `Cart.Increase` | routes/productRoutes.js:156-184 | Succeeds exactly when the product exists with `stocks >= 1`. Otherwise it fails (NoStockAvailable, or MissingProduct when the product record is absent) with no change. On success (where an entry must exist) the entry and `count` go up by 1, `total` by `price`, and the stock stays at least 0. Cart-plus-stock is conserved and other products are untouched. |
| `Cart.Decrease` | routes/productRoutes.js:188-210 | No guard: the entry and `count` always drop by 1 and `total` by `price`, even below zero. It succeeds exactly when the product exists, and then cart-plus-stock is conserved. A missing product gives MissingProduct with the cart change kept and the stock table unchanged. Other products are untouched. |
| `Cart.Remove` | routes/productRoutes.js:212-240 | Refuses with NotInCart, changing nothing, exactly when the entry is absent or 0. Otherwise it deletes the key, lowers `count` by the entry `q` and `total` by `q*price`, and leaves other products untouched. It succeeds exactly when the product exists, and then the stock regains `q` (cart-plus-stock conserved). When the entry is nonzero and the product is missing, the status is MissingProduct, the cart change is kept and the stock table is unchanged. |
| `Cart.Store.AddToCart` | routes/productRoutes.js:117-146 | The in-place update leaves the status and the fields that `Cart.Add` gives for the old fields. A failure changes no field. |
| `Cart.Store.IncreaseCart` | routes/productRoutes.js:159-178 | The in-place update leaves the status and the fields that `Cart.Increase` gives for the old fields. A failure changes no field. |
| `Cart.Store.DecreaseCart` | routes/productRoutes.js:191-204 | The in-place update (cart fields first, then the stock) leaves the status and the fields that `Cart.Decrease` gives for the old fields. |
| `Cart.Store.RemoveFromCart` | routes/productRoutes.js:215-234 | The in-place update leaves the status and the fields that `Cart.Remove` gives for the old fields. A NotInCart refusal changes no field. |
| `Cart.AddKeepsValid` | routes/productRoutes.js:132-145 | add-to-cart at the listed price keeps `count` equal to the sum of the quantities and `total` equal to their value. It also keeps every stock, and every product's units in the cart plus on the shelf, non-negative (for this one cart). |
| `Cart.IncreaseKeepsValid` | routes/productRoutes.js:170-177 | increase-cart at the listed price keeps the same invariant. |
| `Cart.DecreaseKeepsValid` | routes/productRoutes.js:196-203 | decrease-cart keeps the same invariant, even though the entry itself may turn negative. |
| `Cart.RemoveKeepsValid` | routes/productRoutes.js:220-233 | remove-from-cart keeps the same invariant. The stock it leaves equals the product's units in the cart plus on the shelf, which the invariant keeps non-negative (for this one cart). |
| `Cart.AddThenRemove` | routes/productRoutes.js:132-233 | Take a product the cart does not hold, with a nonzero `q <= stocks`. add-to-cart of `q`, then remove-from-cart at the same price, succeeds and restores the records exactly: no entry, same `count`, `total` and `stocks`. |
| `Cart.AddZeroThenRemove` | routes/productRoutes.js:132-224 | For a product the cart does not hold, with stock at least 0: add-to-cart of 0 succeeds and leaves a zero entry. remove-from-cart then refuses that entry as NotInCart, so the round trip does not close for 0. |
| `Cart.IncreaseThenDecrease` | routes/productRoutes.js:170-203 | With an entry for the product and stock at least 1, increase-cart then decrease-cart at the same price both succeed and restore the records exactly. |
| `Cart.DecreaseThenIncrease` | routes/productRoutes.js:170-203 | With an entry for the product and stock at least 0, decrease-cart then increase-cart at the same price both succeed and restore the records exactly. |
| `Cart.SharedStockCanGoNegative` | routes/productRoutes.js:196-233 | With the stock table shared by two carts: user A holds 1 unit with none on the shelf and decreases twice (entry -1, shelf 2), user B adds 2 (passes the stock check, shelf 0), and A's remove of the entry -1 passes the guard and leaves the stock at -1. |
| `Catalog.ByCategory` | routes/productRoutes.js:97-111 | For `"all"` the listing is every product, unchanged. For any other category, each product occurs in the listing as often as in the store if its category equals the requested one exactly, and not at all otherwise. |
| `Catalog.ByCategoryMembers` | routes/productRoutes.js:102-106 | For a category other than `"all"`, a product is listed exactly when it is in the store and carries that category. |
| `Catalog.SelectAppend` | routes/productRoutes.js:105 | Category filtering keeps the store's order: filtering a concatenation equals concatenating the filtered parts. |
| `Catalog.Delete` | routes/productRoutes.js:70-82 | An unknown requester gives UserNotFound and a non-admin gives PermissionDenied, each exactly in that case. An admin gets the list without the products bearing that id (unchanged if there are none), with all others kept. |

## Left out

- HTTP routing, status codes and JSON marshalling: errors are the `Error` values; the 404/400/401 codes appear only in comments.
- Persistence through the document store (`findById`, `save`, `markModified`, `find`, `findByIdAndDelete`): the model updates fields directly.
- Concurrency: two requests that interleave can both pass the stock check. Nothing serializes or rolls back the two writes, and each handler here runs atomically.
- Malformed ids: product ids are plain strings taken as well-formed. In the source a malformed id makes `findById` throw a cast error before any write, so add-to-cart answers 400 there, where the model can only give `ProductNotFound` (404) for an id it does not know.
- A missing user: every handler would throw when it reads `user.cart`. The model has a single user who always exists.
- Floating-point numbers: prices and totals (`Number(price)`) are integers, such as cents, and quantities, counts and stocks are integers too. The source holds all of them as JavaScript numbers, so a fractional quantity passes every guard there, and values above 2^53 lose precision; the model's unbounded `int` captures neither. Request fields are taken as numbers; string-typed bodies and JavaScript's coercions are not modelled.
- Cart.Increase: requires an existing cart entry whenever the product exists with stock at least 1. Without one, the source stores `undefined + 1` (NaN) as the quantity there, which an integer model cannot represent; the failure paths without an entry are covered.
- Cart.Decrease: requires an existing cart entry for the same reason (`undefined - 1` is NaN).
- Cart.Store.IncreaseCart: requires an existing cart entry on the path that passes the stock check, as `Cart.Increase` does.
- Cart.Store.DecreaseCart: requires an existing cart entry, as `Cart.Decrease` does.
- The product list endpoint, create, update and get-one with its similar products (lines 6-94 apart from the delete guard): these only pass calls through to the store.
- Search by regular expression (lines 245-259): regex semantics belong to the JavaScript engine and the store.
- Sorting by `_id`: the listing takes products in the order the store returns them.
- Cart.Valid: its non-negative-stock part holds for a single cart only. The stock table is shared by all users' carts; with several carts, decrease-cart below zero followed by remove-from-cart can drive `stocks` negative even one request at a time (`SharedStockCanGoNegative`). Sums over all carts are not modelled.
- `Cart.Valid` fixes prices through a price list that the callers honour. The source takes the price from each request, so `total` drifts whenever callers pass differing prices. The invariant lemmas assume consistent prices.
