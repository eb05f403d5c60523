/** The cart handlers of the product routes: add-to-cart, increase-cart, decrease-cart and
    remove-from-cart. Each one changes the user's cart (a quantity per product id, plus the
    aggregate `count` and `total`) and the product's `stocks` counter in step.

    Prices are whole numbers (cents); the handlers take them from the request, not from the
    product record. The pure functions Add, Increase, Decrease and Remove say what a handler
    does to the pair of records; class Store carries the records as mutable fields and its
    methods are proved to do exactly what those functions say. */
module Cart {

  import opened Tally

  /** Why a handler answers with an error instead of the updated user. */
  datatype Error =
    | ProductNotFound    // add-to-cart: no product with that id (404 'Product not found')
    | InsufficientStock  // add-to-cart: more requested than in stock (400 'Insufficient stock')
    | NoStockAvailable   // increase-cart: stock below 1 (400 'No stock available')
    | NotInCart          // remove-from-cart: no (or a zero) entry (400 'Product not found in cart')
    | MissingProduct     // reading `stocks` of a product that does not exist throws (400)

  datatype Status = Done | Failed(error: Error)

  /** The user's cart and the stock table, as one value. */
  datatype Shop = Shop(cart: map<ProductId, int>, count: int, total: int, stocks: map<ProductId, int>)

  /** A handler's answer and the records as it leaves them. */
  datatype Reply = Reply(status: Status, shop: Shop)

  /** Units of p in this cart plus units on the shelf: what every successful handler keeps
      constant. */
  function Held(s: Shop, p: ProductId): int
    requires p in s.stocks
  {
    Entry(s.cart, p) + s.stocks[p]
  }

  /** t differs from s at most in p's cart entry and p's stock. */
  predicate OnlyTouches(s: Shop, t: Shop, p: ProductId)
  {
    s.cart - {p} == t.cart - {p} && s.stocks - {p} == t.stocks - {p}
  }

  /** add-to-cart */
  function Add(s: Shop, p: ProductId, price: int, quantity: int): (r: Reply)
    ensures r.status == Done <==> p in s.stocks && quantity <= s.stocks[p]
    ensures p !in s.stocks ==> r == Reply(Failed(ProductNotFound), s)
    ensures p in s.stocks && quantity > s.stocks[p] ==> r == Reply(Failed(InsufficientStock), s)
    ensures r.status == Done ==>
      && p in r.shop.cart && r.shop.cart[p] == Entry(s.cart, p) + quantity
      && r.shop.count == s.count + quantity
      && r.shop.total == s.total + quantity * price
      && p in r.shop.stocks && 0 <= r.shop.stocks[p]
      && Held(r.shop, p) == Held(s, p)
      && OnlyTouches(s, r.shop, p)
  {
    if p !in s.stocks then Reply(Failed(ProductNotFound), s)
    else if quantity > s.stocks[p] then Reply(Failed(InsufficientStock), s)
    else
      Reply(Done, Shop(s.cart[p := Entry(s.cart, p) + quantity],
                       s.count + quantity,
                       s.total + quantity * price,
                       s.stocks[p := s.stocks[p] - quantity]))
  }

  /** increase-cart. The source adds 1 to the existing entry; without one a request that
      passes the stock check would store `undefined + 1`, which is not a number, so an entry
      must be there whenever the stock check passes. */
  function Increase(s: Shop, p: ProductId, price: int): (r: Reply)
    requires p in s.cart || p !in s.stocks || s.stocks[p] < 1
    ensures r.status == Done <==> p in s.stocks && 1 <= s.stocks[p]
    ensures p !in s.stocks ==> r == Reply(Failed(MissingProduct), s)
    ensures p in s.stocks && s.stocks[p] < 1 ==> r == Reply(Failed(NoStockAvailable), s)
    ensures r.status == Done ==>
      && p in r.shop.cart && r.shop.cart[p] == s.cart[p] + 1
      && r.shop.count == s.count + 1
      && r.shop.total == s.total + price
      && p in r.shop.stocks && 0 <= r.shop.stocks[p]
      && Held(r.shop, p) == Held(s, p)
      && OnlyTouches(s, r.shop, p)
  {
    if p !in s.stocks then Reply(Failed(MissingProduct), s)
    else if s.stocks[p] < 1 then Reply(Failed(NoStockAvailable), s)
    else
      Reply(Done, Shop(s.cart[p := s.cart[p] + 1],
                       s.count + 1,
                       s.total + price,
                       s.stocks[p := s.stocks[p] - 1]))
  }

  /** decrease-cart. There is no guard: the entry, `count` and `total` always go down, even
      below zero. The cart is saved before the product's stock is read, so a missing product
      fails only after the cart has changed. */
  function Decrease(s: Shop, p: ProductId, price: int): (r: Reply)
    requires p in s.cart
    ensures r.status == Done <==> p in s.stocks
    ensures r.status == Failed(MissingProduct) <==> p !in s.stocks
    ensures p in r.shop.cart && r.shop.cart[p] == s.cart[p] - 1
    ensures r.shop.count == s.count - 1
    ensures r.shop.total == s.total - price
    ensures p in s.stocks ==> p in r.shop.stocks && Held(r.shop, p) == Held(s, p)
    ensures p !in s.stocks ==> r.shop.stocks == s.stocks
    ensures OnlyTouches(s, r.shop, p)
  {
    var saved := Shop(s.cart[p := s.cart[p] - 1], s.count - 1, s.total - price, s.stocks);
    if p !in s.stocks then Reply(Failed(MissingProduct), saved)
    else Reply(Done, saved.(stocks := s.stocks[p := s.stocks[p] + 1]))
  }

  /** remove-from-cart. An absent or zero entry is rejected before anything is written;
      otherwise the whole entry q goes back to stock. As in Decrease, the cart is saved before
      the product's stock is read. */
  function Remove(s: Shop, p: ProductId, price: int): (r: Reply)
    ensures Entry(s.cart, p) == 0 <==> r == Reply(Failed(NotInCart), s)
    ensures r.status == Done <==> Entry(s.cart, p) != 0 && p in s.stocks
    ensures Entry(s.cart, p) != 0 ==>
      && p !in r.shop.cart
      && r.shop.count == s.count - s.cart[p]
      && r.shop.total == s.total - s.cart[p] * price
      && OnlyTouches(s, r.shop, p)
    ensures r.status == Done ==> p in r.shop.stocks && Held(r.shop, p) == Held(s, p)
    ensures Entry(s.cart, p) != 0 && p !in s.stocks ==>
      r.status == Failed(MissingProduct) && r.shop.stocks == s.stocks
  {
    if Entry(s.cart, p) == 0 then Reply(Failed(NotInCart), s)
    else
      var q := s.cart[p];
      var saved := Shop(s.cart - {p}, s.count - q, s.total - q * price, s.stocks);
      if p !in s.stocks then Reply(Failed(MissingProduct), saved)
      else Reply(Done, saved.(stocks := s.stocks[p := s.stocks[p] + q]))
  }

  // ---------------------------------------------------------------------------------------
  // Invariant: the aggregates agree with the entries, and, as long as this is the only cart
  // drawing on the stock table, stock never runs below zero.

  /** The price of p in a price list the callers honour (0 for an unlisted product). */
  function Price(prices: map<ProductId, int>, p: ProductId): int
  {
    if p in prices then prices[p] else 0
  }

  function PriceOf(prices: map<ProductId, int>): ProductId -> int
  {
    p => Price(prices, p)
  }

  /** `count` is the sum of the quantities, `total` their value at the given prices, and
      for every product both its stock and the units in the cart plus on the shelf are at
      least zero. The last part speaks of this one cart only: the stock table is shared by
      every user's cart, and SharedStockCanGoNegative shows it failing with two carts. */
  ghost predicate Valid(s: Shop, prices: map<ProductId, int>)
  {
    && s.count == Weighted(s.cart, Unit)
    && s.total == Weighted(s.cart, PriceOf(prices))
    && forall p :: p in s.stocks ==> 0 <= s.stocks[p] && 0 <= Held(s, p)
  }

  /** The state of a user who has not shopped yet. */
  lemma EmptyCartValid(stocks: map<ProductId, int>, prices: map<ProductId, int>)
    requires forall p :: p in stocks ==> 0 <= stocks[p]
    ensures Valid(Shop(map[], 0, 0, stocks), prices)
  {
  }

  /** A change to p's entry alone moves `count` and `total` consistently. */
  lemma AggregatesFollow(s: Shop, t: Shop, p: ProductId, prices: map<ProductId, int>)
    requires Valid(s, prices)
    requires p in t.cart ==> t.cart == s.cart[p := t.cart[p]]
    requires p !in t.cart ==> t.cart == s.cart - {p}
    requires p in t.cart ==> t.count == s.count + (t.cart[p] - Entry(s.cart, p))
    requires p in t.cart ==> t.total == s.total + (t.cart[p] - Entry(s.cart, p)) * Price(prices, p)
    requires p !in t.cart ==> t.count == s.count - Entry(s.cart, p)
    requires p !in t.cart ==> t.total == s.total - Entry(s.cart, p) * Price(prices, p)
    ensures t.count == Weighted(t.cart, Unit)
    ensures t.total == Weighted(t.cart, PriceOf(prices))
  {
    if p in t.cart {
      WeightedSet(s.cart, p, t.cart[p], Unit);
      WeightedSet(s.cart, p, t.cart[p], PriceOf(prices));
    } else {
      WeightedDelete(s.cart, p, Unit);
      WeightedDelete(s.cart, p, PriceOf(prices));
    }
  }

  /** Stock, and units in the cart plus on the shelf, stay non-negative when only p changes
      and p's part is fine. */
  lemma StockFollows(s: Shop, t: Shop, p: ProductId, prices: map<ProductId, int>)
    requires Valid(s, prices)
    requires OnlyTouches(s, t, p)
    requires t.stocks.Keys == s.stocks.Keys
    requires p in t.stocks ==> 0 <= t.stocks[p] && 0 <= Held(t, p)
    ensures forall k :: k in t.stocks ==> 0 <= t.stocks[k] && 0 <= Held(t, k)
  {
    forall k | k in t.stocks
      ensures 0 <= t.stocks[k] && 0 <= Held(t, k)
    {
      if k != p {
        assert k in s.stocks - {p} && (s.stocks - {p})[k] == (t.stocks - {p})[k];
        assert k in s.cart - {p} <==> k in t.cart - {p};
        if k in s.cart {
          assert (s.cart - {p})[k] == (t.cart - {p})[k];
        }
      }
    }
  }

  /** add-to-cart at the listed price keeps the invariant. */
  lemma AddKeepsValid(s: Shop, p: ProductId, quantity: int, prices: map<ProductId, int>)
    requires Valid(s, prices)
    ensures Valid(Add(s, p, Price(prices, p), quantity).shop, prices)
  {
    var t := Add(s, p, Price(prices, p), quantity).shop;
    if t != s {
      AggregatesFollow(s, t, p, prices);
      StockFollows(s, t, p, prices);
    }
  }

  /** increase-cart at the listed price keeps the invariant. */
  lemma IncreaseKeepsValid(s: Shop, p: ProductId, prices: map<ProductId, int>)
    requires Valid(s, prices)
    requires p in s.cart || p !in s.stocks || s.stocks[p] < 1
    ensures Valid(Increase(s, p, Price(prices, p)).shop, prices)
  {
    var t := Increase(s, p, Price(prices, p)).shop;
    if t != s {
      AggregatesFollow(s, t, p, prices);
      StockFollows(s, t, p, prices);
    }
  }

  /** decrease-cart at the listed price keeps the invariant (units in the cart plus on the shelf are conserved, so
      the stock only grows; the entry itself may go negative). */
  lemma DecreaseKeepsValid(s: Shop, p: ProductId, prices: map<ProductId, int>)
    requires Valid(s, prices)
    requires p in s.cart
    ensures Valid(Decrease(s, p, Price(prices, p)).shop, prices)
  {
    var t := Decrease(s, p, Price(prices, p)).shop;
    AggregatesFollow(s, t, p, prices);
    StockFollows(s, t, p, prices);
  }

  /** remove-from-cart at the listed price keeps the invariant: the stock it leaves is the
      number of units in the cart plus on the shelf, which Valid keeps non-negative even after
      a negative entry. */
  lemma RemoveKeepsValid(s: Shop, p: ProductId, prices: map<ProductId, int>)
    requires Valid(s, prices)
    ensures Valid(Remove(s, p, Price(prices, p)).shop, prices)
  {
    var t := Remove(s, p, Price(prices, p)).shop;
    if t != s {
      AggregatesFollow(s, t, p, prices);
      StockFollows(s, t, p, prices);
    }
  }

  // ---------------------------------------------------------------------------------------
  // Round trips

  /** Adding q (q != 0) units of a product the cart does not hold and then removing it at the
      same price gives back exactly the records we started from. */
  lemma AddThenRemove(s: Shop, p: ProductId, price: int, q: int)
    requires p in s.stocks && p !in s.cart
    requires q != 0 && q <= s.stocks[p]
    ensures Add(s, p, price, q).status == Done
    ensures Remove(Add(s, p, price, q).shop, p, price) == Reply(Done, s)
  {
  }

  /** With q == 0 the round trip does not close: add-to-cart leaves a zero entry, which
      remove-from-cart then refuses as "not in cart". */
  lemma AddZeroThenRemove(s: Shop, p: ProductId, price: int)
    requires p in s.stocks && p !in s.cart && 0 <= s.stocks[p]
    ensures Add(s, p, price, 0).status == Done
    ensures var t := Add(s, p, price, 0).shop;
            p in t.cart && Remove(t, p, price) == Reply(Failed(NotInCart), t)
  {
  }

  /** increase-cart followed by decrease-cart at the same price restores the records. */
  lemma IncreaseThenDecrease(s: Shop, p: ProductId, price: int)
    requires p in s.cart && p in s.stocks && 1 <= s.stocks[p]
    ensures Increase(s, p, price).status == Done
    ensures Decrease(Increase(s, p, price).shop, p, price) == Reply(Done, s)
  {
  }

  /** decrease-cart followed by increase-cart restores the records when stock was not
      negative (the increase then finds at least one unit). */
  lemma DecreaseThenIncrease(s: Shop, p: ProductId, price: int)
    requires p in s.cart && p in s.stocks && 0 <= s.stocks[p]
    ensures Decrease(s, p, price).status == Done
    ensures Increase(Decrease(s, p, price).shop, p, price) == Reply(Done, s)
  {
  }

  /** The stock table is shared by every user's cart, and decrease-cart has no floor, so with
      two carts and one request at a time the stock of a product can end below zero: user A
      holds 1 unit and the shelf none; A decreases twice (entry -1, shelf 2); user B adds 2
      (shelf 0); A removes the entry -1 (shelf -1). */
  lemma SharedStockCanGoNegative(p: ProductId, price: int)
    ensures
      var a0 := Shop(map[p := 1], 1, price, map[p := 0]);
      var a1 := Decrease(a0, p, price).shop;
      var a2 := Decrease(a1, p, price).shop;
      var b0 := Add(Shop(map[], 0, 0, a2.stocks), p, price, 2);
      var a3 := Remove(a2.(stocks := b0.shop.stocks), p, price);
      && a2.cart[p] == -1 && a2.stocks[p] == 2
      && b0.status == Done && b0.shop.stocks[p] == 0
      && a3.status == Done && a3.shop.stocks[p] == -1
  {
    var a0 := Shop(map[p := 1], 1, price, map[p := 0]);
    var a1 := Decrease(a0, p, price).shop;
    assert a1.cart[p] == 0 && a1.stocks[p] == 1;
    var a2 := Decrease(a1, p, price).shop;
    assert a2.cart[p] == -1 && a2.stocks[p] == 2;
  }

  // ---------------------------------------------------------------------------------------
  // The records as mutable state

  /** One user's cart and the product stock table, updated in place by the handlers. */
  class Store {
    var cart: map<ProductId, int>
    var count: int
    var total: int
    var stocks: map<ProductId, int>

    /** The current records as a value. */
    function State(): Shop
      reads this
    {
      Shop(cart, count, total, stocks)
    }

    /** A user with an empty cart (count 0, total 0) and the given stock table. */
    constructor (stocks: map<ProductId, int>)
      ensures State() == Shop(map[], 0, 0, stocks)
    {
      cart, count, total := map[], 0, 0;
      this.stocks := stocks;
    }

    method AddToCart(p: ProductId, price: int, quantity: int) returns (status: Status)
      modifies this
      ensures Reply(status, State()) == Add(old(State()), p, price, quantity)
      ensures status.Failed? ==> State() == old(State())
    {
      if p !in stocks {
        return Failed(ProductNotFound);
      }
      var available := stocks[p];
      if quantity > available {
        return Failed(InsufficientStock);
      }
      if p in cart && cart[p] != 0 {
        cart := cart[p := cart[p] + quantity];
      } else {
        cart := cart[p := quantity];
      }
      count := count + quantity;
      total := total + quantity * price;
      stocks := stocks[p := stocks[p] - quantity];
      status := Done;
    }

    method IncreaseCart(p: ProductId, price: int) returns (status: Status)
      requires p in cart || p !in stocks || stocks[p] < 1
      modifies this
      ensures Reply(status, State()) == Increase(old(State()), p, price)
      ensures status.Failed? ==> State() == old(State())
    {
      if p !in stocks {
        return Failed(MissingProduct);
      }
      var available := stocks[p];
      if available < 1 {
        return Failed(NoStockAvailable);
      }
      total := total + price;
      count := count + 1;
      cart := cart[p := cart[p] + 1];
      stocks := stocks[p := stocks[p] - 1];
      status := Done;
    }

    method DecreaseCart(p: ProductId, price: int) returns (status: Status)
      requires p in cart
      modifies this
      ensures Reply(status, State()) == Decrease(old(State()), p, price)
    {
      total := total - price;
      count := count - 1;
      cart := cart[p := cart[p] - 1];
      if p !in stocks {
        return Failed(MissingProduct);
      }
      stocks := stocks[p := stocks[p] + 1];
      status := Done;
    }

    method RemoveFromCart(p: ProductId, price: int) returns (status: Status)
      modifies this
      ensures Reply(status, State()) == Remove(old(State()), p, price)
      ensures status == Failed(NotInCart) ==> State() == old(State())
    {
      if p !in cart || cart[p] == 0 {
        return Failed(NotInCart);
      }
      var q := cart[p];
      total := total - q * price;
      count := count - q;
      cart := cart - {p};
      if p !in stocks {
        return Failed(MissingProduct);
      }
      stocks := stocks[p := stocks[p] + q];
      status := Done;
    }
  }
}
