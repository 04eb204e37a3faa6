/** Checkout: turns the caller's cart into one paid Order.

    Each cart line becomes an order line, in the same order, priced at the
    product's `pricePerDay` for a rental line and its `price` for a purchase
    line; the total is the sum of quantity times unit price (rental lines get
    no day multiplier). Purchase lines then lower their product's stock, with
    no check that enough is left, and the cart is emptied. */
module OrderController {
  import opened Models

  // ---------------------------------------------------------------------
  // The order lines and the total.
  // ---------------------------------------------------------------------

  /** The unit price a line is charged. */
  function UnitPrice(product: Product, kind: ItemType): int
  {
    if kind == RentalItem then product.pricePerDay else product.price
  }

  /** The order line made from a cart line. */
  function LineFor(it: CartItem, product: Product): OrderItem
  {
    OrderItem(it.product, it.qty, UnitPrice(product, it.kind), it.kind, it.rentalStart, it.rentalEnd)
  }

  /** The order lines for the cart, or None when some line's product no
      longer exists (the error thrown inside the `map`). */
  function OrderLines(items: seq<CartItem>, products: map<ProductId, Product>): (r: Option<seq<OrderItem>>)
    ensures r.None? <==> exists i :: 0 <= i < |items| && items[i].product !in products
    ensures r.Some? ==> && |r.value| == |items|
                        && forall i :: 0 <= i < |items| ==> r.value[i] == LineFor(items[i], products[items[i].product])
  {
    if items == [] then Some([])
    else if items[0].product !in products then None
    else
      assert forall i :: 1 <= i < |items| ==> items[1..][i - 1] == items[i];
      match OrderLines(items[1..], products)
      case None => None
      case Some(rest) => Some([LineFor(items[0], products[items[0].product])] + rest)
  }

  /** The `reduce` over the lines: a running sum of quantity times price. */
  function OrderTotal(lines: seq<OrderItem>): int
  {
    if lines == [] then 0
    else OrderTotal(lines[..|lines| - 1]) + lines[|lines| - 1].qty * lines[|lines| - 1].price
  }

  lemma {:induction false} OrderTotalAppend(a: seq<OrderItem>, b: seq<OrderItem>)
    ensures OrderTotal(a + b) == OrderTotal(a) + OrderTotal(b)
    decreases |b|
  {
    if b != [] {
      var init := b[..|b| - 1];
      assert (a + b)[..|a + b| - 1] == a + init;
      OrderTotalAppend(a, init);
    } else {
      assert a + b == a;
    }
  }

  lemma {:induction false} OrderTotalNonNegative(lines: seq<OrderItem>)
    requires forall i :: 0 <= i < |lines| ==> lines[i].qty >= 0 && lines[i].price >= 0
    ensures OrderTotal(lines) >= 0
  {
    if lines != [] {
      OrderTotalNonNegative(lines[..|lines| - 1]);
    }
  }

  /** A rental line is charged its per-day rate once, however many days it spans. */
  lemma RentalLineIgnoresDays()
    ensures var product := Product("p", 0, 1, true, 10, 0);
            var item := CartItem("p", 1, RentalItem, Some(1), Some(3));
            && OrderLines([item], map["p" := product]) == Some([LineFor(item, product)])
            && OrderTotal([LineFor(item, product)]) == 10
  {
    var item := CartItem("p", 1, RentalItem, Some(1), Some(3));
    var product := Product("p", 0, 1, true, 10, 0);
    var products := map["p" := product];
    assert [item][1..] == [];
    assert OrderLines([], products) == Some([]);
    assert [LineFor(item, product)] + [] == [LineFor(item, product)];
    assert [LineFor(item, product)][..0] == [];
  }

  // ---------------------------------------------------------------------
  // The stock decrement.
  // ---------------------------------------------------------------------

  /** The quantity the purchase lines of `items` take from product p. */
  function PurchasedQty(items: seq<CartItem>, p: ProductId): int
  {
    if items == [] then 0
    else
      var it := items[|items| - 1];
      PurchasedQty(items[..|items| - 1], p) + (if it.kind == PurchaseItem && it.product == p then it.qty else 0)
  }

  /** A product that no purchase line names loses no stock. */
  lemma {:induction false} UnpurchasedKeepsStock(items: seq<CartItem>, p: ProductId)
    requires forall i :: 0 <= i < |items| ==> items[i].product != p || items[i].kind == RentalItem
    ensures PurchasedQty(items, p) == 0
  {
    if items != [] {
      UnpurchasedKeepsStock(items[..|items| - 1], p);
    }
  }

  /** The stock of every product after the purchase lines of `items` are taken off. */
  ghost predicate StockTakenOff(before: map<ProductId, Product>, after: map<ProductId, Product>, items: seq<CartItem>)
  {
    && after.Keys == before.Keys
    && forall p :: p in before ==> after[p] == before[p].(stock := before[p].stock - PurchasedQty(items, p))
  }

  /** Nothing checks that enough stock is left: buying three of one goes to -2. */
  lemma StockCanGoNegative()
    ensures PurchasedQty([CartItem("p", 3, PurchaseItem, None, None)], "p") == 3
    ensures var before := map["p" := Product("p", 5, 1, false, 0, 0)];
            StockTakenOff(before, map["p" := Product("p", 5, -2, false, 0, 0)],
                          [CartItem("p", 3, PurchaseItem, None, None)])
  {
    assert [CartItem("p", 3, PurchaseItem, None, None)][..0] == [];
  }

  // ---------------------------------------------------------------------
  // checkout.
  // ---------------------------------------------------------------------

  datatype CheckoutError = CartEmpty | ProductNotFound

  datatype CheckoutResponse = Placed(orderId: nat) | CheckoutRefused(error: CheckoutError)

  /** `paymentMethod || 'dummy'`: a missing or empty method becomes "dummy". */
  function PaymentMethodOf(requested: Option<string>): (m: string)
    ensures m != ""
    ensures requested.Some? && requested.value != "" ==> m == requested.value
  {
    if requested.Some? && requested.value != "" then requested.value else "dummy"
  }

  /** The stock loop: each purchase line lowers its product's stock by its
      quantity. */
  method TakeOffStock(db: Db, items: seq<CartItem>)
    modifies db
    ensures db.rentals == old(db.rentals) && db.users == old(db.users)
    ensures db.orders == old(db.orders) && db.carts == old(db.carts)
    ensures StockTakenOff(old(db.products), db.products, items)
  {
    for i := 0 to |items|
      invariant db.rentals == old(db.rentals) && db.users == old(db.users)
      invariant db.orders == old(db.orders) && db.carts == old(db.carts)
      invariant StockTakenOff(old(db.products), db.products, items[..i])
    {
      assert items[..i + 1][..i] == items[..i];
      var it := items[i];
      if it.kind == PurchaseItem && it.product in db.products {
        var product := db.products[it.product];
        db.products := db.products[it.product := product.(stock := product.stock - it.qty)];
      }
    }
    assert items[..|items|] == items;
  }

  method Checkout(db: Db, user: UserId, paymentMethod: Option<string>) returns (res: CheckoutResponse)
    requires db.Valid()
    modifies db, (if user in db.carts then {db.carts[user]} else {})
    ensures db.Valid()
    ensures db.rentals == old(db.rentals) && db.carts == old(db.carts) && db.users == old(db.users)
    ensures user !in old(db.carts) || old(db.carts[user].items) == [] ==> res == CheckoutRefused(CartEmpty)
    ensures && user in old(db.carts) && old(db.carts[user].items) != []
            && OrderLines(old(db.carts[user].items), old(db.products)).None?
            ==> res == CheckoutRefused(ProductNotFound)
    ensures res.CheckoutRefused? ==>
              && db.orders == old(db.orders) && db.products == old(db.products)
              && (user in db.carts ==> db.carts[user].items == old(db.carts[user].items))
    ensures && user in old(db.carts) && old(db.carts[user].items) != []
            && OrderLines(old(db.carts[user].items), old(db.products)).Some? ==>
              var items := old(db.carts[user].items);
              var lines := OrderLines(items, old(db.products)).value;
              && res == Placed(|old(db.orders)|)
              && db.orders == old(db.orders) + [Order(user, lines, OrderTotal(lines), Paid, PaymentMethodOf(paymentMethod))]
              && StockTakenOff(old(db.products), db.products, items)
              && db.carts[user].items == []
  {
    if user !in db.carts || |db.carts[user].items| == 0 {
      return CheckoutRefused(CartEmpty);
    }
    var cart := db.carts[user];
    var items := cart.items;
    var made := OrderLines(items, db.products);
    if made.None? {
      return CheckoutRefused(ProductNotFound);
    }
    var lines := made.value;
    var total := OrderTotal(lines);
    res := Placed(|db.orders|);
    db.orders := db.orders + [Order(user, lines, total, Paid, PaymentMethodOf(paymentMethod))];

    TakeOffStock(db, items);
    cart.items := [];
  }
}
